/** The order in which both languages sort strings: character by character, a proper prefix first. */
module TextOrder {
  predicate Less(a: string, b: string) {
    && b != []
    && (a == [] || a[0] < b[0] || (a[0] == b[0] && Less(a[1..], b[1..])))
  }

  lemma {:induction false} LessIsStrict(a: string)
    ensures !Less(a, a)
  {
    if a != [] {
      LessIsStrict(a[1..]);
    }
  }

  lemma {:induction false} LessIsTransitive(a: string, b: string, c: string)
    requires Less(a, b) && Less(b, c)
    ensures Less(a, c)
  {
    if a != [] && a[0] == b[0] == c[0] {
      LessIsTransitive(a[1..], b[1..], c[1..]);
    }
  }

  lemma {:induction false} LessIsTotal(a: string, b: string)
    ensures a == b || Less(a, b) || Less(b, a)
  {
    if a != [] && b != [] && a[0] == b[0] {
      LessIsTotal(a[1..], b[1..]);
      assert a == [a[0]] + a[1..] && b == [b[0]] + b[1..];
    }
  }

  /** Texts of one length: the front decides, and only equal fronts leave it to the last character. */
  lemma {:induction false} LessByFront(a: string, b: string, c: char, d: char)
    requires |a| == |b|
    ensures Less(a + [c], b + [d]) <==> Less(a, b) || (a == b && c < d)
    decreases |a|
  {
    if a == [] {
      assert a + [c] == [c] && b + [d] == [d];
    } else {
      LessByFront(a[1..], b[1..], c, d);
      assert (a + [c])[1..] == a[1..] + [c] && (b + [d])[1..] == b[1..] + [d];
      assert a == [a[0]] + a[1..] && b == [b[0]] + b[1..];
    }
  }

  predicate Sorted(s: seq<string>) {
    forall i, j :: 0 <= i < j < |s| ==> Less(s[i], s[j])
  }

  lemma FirstIsMember(s: seq<string>)
    requires s != []
    ensures s[0] in s
  {
  }

  /** A set has only one sorted enumeration. */
  lemma {:induction false} SortedIsUnique(s: seq<string>, t: seq<string>)
    requires Sorted(s) && Sorted(t)
    requires forall x :: x in s <==> x in t
    ensures s == t
    decreases |s|
  {
    if s == [] {
      if t != [] {
        FirstIsMember(t);
        assert false;
      }
    } else {
      assert s[0] in t && t != [] && t[0] in s;
      var i :| 0 <= i < |t| && t[i] == s[0];
      var j :| 0 <= j < |s| && s[j] == t[0];
      LessIsStrict(s[0]);
      if s[0] != t[0] {
        LessIsTransitive(s[0], t[0], s[0]);
      }
      forall x
        ensures x in s[1..] <==> x in t[1..]
      {
        LessIsStrict(x);
        if x in s[1..] {
          var k :| 0 <= k < |s[1..]| && s[1..][k] == x;
          assert s[k + 1] == x && Less(s[0], x) && x in t;
        }
        if x in t[1..] {
          var k :| 0 <= k < |t[1..]| && t[1..][k] == x;
          assert t[k + 1] == x && Less(t[0], x) && x in s;
        }
      }
      SortedIsUnique(s[1..], t[1..]);
      assert s == [s[0]] + s[1..] && t == [t[0]] + t[1..];
    }
  }

  // ---- The sorted enumeration of a set -----------------------------------------------------------------

  ghost predicate IsListing(ids: seq<string>, names: set<string>) {
    Sorted(ids) && forall id :: id in ids <==> id in names
  }

  /** Put a new name in its place. */
  function Inserted(id: string, ids: seq<string>): seq<string> {
    if ids == [] || Less(id, ids[0]) then [id] + ids else [ids[0]] + Inserted(id, ids[1..])
  }

  lemma {:induction false} InsertedInPlace(id: string, ids: seq<string>)
    requires Sorted(ids) && id !in ids
    ensures Sorted(Inserted(id, ids))
    ensures forall x :: x in Inserted(id, ids) <==> x == id || x in ids
    decreases |ids|
  {
    if ids != [] {
      if Less(id, ids[0]) {
        forall j | 0 <= j < |ids|
          ensures Less(id, ids[j])
        {
          if j > 0 {
            LessIsTransitive(id, ids[0], ids[j]);
          }
        }
      } else {
        var rest := ids[1..];
        InsertedInPlace(id, rest);
        LessIsTotal(id, ids[0]);
        forall x | x in Inserted(id, rest)
          ensures Less(ids[0], x)
        {
          if x in rest {
            var j :| 0 <= j < |rest| && rest[j] == x;
            assert ids[j + 1] == x;
          }
        }
        assert forall x :: x in ids <==> x == ids[0] || x in rest;
      }
    }
  }

  predicate Least(id: string, names: set<string>) {
    id in names && forall x :: x in names ==> x == id || Less(id, x)
  }

  lemma {:induction false} LeastExists(names: set<string>)
    requires names != {}
    ensures exists id :: Least(id, names)
    decreases |names|
  {
    var id :| id in names;
    var rest := names - {id};
    if rest == {} {
      assert names == {id};
      assert Least(id, names);
    } else {
      LeastExists(rest);
      var m :| Least(m, rest);
      LessIsTotal(id, m);
      if Less(id, m) {
        forall x | x in rest
          ensures Less(id, x)
        {
          if x != m {
            LessIsTransitive(id, m, x);
          }
        }
        assert Least(id, names);
      } else {
        assert Least(m, names);
      }
    }
  }

  lemma LeastIsUnique(a: string, b: string, names: set<string>)
    requires Least(a, names) && Least(b, names)
    ensures a == b
  {
    if a != b {
      LessIsTransitive(a, b, a);
      LessIsStrict(a);
    }
  }

  function Smallest(names: set<string>): (id: string)
    requires names != {}
    ensures Least(id, names)
  {
    LeastExists(names);
    assert forall a, b | Least(a, names) && Least(b, names) :: a == b by {
      forall a, b | Least(a, names) && Least(b, names)
        ensures a == b
      {
        LeastIsUnique(a, b, names);
      }
    }
    var id :| id in names && Least(id, names);
    id
  }

  /** The names in order; `ListingUnique` says that there is only one such list. */
  function Listing(names: set<string>): (ids: seq<string>)
    ensures IsListing(ids, names)
  {
    if names == {} then []
    else
      var id := Smallest(names);
      [id] + Listing(names - {id})
  }

  lemma ListingUnique(ids: seq<string>, names: set<string>)
    requires IsListing(ids, names)
    ensures ids == Listing(names)
  {
    SortedIsUnique(ids, Listing(names));
  }
}
