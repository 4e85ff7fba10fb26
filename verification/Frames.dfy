/** Verifying wire frames: the reference verifier, the agent's verifier with its pruned memory, and whole runs of
    both. The signature check is a parameter; everything else is what the two verifiers do. */
module Frames {
  import opened CanonicalInverse
  import opened CanonicalJson
  import opened CanonicalReader
  import opened DepthScan
  import opened JsonScan
  import opened JsonText
  import opened Numerals
  import opened Options
  import opened Ulids
  import opened Utf8
  import opened Verdicts

  const DOMAIN: string := "forgeline-wire/1\n"
  const MAX_FRAME_BYTES: int := 65_536
  const MAX_DEPTH: nat := 32
  const VERSION: int := 1

  datatype TrustedKey = TrustedKey(owner: string, publicKey: string)

  /** One receiver: who it is, whom it trusts by key id, how a signature is verified (key, signed text, signature)
      and which double a numeral stands for. */
  datatype Receiver = Receiver(
    me: string,
    keys: map<string, TrustedKey>,
    verifies: (string, string, string) -> bool,
    num: string -> Number
  )

  // ---- Formats -------------------------------------------------------------------------------------------

  predicate IsType(s: string) {
    && 1 <= |s| <= 64
    && 'a' <= s[0] <= 'z'
    && forall i :: 1 <= i < |s| ==> 'a' <= s[i] <= 'z' || s[i] == '_' || s[i] == '.'
  }

  predicate IsParty(s: string) {
    s == "cloud" || ("dev_" <= s && IsUlid(s[4..]))
  }

  predicate IsBase64Url(s: string, length: nat) {
    && |s| == length
    && forall c :: c in s ==> 'A' <= c <= 'Z' || 'a' <= c <= 'z' || IsDigit(c) || c == '-' || c == '_'
  }

  predicate IsSig(s: string) {
    IsBase64Url(s, 86) && s[85] in "AQgw"
  }

  predicate IsObject(v: Json) {
    v.Obj? || v.Stray?
  }

  predicate IsText(v: Option<Json>, format: string -> bool) {
    v.Some? && v.value.Str? && format(v.value.s)
  }

  const FIELDS: set<string> := {"v", "type", "id", "ts", "from", "to", "kid", "re", "body", "sig"}

  /** Checks 3 and 4: the closed field set, the format of every field, and that the value can be printed at all. */
  predicate WellFormed(v: Json)
    requires IsObject(v)
  {
    && v.Obj? && v.fields.Keys <= FIELDS
    && IsText(Field(v.fields, "type"), IsType)
    && IsText(Field(v.fields, "id"), IsUlid)
    && SafeInteger(Field(v.fields, "ts")).Some? && SafeInteger(Field(v.fields, "ts")).value >= 0
    && IsText(Field(v.fields, "from"), IsParty)
    && IsText(Field(v.fields, "to"), IsParty)
    && IsText(Field(v.fields, "kid"), s => IsBase64Url(s, 16))
    && ("re" in v.fields ==> IsText(Field(v.fields, "re"), IsUlid))
    && "body" in v.fields && IsObject(v.fields["body"])
    && IsText(Field(v.fields, "sig"), IsSig)
    && Allowed(v)
  }

  function EnvelopeOf(v: Json): Envelope
    requires IsObject(v) && WellFormed(v)
  {
    Envelope(v.fields["id"].s, SafeInteger(Some(v.fields["ts"])).value, v.fields["from"].s, v.fields["to"].s,
             v.fields["kid"].s, v.fields["sig"].s, v.fields)
  }

  /** What the sender signed: the canonical text of everything but the signature. */
  function SigningInput(fields: map<string, Json>): string {
    DOMAIN + Text(Obj(fields - {"sig"}))
  }

  predicate Trusted(env: Envelope, r: Receiver) {
    env.kid in r.keys && r.keys[env.kid].owner == env.from
  }

  // ---- The verdict ---------------------------------------------------------------------------------------

  /** The checks that depend neither on the clock nor on earlier frames. */
  function Screen(raw: string, parsed: Option<Json>, r: Receiver): Verdict {
    if parsed.None? || !IsObject(parsed.value) then Rejected(Malformed)
    else
      var v := parsed.value;
      var version := SafeInteger(Field(v.fields, "v"));
      if version.None? then Rejected(Malformed)
      else if version.value != VERSION then Rejected(UnsupportedVersion)
      else if !WellFormed(v) then Rejected(Malformed)
      else if Text(v) != raw then Rejected(NonCanonical)
      else
        var env := EnvelopeOf(v);
        if !Trusted(env, r) then Rejected(UnknownKey)
        else if !r.verifies(r.keys[env.kid].publicKey, SigningInput(env.fields), env.sig) then Rejected(BadSignature)
        else if env.to != r.me then Rejected(WrongRecipient)
        else Accepted(env)
  }

  /** The reference scans the raw text for its depth and then parses without a bound. */
  function ReferenceScreen(raw: string, r: Receiver): Verdict {
    if Utf8Length(raw) > MAX_FRAME_BYTES || ScanFrom(START, raw).deepest > MAX_DEPTH then Rejected(Malformed)
    else Screen(raw, ReadJson(raw, None, r.num), r)
  }

  /** The agent's parser stops at the bound. */
  function AgentScreen(raw: string, r: Receiver): Verdict {
    if Utf8Length(raw) > MAX_FRAME_BYTES then Rejected(Malformed)
    else Screen(raw, ReadJson(raw, Some(MAX_DEPTH), r.num), r)
  }

  /** Both refuse too deep a frame with the same code, wherever it is refused. */
  lemma SameScreen(raw: string, r: Receiver)
    ensures AgentScreen(raw, r) == ReferenceScreen(raw, r)
  {
    SameReading(raw, MAX_DEPTH);
  }

  // ---- The reference verifier ------------------------------------------------------------------------------

  class VerifyContext {
    const receiver: Receiver
    var now: int
    var seen: set<string>

    constructor (receiver: Receiver, now: int)
      ensures this.receiver == receiver && this.now == now && seen == {}
    {
      this.receiver, this.now, seen := receiver, now, {};
    }

    method VerifyFrame(raw: string) returns (verdict: Verdict)
      modifies this`seen
      ensures verdict == Timed(ReferenceScreen(raw, receiver), now, old(seen))
      ensures seen == old(seen) + if verdict.Accepted? then {SeenKey(verdict.env)} else {}
    {
      if Utf8Length(raw) > MAX_FRAME_BYTES {
        return Rejected(Malformed);
      }
      var deepest := NestingDepth(raw);
      if deepest > MAX_DEPTH {
        return Rejected(Malformed);
      }
      verdict := Screen(raw, ReadJson(raw, None, receiver.num), receiver);
      if verdict.Rejected? {
        return;
      }
      if !InWindow(verdict.env, now) {
        return Rejected(Stale);
      }
      if SeenKey(verdict.env) in seen {
        return Rejected(Replay);
      }
      seen := seen + {SeenKey(verdict.env)};
    }
  }

  // ---- The agent's verifier --------------------------------------------------------------------------------

  class Verifier {
    const receiver: Receiver
    var seen: map<string, int>

    constructor (receiver: Receiver)
      ensures this.receiver == receiver && seen == map[]
    {
      this.receiver, seen := receiver, map[];
    }

    method Verify(raw: string, now: int) returns (verdict: Verdict)
      modifies this
      ensures verdict == AgentVerdict(AgentScreen(raw, receiver), now, old(seen), REPLAY_MEMORY_MS)
      ensures seen == AgentSeen(AgentScreen(raw, receiver), now, old(seen), REPLAY_MEMORY_MS)
    {
      if Utf8Length(raw) > MAX_FRAME_BYTES {
        return Rejected(Malformed);
      }
      var screened := Screen(raw, ReadJson(raw, Some(MAX_DEPTH), receiver.num), receiver);
      verdict := Remember(screened, now);
    }

    /** The clock and the memory: forget what is too old, then ask, then remember. */
    method Remember(screened: Verdict, now: int) returns (verdict: Verdict)
      modifies this
      ensures verdict == AgentVerdict(screened, now, old(seen), REPLAY_MEMORY_MS)
      ensures seen == AgentSeen(screened, now, old(seen), REPLAY_MEMORY_MS)
    {
      if screened.Rejected? {
        return screened;
      }
      if !InWindow(screened.env, now) {
        return Rejected(Stale);
      }
      seen := map k | k in seen && now - seen[k] <= REPLAY_MEMORY_MS :: seen[k];
      if SeenKey(screened.env) in seen {
        return Rejected(Replay);
      }
      seen := seen[SeenKey(screened.env) := now];
      verdict := screened;
    }
  }

  // ---- What one accepted frame is ----------------------------------------------------------------------------

  /** An accepted frame is its own canonical text, at most 32 levels deep, signed by a key that its sender owns. */
  lemma AcceptedIsGenuine(raw: string, r: Receiver, now: int, seen: set<string>)
    ensures var verdict := Timed(ReferenceScreen(raw, r), now, seen);
            verdict.Accepted? ==>
              var env := verdict.env;
              && Canonicalize(Obj(env.fields)) == Some(raw) && Depth(Obj(env.fields)) <= MAX_DEPTH
              && ReadValue(raw) == Some((Plain(Obj(env.fields)), ""))
              && env.kid in r.keys && r.keys[env.kid].owner == env.from && env.to == r.me
              && r.verifies(r.keys[env.kid].publicKey, SigningInput(env.fields), env.sig)
              && InWindow(env, now) && SeenKey(env) !in seen
  {
    var verdict := Timed(ReferenceScreen(raw, r), now, seen);
    if verdict.Accepted? {
      ScanIsDepth(Obj(verdict.env.fields));
      ValueReadsBack(Obj(verdict.env.fields), "");
      assert raw + "" == raw;
    }
  }

  lemma PartyHasNoSlash(s: string)
    requires IsParty(s)
    ensures '/' !in s
  {
    if s != "cloud" {
      assert '/' !in CROCKFORD;
      forall i | 0 <= i < |s|
        ensures s[i] != '/'
      {
        if i < 4 {
          assert s[i] == "dev_"[i];
        } else {
          assert s[i] == s[4..][i - 4] && s[4..][i - 4] in s[4..];
        }
      }
    }
  }

  /** A screened frame names its sender without a slash, so the key of the memory splits at its only slash. */
  lemma ScreenedFrom(raw: string, parsed: Option<Json>, r: Receiver)
    ensures var screened := Screen(raw, parsed, r);
            screened.Accepted? ==> '/' !in screened.env.from
  {
    var screened := Screen(raw, parsed, r);
    if screened.Accepted? {
      PartyHasNoSlash(screened.env.from);
    }
  }

  /** The last two codes belong to the clock and to the memory. */
  lemma ScreenedCode(raw: string, parsed: Option<Json>, r: Receiver)
    ensures var screened := Screen(raw, parsed, r);
            screened.Rejected? ==>
              screened.code in {Malformed, UnsupportedVersion, NonCanonical, UnknownKey, BadSignature, WrongRecipient}
  {
  }

  /** What a screened frame's fields are: printable, their text the frame's, and with the signature among them. */
  lemma ScreenedFields(raw: string, parsed: Option<Json>, r: Receiver)
    ensures var screened := Screen(raw, parsed, r);
            screened.Accepted? ==>
              var f := screened.env.fields;
              Allowed(Obj(f)) && Text(Obj(f)) == raw && "sig" in f && f["sig"] == Str(screened.env.sig)
  {
  }

  /** Fields that are printed alike without their common signature are printed alike with it. */
  lemma SignedAlike(f: map<string, Json>, g: map<string, Json>)
    requires Allowed(Obj(f)) && Allowed(Obj(g)) && "sig" in f && "sig" in g && f["sig"] == g["sig"]
    requires SigningInput(f) == SigningInput(g)
    ensures Text(Obj(f)) == Text(Obj(g))
  {
    UnsignedAllowed(f);
    UnsignedAllowed(g);
    SameAfterDomain(Text(Obj(f - {"sig"})), Text(Obj(g - {"sig"})));
    CanonicalTextIsUnique(Obj(f - {"sig"}), Obj(g - {"sig"}));
    PlainWithSig(f, g);
    PlainPrintsAlike(Obj(f));
    PlainPrintsAlike(Obj(g));
  }

  /** The signature covers the frame: what was signed and the signature leave only one text. */
  lemma SignedTextIsFrame(raw: string, raw': string, r: Receiver)
    ensures var a, b := ReferenceScreen(raw, r), ReferenceScreen(raw', r);
            (a.Accepted? && b.Accepted? && SigningInput(a.env.fields) == SigningInput(b.env.fields)
             && a.env.sig == b.env.sig) ==> raw == raw'
  {
    var a, b := ReferenceScreen(raw, r), ReferenceScreen(raw', r);
    ScreenedFields(raw, ReadJson(raw, None, r.num), r);
    ScreenedFields(raw', ReadJson(raw', None, r.num), r);
    if a.Accepted? && b.Accepted? && SigningInput(a.env.fields) == SigningInput(b.env.fields)
       && a.env.sig == b.env.sig {
      SignedAlike(a.env.fields, b.env.fields);
    }
  }

  lemma SameAfterDomain(a: string, b: string)
    requires DOMAIN + a == DOMAIN + b
    ensures a == b
  {
    assert a == (DOMAIN + a)[|DOMAIN|..] && b == (DOMAIN + b)[|DOMAIN|..];
  }

  lemma UnsignedAllowed(fields: map<string, Json>)
    requires Allowed(Obj(fields))
    ensures Allowed(Obj(fields - {"sig"}))
  {
  }

  lemma PlainWithSig(f: map<string, Json>, g: map<string, Json>)
    requires "sig" in f && "sig" in g && f["sig"] == g["sig"]
    requires Plain(Obj(f - {"sig"})) == Plain(Obj(g - {"sig"}))
    ensures Plain(Obj(f)) == Plain(Obj(g))
  {
    var p, q := PlainMap(Obj(f - {"sig"})), PlainMap(Obj(g - {"sig"}));
    assert p.Keys == f.Keys - {"sig"} && q.Keys == g.Keys - {"sig"};
    assert f.Keys == p.Keys + {"sig"} && g.Keys == q.Keys + {"sig"};
    forall k | k in f
      ensures Plain(f[k]) == Plain(g[k])
    {
      if k != "sig" {
        assert k in p && p[k] == Plain(f[k]) && q[k] == Plain(g[k]);
      }
    }
    assert PlainMap(Obj(f)) == PlainMap(Obj(g));
  }

  /** The printer does not see the sign of a zero. */
  lemma PlainPrintsAlike(v: Json)
    requires Allowed(v)
    ensures Text(Plain(v)) == Text(v)
  {
    ValueReadsBack(v, "");
    ReaderIsInverse(Text(v) + "", Plain(v), "");
    assert Text(v) + "" == Text(v);
    assert Text(Plain(v)) + "" == Text(Plain(v));
  }
}
