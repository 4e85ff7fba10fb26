/** Opening the work items of a session: `doWrites` and the retry loop of `go` around it, against adapters that may
    fail at any call and a process that may die. */
module Writes {
  import opened Options

  /** A created issue, known by its repository and number. */
  datatype Issue = Issue(repo: string, number: int)

  /** One planned issue; `size` is its tier, if it names one. */
  datatype Spec = Spec(repo: string, size: Option<string>)

  /** What the gate-B draft and the target project say. */
  datatype Plan = Plan(
    multiRepo: bool,
    specs: seq<Spec>,
    repoMap: map<string, string>,
    umbrella: string,
    overall: Option<string>,
    publish: bool
  )

  /** What the adapters answer during one attempt: nothing is a failure. */
  datatype Answers = Answers(
    published: bool,
    created: Option<seq<Issue>>,
    children: map<string, seq<Issue>>,
    badLabels: set<Issue>,
    approved: bool
  )

  datatype Call =
    | Publish
    | CreateSingle
    | CreateEpic
    | ListChildren(repo: string)
    | AddLabel(issue: Issue, size: string)
    | Approve(reference: Option<Issue>)

  predicate Creates(c: Call) {
    c.CreateSingle? || c.CreateEpic?
  }

  datatype Outcome = Opened(issues: seq<Issue>) | Failed

  /** One run of `doWrites`: how it ended, each set of issues it had persisted on the way, and its calls. */
  datatype Written = Written(outcome: Outcome, saved: seq<seq<Issue>>, calls: seq<Call>)

  // ---- What doWrites does --------------------------------------------------------------------------------

  predicate Real(i: Issue) {
    i.repo != "" && i.number != 0
  }

  /** The issues of earlier attempts that a retry goes by. */
  function Resumed(created: seq<Issue>): (r: seq<Issue>)
    ensures forall i :: i in r <==> i in created && Real(i)
  {
    if created == [] then []
    else
      var last := created[|created| - 1];
      Resumed(created[..|created| - 1]) + if Real(last) then [last] else []
  }

  function RepoOf(spec: Spec, plan: Plan): string {
    if spec.repo in plan.repoMap then plan.repoMap[spec.repo] else spec.repo
  }

  /** The repositories that must have an issue, each once. */
  function Expected(plan: Plan, k: nat): seq<string>
    requires k <= |plan.specs|
  {
    if k == 0 then []
    else
      var front, repo := Expected(plan, k - 1), RepoOf(plan.specs[k - 1], plan);
      if repo in front then front else front + [repo]
  }

  predicate Covers(have: seq<Issue>, repo: string) {
    exists i :: 0 <= i < |have| && have[i].repo == repo
  }

  function MissingOf(repos: seq<string>, have: seq<Issue>): seq<string> {
    if repos == [] then []
    else
      var last := repos[|repos| - 1];
      MissingOf(repos[..|repos| - 1], have) + if Covers(have, last) then [] else [last]
  }

  /** Add what is not there yet. */
  function AddNew(have: seq<Issue>, found: seq<Issue>): seq<Issue> {
    if found == [] then have
    else
      var front, last := AddNew(have, found[..|found| - 1]), found[|found| - 1];
      if last in front then front else front + [last]
  }

  function Refreshed(have: seq<Issue>, repos: seq<string>, a: Answers): seq<Issue> {
    if repos == [] then have
    else
      var front, repo := Refreshed(have, repos[..|repos| - 1], a), repos[|repos| - 1];
      if repo in a.children then AddNew(front, a.children[repo]) else front
  }

  function ListCalls(repos: seq<string>): seq<Call> {
    if repos == [] then [] else ListCalls(repos[..|repos| - 1]) + [ListChildren(repos[|repos| - 1])]
  }

  lemma NextRepo(have: seq<Issue>, repos: seq<string>, a: Answers, k: nat)
    requires k < |repos|
    ensures var front, repo := Refreshed(have, repos[..k], a), repos[k];
            Refreshed(have, repos[..k + 1], a) == if repo in a.children then AddNew(front, a.children[repo]) else front
    ensures ListCalls(repos[..k + 1]) == ListCalls(repos[..k]) + [ListChildren(repos[k])]
  {
    assert repos[..k + 1][..k] == repos[..k];
  }

  /** The first planned issue of a repository, by its mapped name. */
  function SpecFor(repo: string, plan: Plan, k: nat): Option<Spec>
    requires k <= |plan.specs|
    decreases |plan.specs| - k
  {
    if k == |plan.specs| then None
    else if plan.specs[k].repo in plan.repoMap && plan.repoMap[plan.specs[k].repo] == repo then Some(plan.specs[k])
    else SpecFor(repo, plan, k + 1)
  }

  function SizeOf(i: Issue, plan: Plan, overall: Option<string>): Option<string> {
    var spec := SpecFor(i.repo, plan, 0);
    if spec.Some? && spec.value.size.Some? then spec.value.size else overall
  }

  function LabelCalls(issues: seq<Issue>, plan: Plan, overall: Option<string>): seq<Call> {
    if issues == [] then []
    else
      var last := issues[|issues| - 1];
      LabelCalls(issues[..|issues| - 1], plan, overall) +
      match SizeOf(last, plan, overall)
      case None => []
      case Some(size) => [AddLabel(last, size)]
  }

  function LabelFails(issues: seq<Issue>, plan: Plan, overall: Option<string>, a: Answers): seq<Issue> {
    if issues == [] then []
    else
      var last := issues[|issues| - 1];
      LabelFails(issues[..|issues| - 1], plan, overall, a) +
      if SizeOf(last, plan, overall).Some? && last in a.badLabels then [last] else []
  }

  function InRepo(issues: seq<Issue>, repo: string): seq<Issue> {
    if issues == [] then []
    else
      var last := issues[|issues| - 1];
      InRepo(issues[..|issues| - 1], repo) + if last.repo == repo then [last] else []
  }

  /** Labels, then the approval: the end of both kinds of attempt. */
  function Finish(issues: seq<Issue>, labelled: seq<Issue>, plan: Plan, overall: Option<string>, approve: Option<Issue>,
                  a: Answers, saved: seq<seq<Issue>>, calls: seq<Call>): Written {
    var labels := calls + LabelCalls(labelled, plan, overall);
    if LabelFails(labelled, plan, overall, a) != [] then Written(Failed, saved, labels)
    else Written(if a.approved then Opened(issues) else Failed, saved, labels + [Approve(approve)])
  }

  /** Coverage, labels and approval of a requirement that spans repositories. */
  function Epic(plan: Plan, issues: seq<Issue>, resumed: bool, a: Answers, saved: seq<seq<Issue>>,
                calls: seq<Call>): Written {
    var repos := Expected(plan, |plan.specs|);
    var missing := MissingOf(repos, issues);
    var again := if resumed then Refreshed(issues, missing, a) else issues;
    var saved' := if |again| != |issues| then saved + [again] else saved;
    var calls' := if resumed then calls + ListCalls(missing) else calls;
    if MissingOf(repos, again) != [] then Written(Failed, saved', calls')
    else Finish(again, InRepo(again, plan.umbrella), plan, plan.overall, None, a, saved', calls')
  }

  function SingleOverall(plan: Plan): Option<string>
    requires plan.specs != []
  {
    if plan.specs[0].size.Some? then plan.specs[0].size else plan.overall
  }

  function ApprovedIssue(plan: Plan, issues: seq<Issue>): Option<Issue>
    requires issues != [] && plan.specs != []
  {
    Some(Issue(plan.specs[0].repo, issues[0].number))
  }

  function Single(plan: Plan, issues: seq<Issue>, a: Answers, saved: seq<seq<Issue>>, calls: seq<Call>): Written
    requires issues != [] && plan.specs != []
  {
    Finish(issues, issues, plan, SingleOverall(plan), ApprovedIssue(plan, issues), a, saved, calls)
  }

  /** The issues an attempt goes on with, unless it failed before it had any. */
  datatype Start = Start(issues: Option<seq<Issue>>, saved: seq<seq<Issue>>, calls: seq<Call>)

  /** Draft and publication, then the issues of an earlier attempt or new ones. */
  function StartOf(draft: Option<Plan>, created: seq<Issue>, a: Answers): Start {
    if draft.None? || draft.value.specs == [] then Start(None, [], [])
    else
      var plan, resume := draft.value, Resumed(created);
      var calls := if plan.publish then [Publish] else [];
      if plan.publish && !a.published then Start(None, [], calls)
      else if resume != [] then Start(Some(resume), [], calls)
      else
        var calls' := calls + [if plan.multiRepo then CreateEpic else CreateSingle];
        if a.created.None? || (!plan.multiRepo && a.created.value == []) then Start(None, [], calls')
        else Start(a.created, [a.created.value], calls')
  }

  /** One attempt, not rehearsed. */
  function AttemptOf(draft: Option<Plan>, created: seq<Issue>, a: Answers): Written {
    var start := StartOf(draft, created, a);
    if start.issues.None? then Written(Failed, start.saved, start.calls)
    else if draft.value.multiRepo then
      Epic(draft.value, start.issues.value, Resumed(created) != [], a, start.saved, start.calls)
    else Single(draft.value, start.issues.value, a, start.saved, start.calls)
  }

  // ---- Calls -----------------------------------------------------------------------------------------------

  predicate NoneCreates(calls: seq<Call>) {
    forall c :: c in calls ==> !Creates(c)
  }

  /** Nothing that publishes or creates. */
  predicate FollowUps(calls: seq<Call>) {
    forall c :: c in calls ==> !c.Publish? && !Creates(c)
  }

  lemma {:induction false} LabelsFollow(issues: seq<Issue>, plan: Plan, overall: Option<string>)
    ensures FollowUps(LabelCalls(issues, plan, overall))
  {
    if issues != [] {
      LabelsFollow(issues[..|issues| - 1], plan, overall);
    }
  }

  lemma {:induction false} ListsFollow(repos: seq<string>)
    ensures FollowUps(ListCalls(repos))
  {
    if repos != [] {
      ListsFollow(repos[..|repos| - 1]);
    }
  }

  /** After the first calls of an attempt nothing publishes or creates any more. */
  predicate GoesOn(calls: seq<Call>, w: Written) {
    calls <= w.calls && FollowUps(w.calls[|calls|..])
  }

  lemma GoesOnWith(calls: seq<Call>, more: seq<Call>, w: Written)
    requires w.calls == calls + more && FollowUps(more)
    ensures GoesOn(calls, w)
  {
    assert w.calls[|calls|..] == more;
  }

  lemma FinishGoesOn(issues: seq<Issue>, labelled: seq<Issue>, plan: Plan, overall: Option<string>,
                     approve: Option<Issue>, a: Answers, saved: seq<seq<Issue>>, calls: seq<Call>)
    ensures GoesOn(calls, Finish(issues, labelled, plan, overall, approve, a, saved, calls))
  {
    var labels := LabelCalls(labelled, plan, overall);
    LabelsFollow(labelled, plan, overall);
    var w := Finish(issues, labelled, plan, overall, approve, a, saved, calls);
    if w.calls == calls + labels {
      GoesOnWith(calls, labels, w);
    } else {
      assert w.calls == calls + (labels + [Approve(approve)]);
      GoesOnWith(calls, labels + [Approve(approve)], w);
    }
  }

  lemma GoesOnAfter(calls: seq<Call>, lists: seq<Call>, w: Written)
    requires FollowUps(lists) && GoesOn(calls + lists, w)
    ensures GoesOn(calls, w)
  {
    assert w.calls == calls + lists + w.calls[|calls + lists|..];
    assert w.calls[|calls|..] == lists + w.calls[|calls + lists|..];
  }

  lemma EpicGoesOn(plan: Plan, issues: seq<Issue>, resumed: bool, a: Answers, saved: seq<seq<Issue>>, calls: seq<Call>)
    ensures GoesOn(calls, Epic(plan, issues, resumed, a, saved, calls))
  {
    var missing := MissingOf(Expected(plan, |plan.specs|), issues);
    var lists := if resumed then ListCalls(missing) else [];
    var again := if resumed then Refreshed(issues, missing, a) else issues;
    var saved' := if |again| != |issues| then saved + [again] else saved;
    ListsFollow(missing);
    FinishGoesOn(again, InRepo(again, plan.umbrella), plan, plan.overall, None, a, saved', calls + lists);
    assert calls + [] == calls;
    GoesOnAfter(calls, lists, Epic(plan, issues, resumed, a, saved, calls));
  }

  lemma SingleGoesOn(plan: Plan, issues: seq<Issue>, a: Answers, saved: seq<seq<Issue>>, calls: seq<Call>)
    requires issues != [] && plan.specs != []
    ensures GoesOn(calls, Single(plan, issues, a, saved, calls))
  {
    FinishGoesOn(issues, issues, plan, SingleOverall(plan), ApprovedIssue(plan, issues), a, saved, calls);
  }

  /** Draft and publication are in order, and no real issue is persisted. */
  predicate MayCreate(draft: Option<Plan>, created: seq<Issue>, a: Answers) {
    && draft.Some? && |draft.value.specs| > 0 && (draft.value.publish ==> a.published)
    && forall i :: i in created ==> i.repo == "" || i.number == 0
  }

  lemma StartCreates(draft: Option<Plan>, created: seq<Issue>, a: Answers)
    ensures var publish := draft.Some? && |draft.value.specs| > 0 && draft.value.publish;
            StartOf(draft, created, a).calls
            == (if publish then [Publish] else [])
               + if !MayCreate(draft, created, a) then []
                 else [if draft.value.multiRepo then CreateEpic else CreateSingle]
  {
    var resume := Resumed(created);
    if resume != [] {
      assert resume[0] in resume;
    } else {
      assert forall i :: i in created && Real(i) ==> i in resume;
    }
  }

  lemma AttemptGoesOn(draft: Option<Plan>, created: seq<Issue>, a: Answers)
    ensures GoesOn(StartOf(draft, created, a).calls, AttemptOf(draft, created, a))
  {
    var start := StartOf(draft, created, a);
    if start.issues.Some? {
      if draft.value.multiRepo {
        EpicGoesOn(draft.value, start.issues.value, Resumed(created) != [], a, start.saved, start.calls);
      } else {
        SingleGoesOn(draft.value, start.issues.value, a, start.saved, start.calls);
      }
    }
  }

  lemma FirstCalls(calls: seq<Call>, publishes: bool, create: Option<Call>)
    requires create.Some? ==> Creates(create.value)
    requires var first := (if publishes then [Publish] else []) + if create.Some? then [create.value] else [];
             first <= calls && FollowUps(calls[|first|..])
    ensures forall j :: 0 <= j < |calls| && calls[j] == Publish ==> j == 0
    ensures publishes <==> |calls| > 0 && calls[0] == Publish
    ensures forall j :: 0 <= j < |calls| && Creates(calls[j]) ==> j == if publishes then 1 else 0
    ensures forall c :: Creates(c) ==> (c in calls <==> create == Some(c))
  {
    var first := (if publishes then [Publish] else []) + if create.Some? then [create.value] else [];
    var rest := calls[|first|..];
    forall j | |first| <= j < |calls|
      ensures !calls[j].Publish? && !Creates(calls[j])
    {
      assert calls[j] == rest[j - |first|] && calls[j] in rest;
    }
    assert calls == first + rest;
  }

  /** The creating call of an attempt, if it makes one. */
  function CreateOf(draft: Option<Plan>, created: seq<Issue>, a: Answers): Option<Call> {
    if !MayCreate(draft, created, a) then None else Some(if draft.value.multiRepo then CreateEpic else CreateSingle)
  }

  lemma AttemptBegins(draft: Option<Plan>, created: seq<Issue>, a: Answers)
    ensures var calls := AttemptOf(draft, created, a).calls;
            var publishes := draft.Some? && |draft.value.specs| > 0 && draft.value.publish;
            && (forall j :: 0 <= j < |calls| && calls[j] == Publish ==> j == 0)
            && (publishes <==> |calls| > 0 && calls[0] == Publish)
            && (forall j :: 0 <= j < |calls| && Creates(calls[j]) ==> j == if publishes then 1 else 0)
            && (forall c :: Creates(c) ==> (c in calls <==> CreateOf(draft, created, a) == Some(c)))
  {
    StartCreates(draft, created, a);
    AttemptGoesOn(draft, created, a);
    FirstCalls(AttemptOf(draft, created, a).calls, draft.Some? && |draft.value.specs| > 0 && draft.value.publish,
               CreateOf(draft, created, a));
  }

  /** An attempt calls the adapter that creates, of the two that there are the one that fits the plan, exactly when it
      gets past the draft and the publication and no real issue is persisted. */
  lemma CreatesExactly(draft: Option<Plan>, created: seq<Issue>, a: Answers)
    ensures var calls := AttemptOf(draft, created, a).calls;
            && (CreateSingle in calls <==> MayCreate(draft, created, a) && !draft.value.multiRepo)
            && (CreateEpic in calls <==> MayCreate(draft, created, a) && draft.value.multiRepo)
    ensures NoneCreates(AttemptOf(draft, created, a).calls) <==> !MayCreate(draft, created, a)
  {
    AttemptBegins(draft, created, a);
  }

  /** It publishes first, when it publishes, creates next, and does neither twice. */
  lemma CreatesOnce(draft: Option<Plan>, created: seq<Issue>, a: Answers)
    ensures var calls := AttemptOf(draft, created, a).calls;
            var publishes := draft.Some? && |draft.value.specs| > 0 && draft.value.publish;
            && (forall j :: 0 <= j < |calls| && calls[j] == Publish ==> j == 0)
            && (publishes <==> |calls| > 0 && calls[0] == Publish)
            && (forall j :: 0 <= j < |calls| && (calls[j] == CreateSingle || calls[j] == CreateEpic)
                            ==> j == if publishes then 1 else 0)
  {
    AttemptBegins(draft, created, a);
  }

  // ---- What an attempt persists --------------------------------------------------------------------------

  predicate Within(a: seq<Issue>, b: seq<Issue>) {
    forall i :: i in a ==> i in b
  }

  predicate Distinct<T(==)>(s: seq<T>) {
    forall i, j :: 0 <= i < j < |s| ==> s[i] != s[j]
  }

  lemma {:induction false} AddNewKeeps(have: seq<Issue>, found: seq<Issue>)
    ensures have <= AddNew(have, found)
    ensures Distinct(have) ==> Distinct(AddNew(have, found))
  {
    if found != [] {
      AddNewKeeps(have, found[..|found| - 1]);
    }
  }

  lemma {:induction false} RefreshedKeeps(have: seq<Issue>, repos: seq<string>, a: Answers)
    ensures have <= Refreshed(have, repos, a)
    ensures Distinct(have) ==> Distinct(Refreshed(have, repos, a))
  {
    if repos != [] {
      var front, repo := Refreshed(have, repos[..|repos| - 1], a), repos[|repos| - 1];
      RefreshedKeeps(have, repos[..|repos| - 1], a);
      if repo in a.children {
        AddNewKeeps(front, a.children[repo]);
      }
    }
  }

  lemma {:induction false} ResumedDistinct(created: seq<Issue>)
    requires Distinct(created)
    ensures Distinct(Resumed(created))
  {
    if created != [] {
      ResumedDistinct(created[..|created| - 1]);
    }
  }

  /** What is persisted after an attempt, if it persists anything. */
  function SavedBy(w: Written, created: seq<Issue>): seq<Issue> {
    if w.outcome.Opened? then w.outcome.issues else LastOf(w.saved, created)
  }

  function LastOf(saved: seq<seq<Issue>>, created: seq<Issue>): seq<Issue> {
    if saved == [] then created else saved[|saved| - 1]
  }

  /** Every set of issues an attempt persists, in the middle or at the end. */
  predicate Persists(w: Written, s: seq<Issue>) {
    s in w.saved || (w.outcome.Opened? && s == w.outcome.issues)
  }

  predicate AllDistinct(saved: seq<seq<Issue>>) {
    forall s :: s in saved ==> Distinct(s)
  }

  ghost predicate AllPersisted(w: Written, known: seq<Issue>, distinct: bool) {
    forall s | Persists(w, s) :: Within(known, s) && (distinct ==> Distinct(s))
  }

  ghost predicate AllKeep(saved: seq<seq<Issue>>, known: seq<Issue>, distinct: bool) {
    forall s :: s in saved ==> Within(known, s) && (distinct ==> Distinct(s))
  }

  lemma EpicPersists(plan: Plan, issues: seq<Issue>, resumed: bool, a: Answers, saved: seq<seq<Issue>>,
                     calls: seq<Call>, known: seq<Issue>, distinct: bool)
    requires Within(known, issues) && (distinct ==> Distinct(issues))
    requires AllKeep(saved, known, distinct)
    ensures AllPersisted(Epic(plan, issues, resumed, a, saved, calls), known, distinct)
  {
    var missing := MissingOf(Expected(plan, |plan.specs|), issues);
    RefreshedKeeps(issues, missing, a);
    assert forall i :: i in issues ==> i in Refreshed(issues, missing, a);
  }

  lemma StartKept(draft: Option<Plan>, created: seq<Issue>, a: Answers, distinct: bool)
    requires distinct ==> Distinct(created) && AllDistinct(StartOf(draft, created, a).saved)
    ensures var start := StartOf(draft, created, a);
            && AllKeep(start.saved, Resumed(created), distinct)
            && (start.issues.Some? ==> Within(Resumed(created), start.issues.value))
            && (start.issues.Some? && distinct ==> Distinct(start.issues.value))
  {
    if distinct {
      ResumedDistinct(created);
    }
  }

  lemma SinglePersists(plan: Plan, issues: seq<Issue>, a: Answers, saved: seq<seq<Issue>>, calls: seq<Call>,
                       known: seq<Issue>, distinct: bool)
    requires issues != [] && plan.specs != [] && Within(known, issues) && (distinct ==> Distinct(issues))
    requires AllKeep(saved, known, distinct)
    ensures AllPersisted(Single(plan, issues, a, saved, calls), known, distinct)
  {
  }

  /** No attempt loses a real issue or, unless what it persists first repeats one, repeats one. */
  lemma IssuesKept(draft: Option<Plan>, created: seq<Issue>, a: Answers, distinct: bool)
    requires distinct ==> Distinct(created) && AllDistinct(StartOf(draft, created, a).saved)
    ensures AllPersisted(AttemptOf(draft, created, a), Resumed(created), distinct)
  {
    var start, known := StartOf(draft, created, a), Resumed(created);
    StartKept(draft, created, a, distinct);
    if start.issues.Some? {
      if draft.value.multiRepo {
        EpicPersists(draft.value, start.issues.value, known != [], a, start.saved, start.calls, known, distinct);
      } else {
        SinglePersists(draft.value, start.issues.value, a, start.saved, start.calls, known, distinct);
      }
    }
  }

  // ---- What it means to be opened ------------------------------------------------------------------------

  lemma {:induction false} NothingMissing(repos: seq<string>, have: seq<Issue>)
    requires MissingOf(repos, have) == []
    ensures forall k :: 0 <= k < |repos| ==> Covers(have, repos[k])
  {
    if repos != [] {
      NothingMissing(repos[..|repos| - 1], have);
    }
  }

  lemma {:induction false} ExpectedHasAll(plan: Plan, k: nat)
    requires k <= |plan.specs|
    ensures forall j :: 0 <= j < k ==> RepoOf(plan.specs[j], plan) in Expected(plan, k)
  {
    if k > 0 {
      ExpectedHasAll(plan, k - 1);
    }
  }

  /** The planned issue at `k` is the first whose mapped repository is `repo`. */
  predicate IsFirstFor(plan: Plan, repo: string, k: int) {
    && 0 <= k < |plan.specs| && plan.specs[k].repo in plan.repoMap && plan.repoMap[plan.specs[k].repo] == repo
    && forall j :: 0 <= j < k && plan.specs[j].repo in plan.repoMap ==> plan.repoMap[plan.specs[j].repo] != repo
  }

  /** The tier of a repository's issues: what the first planned issue for it names, or else the requirement's. */
  ghost predicate IsTier(plan: Plan, overall: Option<string>, repo: string, size: string) {
    if exists k :: IsFirstFor(plan, repo, k) && plan.specs[k].size.Some?
    then exists k :: IsFirstFor(plan, repo, k) && plan.specs[k].size == Some(size)
    else overall == Some(size)
  }

  lemma {:induction false} SpecForIsFirst(repo: string, plan: Plan, k: nat)
    requires k <= |plan.specs|
    requires forall j :: 0 <= j < k && plan.specs[j].repo in plan.repoMap ==> plan.repoMap[plan.specs[j].repo] != repo
    ensures var spec := SpecFor(repo, plan, k);
            if spec.Some? then exists j :: IsFirstFor(plan, repo, j) && plan.specs[j] == spec.value
            else forall j :: !IsFirstFor(plan, repo, j)
    decreases |plan.specs| - k
  {
    if k < |plan.specs| {
      if plan.specs[k].repo in plan.repoMap && plan.repoMap[plan.specs[k].repo] == repo {
        assert IsFirstFor(plan, repo, k);
      } else {
        SpecForIsFirst(repo, plan, k + 1);
      }
    }
  }

  lemma FirstIsOne(plan: Plan, repo: string, j: int, k: int)
    requires IsFirstFor(plan, repo, j) && IsFirstFor(plan, repo, k)
    ensures j == k
  {
  }

  lemma SizeIsTier(i: Issue, plan: Plan, overall: Option<string>, size: string)
    ensures SizeOf(i, plan, overall) == Some(size) <==> IsTier(plan, overall, i.repo, size)
  {
    var spec := SpecFor(i.repo, plan, 0);
    SpecForIsFirst(i.repo, plan, 0);
    if spec.Some? {
      var j :| IsFirstFor(plan, i.repo, j) && plan.specs[j] == spec.value;
      forall k | IsFirstFor(plan, i.repo, k)
        ensures plan.specs[k] == spec.value
      {
        FirstIsOne(plan, i.repo, j, k);
      }
    }
  }

  /** The label of an issue was asked for and put on, if it has a size. */
  ghost predicate Labelled(i: Issue, plan: Plan, overall: Option<string>, a: Answers, calls: seq<Call>) {
    forall size :: IsTier(plan, overall, i.repo, size) ==> AddLabel(i, size) in calls && i !in a.badLabels
  }

  lemma SizeIsLabelled(i: Issue, plan: Plan, overall: Option<string>, a: Answers, calls: seq<Call>)
    ensures Labelled(i, plan, overall, a, calls)
       <==> var size := SizeOf(i, plan, overall); size.Some? ==> AddLabel(i, size.value) in calls && i !in a.badLabels
  {
    forall size
      ensures SizeOf(i, plan, overall) == Some(size) <==> IsTier(plan, overall, i.repo, size)
    {
      SizeIsTier(i, plan, overall, size);
    }
  }

  lemma {:induction false} NoFailsMeansLabelled(issues: seq<Issue>, plan: Plan, overall: Option<string>, a: Answers)
    requires LabelFails(issues, plan, overall, a) == []
    ensures forall i :: i in issues ==> Labelled(i, plan, overall, a, LabelCalls(issues, plan, overall))
  {
    if issues != [] {
      var front := issues[..|issues| - 1];
      NoFailsMeansLabelled(front, plan, overall, a);
      forall i | i in issues
        ensures Labelled(i, plan, overall, a, LabelCalls(issues, plan, overall))
      {
        assert i in front || i == issues[|issues| - 1];
        SizeIsLabelled(i, plan, overall, a, LabelCalls(front, plan, overall));
        SizeIsLabelled(i, plan, overall, a, LabelCalls(issues, plan, overall));
      }
    }
  }

  lemma {:induction false} InRepoIs(issues: seq<Issue>, repo: string)
    ensures forall i :: i in InRepo(issues, repo) <==> i in issues && i.repo == repo
  {
    if issues != [] {
      InRepoIs(issues[..|issues| - 1], repo);
    }
  }

  /** Everything a session has to have when its work counts as opened. */
  ghost predicate Complete(plan: Plan, issues: seq<Issue>, a: Answers, calls: seq<Call>) {
    && a.approved && (plan.publish ==> a.published)
    && if plan.multiRepo then
         && (forall j :: 0 <= j < |plan.specs| ==> Covers(issues, RepoOf(plan.specs[j], plan)))
         && (forall i :: i in issues && i.repo == plan.umbrella ==> Labelled(i, plan, plan.overall, a, calls))
         && Approve(None) in calls
       else
         && plan.specs != [] && issues != []
         && (forall i :: i in issues ==> Labelled(i, plan, SingleOverall(plan), a, calls))
         && Approve(Some(Issue(plan.specs[0].repo, issues[0].number))) in calls
  }

  lemma FinishComplete(issues: seq<Issue>, labelled: seq<Issue>, plan: Plan, overall: Option<string>,
                       approve: Option<Issue>, a: Answers, saved: seq<seq<Issue>>, calls: seq<Call>)
    requires Finish(issues, labelled, plan, overall, approve, a, saved, calls).outcome.Opened?
    ensures var w := Finish(issues, labelled, plan, overall, approve, a, saved, calls);
            && w.outcome.issues == issues && a.approved && Approve(approve) in w.calls
            && forall i :: i in labelled ==> Labelled(i, plan, overall, a, w.calls)
  {
    NoFailsMeansLabelled(labelled, plan, overall, a);
    var w := Finish(issues, labelled, plan, overall, approve, a, saved, calls);
    assert w.calls[|w.calls| - 1] == Approve(approve);
    assert forall c :: c in LabelCalls(labelled, plan, overall) ==> c in w.calls;
  }

  lemma EpicComplete(plan: Plan, issues: seq<Issue>, resumed: bool, a: Answers, saved: seq<seq<Issue>>,
                     calls: seq<Call>)
    requires plan.multiRepo && (plan.publish ==> a.published)
    requires Epic(plan, issues, resumed, a, saved, calls).outcome.Opened?
    ensures var w := Epic(plan, issues, resumed, a, saved, calls); Complete(plan, w.outcome.issues, a, w.calls)
  {
    var repos := Expected(plan, |plan.specs|);
    var missing := MissingOf(repos, issues);
    var again := if resumed then Refreshed(issues, missing, a) else issues;
    var saved' := if |again| != |issues| then saved + [again] else saved;
    var calls' := if resumed then calls + ListCalls(missing) else calls;
    NothingMissing(repos, again);
    ExpectedHasAll(plan, |plan.specs|);
    InRepoIs(again, plan.umbrella);
    FinishComplete(again, InRepo(again, plan.umbrella), plan, plan.overall, None, a, saved', calls');
  }

  lemma SingleComplete(plan: Plan, issues: seq<Issue>, a: Answers, saved: seq<seq<Issue>>, calls: seq<Call>)
    requires !plan.multiRepo && (plan.publish ==> a.published) && issues != [] && plan.specs != []
    requires Single(plan, issues, a, saved, calls).outcome.Opened?
    ensures var w := Single(plan, issues, a, saved, calls); Complete(plan, w.outcome.issues, a, w.calls)
  {
    FinishComplete(issues, issues, plan, SingleOverall(plan), ApprovedIssue(plan, issues), a, saved, calls);
  }

  /** An attempt succeeds only with an issue for every expected repository, every label on and the approval given. */
  lemma OpenedIsComplete(draft: Option<Plan>, created: seq<Issue>, a: Answers)
    requires AttemptOf(draft, created, a).outcome.Opened?
    ensures var w := AttemptOf(draft, created, a); draft.Some? && Complete(draft.value, w.outcome.issues, a, w.calls)
  {
    var start := StartOf(draft, created, a);
    if draft.value.multiRepo {
      EpicComplete(draft.value, start.issues.value, Resumed(created) != [], a, start.saved, start.calls);
    } else {
      SingleComplete(draft.value, start.issues.value, a, start.saved, start.calls);
    }
  }

  // ---- Runs of a session ---------------------------------------------------------------------------------

  datatype State = AwaitingGo | GoDenied | Writing | WriteFailed | Done | Elsewhere

  datatype Session = Session(state: State, created: seq<Issue>)

  /** One `go`: `allowed` stands for the permission, the acceptance lint and the assignment. */
  datatype Attempt = Attempt(allowed: bool, draft: Option<Plan>, answers: Answers)

  /** `Dies` is a `go` whose process dies after persisting `saves` times; `Moves` is any other action, none of which
      touches the issues or leads into or out of writing. */
  datatype Step = Go(attempt: Attempt) | Dies(attempt: Attempt, saves: nat) | Moves(to: State)

  predicate MayGo(s: Session, at: Attempt) {
    at.allowed && (s.state.AwaitingGo? || s.state.GoDenied? || s.state.WriteFailed?)
  }

  function WrittenBy(s: Session, at: Attempt): Written {
    AttemptOf(at.draft, s.created, at.answers)
  }

  function Apply(s: Session, step: Step): Session {
    match step
    case Go(at) =>
      if !MayGo(s, at) then s
      else
        var w := WrittenBy(s, at);
        Session(if w.outcome.Opened? then Done else WriteFailed, SavedBy(w, s.created))
    case Dies(at, saves) =>
      if !MayGo(s, at) then s
      else
        var saved := WrittenBy(s, at).saved;
        Session(Writing,
                if saves == 0 || saved == [] then s.created
                else saved[if saves < |saved| then saves - 1 else |saved| - 1])
    case Moves(to) => if to.Done? || to.Writing? then s else s.(state := to)
  }

  /** The calls of a step; of an attempt that dies, all that it could have made. */
  function CallsOf(s: Session, step: Step): seq<Call> {
    if step.Moves? || !MayGo(s, step.attempt) then [] else WrittenBy(s, step.attempt).calls
  }

  function Run(s: Session, steps: seq<Step>): Session {
    if steps == [] then s else Apply(Run(s, steps[..|steps| - 1]), steps[|steps| - 1])
  }

  /** A step persists `t` on its way or at its end. */
  predicate PersistsIn(s: Session, step: Step, t: seq<Issue>) {
    && !step.Moves? && MayGo(s, step.attempt)
    && var w := WrittenBy(s, step.attempt);
       if step.Go? then Persists(w, t)
       else t in w.saved[..if step.saves < |w.saved| then step.saves else |w.saved|]
  }

  /** The step creates issues and lives to persist what it created. */
  predicate PersistsNew(s: Session, step: Step) {
    && !step.Moves? && MayGo(s, step.attempt) && (step.Go? || step.saves > 0)
    && StartOf(step.attempt.draft, s.created, step.attempt.answers).saved != []
  }

  /** The answer by which a step creates names no issue twice. */
  predicate NamesOnce(s: Session, step: Step) {
    PersistsNew(s, step) ==>
      var created := step.attempt.answers.created;
      created.Some? && Distinct(created.value)
  }

  lemma StepKeeps(s: Session, step: Step, distinct: bool)
    requires distinct ==> Distinct(s.created) && NamesOnce(s, step)
    ensures Within(Resumed(s.created), Apply(s, step).created)
    ensures distinct ==> Distinct(Apply(s, step).created) && forall t | PersistsIn(s, step, t) :: Distinct(t)
  {
    if !step.Moves? && MayGo(s, step.attempt) {
      var at, w := step.attempt, WrittenBy(s, step.attempt);
      IssuesKept(at.draft, s.created, at.answers, distinct && (step.Go? || step.saves > 0));
      assert Apply(s, step).created == s.created || Persists(w, Apply(s, step).created);
      assert forall t | PersistsIn(s, step, t) :: Persists(w, t);
    }
  }

  /** What an attempt creates is the first set it persists. */
  lemma CreatedComesFirst(draft: Option<Plan>, created: seq<Issue>, a: Answers)
    ensures StartOf(draft, created, a).saved <= AttemptOf(draft, created, a).saved
  {
  }

  lemma NewIsPersisted(s: Session, step: Step)
    requires PersistsNew(s, step)
    ensures step.attempt.answers.created.Some? && PersistsIn(s, step, step.attempt.answers.created.value)
  {
    var at, w := step.attempt, WrittenBy(s, step.attempt);
    CreatedComesFirst(at.draft, s.created, at.answers);
    assert w.saved[0] == at.answers.created.value;
    if step.Dies? {
      var n := if step.saves < |w.saved| then step.saves else |w.saved|;
      assert w.saved[..n][0] == w.saved[0];
    }
  }

  /** A real issue that is persisted once stays persisted, through failures, deaths and retries. */
  lemma {:induction false} RealIssuesStay(s: Session, steps: seq<Step>, k: nat, i: Issue)
    requires k <= |steps| && i in Run(s, steps[..k]).created && Real(i)
    ensures i in Run(s, steps).created
    decreases |steps|
  {
    if k == |steps| {
      assert steps[..k] == steps;
    } else {
      var front := steps[..|steps| - 1];
      assert front[..k] == steps[..k];
      RealIssuesStay(s, front, k, i);
      assert i in Resumed(Run(s, front).created);
      StepKeeps(Run(s, front), steps[|steps| - 1], false);
    }
  }

  /** Once a real issue is persisted, no later attempt creates anything, however the adapters answer. */
  lemma NeverCreatesAgain(s: Session, steps: seq<Step>, k: nat, i: Issue, next: Step)
    requires k <= |steps| && i in Run(s, steps[..k]).created && Real(i)
    ensures NoneCreates(CallsOf(Run(s, steps), next))
  {
    RealIssuesStay(s, steps, k, i);
    if !next.Moves? {
      CreatesExactly(next.attempt.draft, Run(s, steps).created, next.attempt.answers);
    }
  }

  /** No set of issues that the run persists, in any of its attempts, holds a repository and number twice. */
  ghost predicate NeverRepeats(s: Session, steps: seq<Step>) {
    forall k, t | 0 <= k < |steps| && PersistsIn(Run(s, steps[..k]), steps[k], t) :: Distinct(t)
  }

  /** Every answer by which the run creates, and which it lives to persist, names each issue once. */
  predicate AlwaysNamesOnce(s: Session, steps: seq<Step>) {
    forall k | 0 <= k < |steps| :: NamesOnce(Run(s, steps[..k]), steps[k])
  }

  lemma {:induction false} NamedOnceStays(s: Session, steps: seq<Step>)
    requires Distinct(s.created) && AlwaysNamesOnce(s, steps)
    ensures Distinct(Run(s, steps).created)
    decreases |steps|
  {
    if steps != [] {
      var front := steps[..|steps| - 1];
      forall k | 0 <= k < |front|
        ensures NamesOnce(Run(s, front[..k]), front[k])
      {
        assert front[..k] == steps[..k];
      }
      NamedOnceStays(s, front);
      StepKeeps(Run(s, front), steps[|steps| - 1], true);
    }
  }

  /** Nothing persisted ever repeats an issue, exactly when no creating answer does: retries, rediscovery and deaths add
      no repetition of their own. */
  lemma NoneRepeated(s: Session, steps: seq<Step>)
    requires Distinct(s.created)
    ensures NeverRepeats(s, steps) <==> AlwaysNamesOnce(s, steps)
    ensures NeverRepeats(s, steps) ==> Distinct(Run(s, steps).created)
  {
    if AlwaysNamesOnce(s, steps) {
      forall k, t | 0 <= k < |steps| && PersistsIn(Run(s, steps[..k]), steps[k], t)
        ensures Distinct(t)
      {
        NamedOnceUntil(s, steps, k);
        StepKeeps(Run(s, steps[..k]), steps[k], true);
      }
      NamedOnceStays(s, steps);
    }
    if NeverRepeats(s, steps) {
      forall k | 0 <= k < |steps|
        ensures NamesOnce(Run(s, steps[..k]), steps[k])
      {
        if PersistsNew(Run(s, steps[..k]), steps[k]) {
          NewIsPersisted(Run(s, steps[..k]), steps[k]);
        }
      }
    }
  }

  lemma NamedOnceUntil(s: Session, steps: seq<Step>, k: nat)
    requires Distinct(s.created) && AlwaysNamesOnce(s, steps) && k <= |steps|
    ensures Distinct(Run(s, steps[..k]).created)
  {
    forall j | 0 <= j < k
      ensures NamesOnce(Run(s, steps[..k][..j]), steps[..k][j])
    {
      assert steps[..k][..j] == steps[..j];
    }
    NamedOnceStays(s, steps[..k]);
  }

  /** The attempt that opened a session's work. */
  ghost predicate OpenedBy(s: Session, steps: seq<Step>, k: nat)
    requires k < |steps|
  {
    var before := Run(s, steps[..k]);
    && steps[k].Go? && MayGo(before, steps[k].attempt) && steps[k].attempt.draft.Some?
    && var w := WrittenBy(before, steps[k].attempt);
       && Complete(steps[k].attempt.draft.value, Run(s, steps).created, steps[k].attempt.answers, w.calls)
  }

  /** A session that is done was opened by an attempt that left nothing out, and its issues are still that one's. */
  lemma {:induction false} NoFalseDone(s: Session, steps: seq<Step>) returns (k: nat)
    requires !s.state.Done? && Run(s, steps).state.Done?
    ensures k < |steps| && OpenedBy(s, steps, k)
    decreases |steps|
  {
    var last := |steps| - 1;
    var front := steps[..last];
    var before := Run(s, front);
    if before.state.Done? {
      k := NoFalseDone(s, front);
      assert front[..k] == steps[..k];
    } else {
      k := last;
      OpenedIsComplete(steps[k].attempt.draft, before.created, steps[k].attempt.answers);
    }
  }

  /** Where the guarantee ends: an adapter that reports success without a real issue leaves nothing to resume from,
      and the Epic is created again. */
  lemma EmptyEpicIsCreatedAgain(plan: Plan, a: Answers)
    requires plan.multiRepo && plan.specs != [] && !plan.publish && a.created == Some([])
    ensures var s := Session(AwaitingGo, []);
            var go := Go(Attempt(true, Some(plan), a));
            CreateEpic in CallsOf(s, go) && CreateEpic in CallsOf(Run(s, [go]), go)
  {
    EmptyEpicIsFailure(plan, a);
  }

  /** Nothing is left to resume from: the children are still missing and the set persisted is empty. */
  lemma EmptyEpicIsFailure(plan: Plan, a: Answers)
    requires plan.multiRepo && plan.specs != [] && !plan.publish && a.created == Some([])
    ensures AttemptOf(Some(plan), [], a) == Written(Failed, [[]], [CreateEpic])
  {
    ExpectedHasAll(plan, |plan.specs|);
    var repos := Expected(plan, |plan.specs|);
    assert RepoOf(plan.specs[0], plan) in repos;
    if MissingOf(repos, []) == [] {
      NothingMissing(repos, []);
      assert false;
    }
  }

  /** Two attempts that read the session before either has persisted an issue both create. */
  lemma OverlapCreatesTwice(plan: Plan, created: seq<Issue>, a: Answers, b: Answers)
    requires plan.specs != [] && (plan.publish ==> a.published && b.published)
    requires forall i :: i in created ==> i.repo == "" || i.number == 0
    ensures var create := if plan.multiRepo then CreateEpic else CreateSingle;
            create in AttemptOf(Some(plan), created, a).calls && create in AttemptOf(Some(plan), created, b).calls
  {
    CreatesExactly(Some(plan), created, a);
    CreatesExactly(Some(plan), created, b);
  }

  // ---- The workflow on its session -----------------------------------------------------------------------

  class OpenWork {
    var state: State
    var created: seq<Issue>
    var calls: seq<Call>

    constructor (state: State)
      ensures Snapshot() == Session(state, []) && calls == []
    {
      this.state, created, calls := state, [], [];
    }

    ghost function Snapshot(): Session
      reads this
    {
      Session(state, created)
    }

    method ApplySizeLabels(issues: seq<Issue>, plan: Plan, overall: Option<string>, a: Answers)
      returns (fails: seq<Issue>)
      modifies `calls
      ensures fails == LabelFails(issues, plan, overall, a)
      ensures calls == old(calls) + LabelCalls(issues, plan, overall)
    {
      fails := [];
      var k := 0;
      while k < |issues|
        invariant 0 <= k <= |issues|
        invariant fails == LabelFails(issues[..k], plan, overall, a)
        invariant calls == old(calls) + LabelCalls(issues[..k], plan, overall)
      {
        assert issues[..k + 1][..k] == issues[..k];
        var size := SizeOf(issues[k], plan, overall);
        if size.Some? {
          calls := calls + [AddLabel(issues[k], size.value)];
          if issues[k] in a.badLabels {
            fails := fails + [issues[k]];
          }
        }
        k := k + 1;
      }
      assert issues[..k] == issues;
    }

    /** Ask GitHub for the children of every repository that misses one. */
    method Rediscover(issues: seq<Issue>, missing: seq<string>, a: Answers) returns (refreshed: seq<Issue>)
      modifies `calls
      ensures refreshed == Refreshed(issues, missing, a) && calls == old(calls) + ListCalls(missing)
    {
      refreshed := issues;
      var k := 0;
      while k < |missing|
        invariant 0 <= k <= |missing|
        invariant refreshed == Refreshed(issues, missing[..k], a)
        invariant calls == old(calls) + ListCalls(missing[..k])
      {
        NextRepo(issues, missing, a, k);
        calls := calls + [ListChildren(missing[k])];
        assert calls == old(calls) + (ListCalls(missing[..k]) + [ListChildren(missing[k])]);
        if missing[k] in a.children {
          var found := a.children[missing[k]];
          ghost var before := refreshed;
          var j := 0;
          while j < |found|
            invariant 0 <= j <= |found| && refreshed == AddNew(before, found[..j])
          {
            assert found[..j + 1][..j] == found[..j];
            if found[j] !in refreshed {
              refreshed := refreshed + [found[j]];
            }
            j := j + 1;
          }
          assert found[..j] == found;
        }
        k := k + 1;
      }
      assert missing[..k] == missing;
    }

    method LabelAndApprove(issues: seq<Issue>, labelled: seq<Issue>, plan: Plan, overall: Option<string>,
                           approve: Option<Issue>, a: Answers, ghost saved: seq<seq<Issue>>) returns (r: Outcome)
      modifies `calls
      ensures var w := Finish(issues, labelled, plan, overall, approve, a, saved, old(calls));
              r == w.outcome && calls == w.calls
    {
      var fails := ApplySizeLabels(labelled, plan, overall, a);
      if fails != [] {
        return Failed;
      }
      calls := calls + [Approve(approve)];
      return if a.approved then Opened(issues) else Failed;
    }

    method OpenEpic(plan: Plan, resume: seq<Issue>, fromResume: bool, a: Answers, ghost saved: seq<seq<Issue>>,
                    ghost base: seq<Issue>) returns (r: Outcome)
      requires created == LastOf(saved, base)
      modifies `calls, `created
      ensures var w := Epic(plan, resume, fromResume, a, saved, old(calls));
              r == w.outcome && calls == w.calls && created == LastOf(w.saved, base)
    {
      var expected := Expected(plan, |plan.specs|);
      var issues := FillGaps(expected, resume, fromResume, a, saved, base);
      if MissingOf(expected, issues) != [] {
        return Failed;
      }
      r := LabelAndApprove(issues, InRepo(issues, plan.umbrella), plan, plan.overall, None, a,
                           if |issues| != |resume| then saved + [issues] else saved);
    }

    /** On a retry, what someone added by hand meanwhile is found again and persisted. */
    method FillGaps(expected: seq<string>, issues: seq<Issue>, fromResume: bool, a: Answers,
                    ghost saved: seq<seq<Issue>>, ghost base: seq<Issue>)
      returns (again: seq<Issue>)
      requires created == LastOf(saved, base)
      modifies `calls, `created
      ensures again == if fromResume then Refreshed(issues, MissingOf(expected, issues), a) else issues
      ensures calls == if fromResume then old(calls) + ListCalls(MissingOf(expected, issues)) else old(calls)
      ensures created == LastOf(if |again| != |issues| then saved + [again] else saved, base)
    {
      again := issues;
      var missing := MissingOf(expected, issues);
      if missing != [] && fromResume {
        again := Rediscover(issues, missing, a);
        if |again| != |issues| {
          created := again;
        }
      }
    }

    method Begin(draft: Option<Plan>, a: Answers) returns (issues: Option<seq<Issue>>)
      modifies `calls, `created
      ensures var start := StartOf(draft, old(created), a);
              issues == start.issues && calls == start.calls && created == LastOf(start.saved, old(created))
    {
      calls := [];
      if draft.None? || draft.value.specs == [] {
        return None;
      }
      var plan := draft.value;
      if plan.publish {
        calls := [Publish];
        if !a.published {
          return None;
        }
      }
      var resume := Resumed(created);
      if resume != [] {
        return Some(resume);
      }
      calls := calls + [if plan.multiRepo then CreateEpic else CreateSingle];
      if a.created.None? || (!plan.multiRepo && a.created.value == []) {
        return None;
      }
      created := a.created.value;
      return a.created;
    }

    /** `calls` holds the calls of this attempt. */
    method DoWrites(draft: Option<Plan>, a: Answers) returns (r: Outcome)
      modifies `calls, `created
      ensures var w := AttemptOf(draft, old(created), a);
              r == w.outcome && calls == w.calls && created == LastOf(w.saved, old(created))
    {
      ghost var start := StartOf(draft, created, a);
      var fromResume := Resumed(created) != [];
      var begun := Begin(draft, a);
      if begun.None? {
        return Failed;
      }
      var plan, issues := draft.value, begun.value;
      if plan.multiRepo {
        r := OpenEpic(plan, issues, fromResume, a, start.saved, old(created));
      } else {
        r := LabelAndApprove(issues, issues, plan, SingleOverall(plan), ApprovedIssue(plan, issues), a, start.saved);
      }
    }

    method Go(at: Attempt) returns (done: bool)
      modifies this
      ensures Snapshot() == Apply(old(Snapshot()), Step.Go(at))
      ensures calls == CallsOf(old(Snapshot()), Step.Go(at))
      ensures done <==> MayGo(old(Snapshot()), at) && state.Done?
    {
      calls := [];
      if !(state.AwaitingGo? || state.GoDenied? || state.WriteFailed?) || !at.allowed {
        return false;
      }
      if state.GoDenied? {
        state := AwaitingGo;
      }
      state := Writing;
      var r := DoWrites(at.draft, at.answers);
      if r.Opened? {
        created := r.issues;
        state := Done;
      } else {
        state := WriteFailed;
      }
      return r.Opened?;
    }
  }
}
