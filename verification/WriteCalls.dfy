/** Each call of an attempt, and its outcome, by what the plan, the persisted issues and the answers are. */
module WriteCalls {
  import opened Options
  import opened Writes

  // ---- What an attempt goes by, in terms of its inputs -------------------------------------------------------

  /** An earlier attempt left an issue. */
  ghost predicate Resumes(created: seq<Issue>) {
    exists i :: i in created && i.repo != "" && i.number != 0
  }

  /** The attempt has issues to go on with. */
  ghost predicate GoesOn(draft: Option<Plan>, created: seq<Issue>, a: Answers) {
    && draft.Some? && |draft.value.specs| > 0 && (draft.value.publish ==> a.published)
    && (Resumes(created) || (a.created.Some? && (draft.value.multiRepo || |a.created.value| > 0)))
  }

  /** It goes on with this issue, an earlier one or a new one. */
  ghost predicate Has(created: seq<Issue>, a: Answers, i: Issue) {
    if Resumes(created) then i in created && i.repo != "" && i.number != 0
    else a.created.Some? && i in a.created.value
  }

  /** The plan names the repository. */
  ghost predicate Expects(plan: Plan, repo: string) {
    exists k :: 0 <= k < |plan.specs| && Names(plan, k, repo)
  }

  predicate Names(plan: Plan, k: nat, repo: string)
    requires k < |plan.specs|
  {
    repo == if plan.specs[k].repo in plan.repoMap then plan.repoMap[plan.specs[k].repo] else plan.specs[k].repo
  }

  ghost predicate Lacks(plan: Plan, created: seq<Issue>, a: Answers, repo: string) {
    Expects(plan, repo) && forall i :: Has(created, a, i) ==> i.repo != repo
  }

  /** An issue that GitHub lists, on a retry, for a repository that lacks one. */
  ghost predicate Finds(plan: Plan, created: seq<Issue>, a: Answers, i: Issue) {
    && plan.multiRepo && Resumes(created)
    && exists repo :: Lacks(plan, created, a, repo) && repo in a.children && i in a.children[repo]
  }

  ghost predicate HasNow(plan: Plan, created: seq<Issue>, a: Answers, i: Issue) {
    Has(created, a, i) || Finds(plan, created, a, i)
  }

  /** Every repository the plan names has its issue. */
  ghost predicate Covered(plan: Plan, created: seq<Issue>, a: Answers) {
    forall repo :: Expects(plan, repo) ==> exists i :: HasNow(plan, created, a, i) && i.repo == repo
  }

  /** The requirement's own tier; a single repository's issue may name one. */
  function Overall(plan: Plan): Option<string>
    requires |plan.specs| > 0
  {
    if !plan.multiRepo && plan.specs[0].size.Some? then plan.specs[0].size else plan.overall
  }

  /** The issue is to carry this label: of an Epic's, only those in the umbrella repository. */
  ghost predicate Wants(plan: Plan, created: seq<Issue>, a: Answers, i: Issue, size: string)
    requires |plan.specs| > 0
  {
    && HasNow(plan, created, a, i) && (plan.multiRepo ==> i.repo == plan.umbrella)
    && IsTier(plan, Overall(plan), i.repo, size)
  }

  /** The attempt gets as far as the labels. */
  ghost predicate Labels(draft: Option<Plan>, created: seq<Issue>, a: Answers) {
    GoesOn(draft, created, a) && (draft.value.multiRepo ==> Covered(draft.value, created, a))
  }

  /** Every label it wants can be put on. */
  ghost predicate AllLabelled(plan: Plan, created: seq<Issue>, a: Answers)
    requires |plan.specs| > 0
  {
    forall i, size :: Wants(plan, created, a, i, size) ==> i !in a.badLabels
  }

  predicate FirstReal(created: seq<Issue>, k: int) {
    && 0 <= k < |created| && created[k].repo != "" && created[k].number != 0
    && forall j :: 0 <= j < k ==> created[j].repo == "" || created[j].number == 0
  }

  /** The first issue that an earlier attempt left, or else the first new one. */
  ghost predicate IsFirst(created: seq<Issue>, a: Answers, i: Issue) {
    if Resumes(created) then exists k :: FirstReal(created, k) && created[k] == i
    else a.created.Some? && |a.created.value| > 0 && a.created.value[0] == i
  }

  // ---- The parts of an attempt as sets -----------------------------------------------------------------------

  lemma {:induction false} ExpectedIs(plan: Plan, k: nat, repo: string)
    requires k <= |plan.specs|
    ensures repo in Expected(plan, k) <==> exists j :: 0 <= j < k && Names(plan, j, repo)
  {
    if k > 0 {
      ExpectedIs(plan, k - 1, repo);
      assert Names(plan, k - 1, RepoOf(plan.specs[k - 1], plan));
    }
  }

  lemma {:induction false} MissingIs(repos: seq<string>, have: seq<Issue>, repo: string)
    ensures repo in MissingOf(repos, have) <==> repo in repos && forall i :: i in have ==> i.repo != repo
  {
    if repos != [] {
      var front, last := repos[..|repos| - 1], repos[|repos| - 1];
      MissingIs(front, have, repo);
      assert repos == front + [last];
      assert Covers(have, last) <==> exists i :: i in have && i.repo == last;
    }
  }

  lemma {:induction false} AddNewIs(have: seq<Issue>, found: seq<Issue>, i: Issue)
    ensures i in AddNew(have, found) <==> i in have || i in found
  {
    if found != [] {
      AddNewIs(have, found[..|found| - 1], i);
      assert found == found[..|found| - 1] + [found[|found| - 1]];
    }
  }

  lemma {:induction false} RefreshedIs(have: seq<Issue>, repos: seq<string>, a: Answers, i: Issue)
    ensures i in Refreshed(have, repos, a)
       <==> i in have || exists repo :: repo in repos && repo in a.children && i in a.children[repo]
  {
    if repos != [] {
      var front, last := repos[..|repos| - 1], repos[|repos| - 1];
      RefreshedIs(have, front, a, i);
      assert repos == front + [last];
      if last in a.children {
        AddNewIs(Refreshed(have, front, a), a.children[last], i);
      }
    }
  }

  lemma {:induction false} ListCallsIs(repos: seq<string>, c: Call)
    ensures c in ListCalls(repos) <==> c.ListChildren? && c.repo in repos
  {
    if repos != [] {
      ListCallsIs(repos[..|repos| - 1], c);
      assert repos == repos[..|repos| - 1] + [repos[|repos| - 1]];
    }
  }

  lemma {:induction false} LabelCallsIs(issues: seq<Issue>, plan: Plan, overall: Option<string>, c: Call)
    ensures c in LabelCalls(issues, plan, overall)
       <==> c.AddLabel? && c.issue in issues && IsTier(plan, overall, c.issue.repo, c.size)
  {
    if issues != [] {
      var front, last := issues[..|issues| - 1], issues[|issues| - 1];
      LabelCallsIs(front, plan, overall, c);
      assert issues == front + [last];
      if c.AddLabel? {
        SizeIsTier(last, plan, overall, c.size);
      }
    }
  }

  lemma {:induction false} LabelFailsIs(issues: seq<Issue>, plan: Plan, overall: Option<string>, a: Answers)
    ensures LabelFails(issues, plan, overall, a) != []
       <==> exists i, size :: i in issues && i in a.badLabels && IsTier(plan, overall, i.repo, size)
  {
    if issues != [] {
      var front, last := issues[..|issues| - 1], issues[|issues| - 1];
      LabelFailsIs(front, plan, overall, a);
      assert issues == front + [last];
      forall size
        ensures SizeOf(last, plan, overall) == Some(size) <==> IsTier(plan, overall, last.repo, size)
      {
        SizeIsTier(last, plan, overall, size);
      }
      assert SizeOf(last, plan, overall).Some? <==> exists size :: IsTier(plan, overall, last.repo, size);
    }
  }

  lemma {:induction false} ResumedFirst(created: seq<Issue>) returns (k: nat)
    requires Resumed(created) != []
    ensures FirstReal(created, k) && created[k] == Resumed(created)[0]
    decreases |created|
  {
    var front := created[..|created| - 1];
    if Resumed(front) == [] {
      k := |created| - 1;
      NoneReal(front);
      assert forall j :: 0 <= j < k ==> created[j] == front[j];
    } else {
      k := ResumedFirst(front);
      assert forall j :: 0 <= j <= k ==> created[j] == front[j];
    }
  }

  lemma NoneReal(created: seq<Issue>)
    requires Resumed(created) == []
    ensures forall j :: 0 <= j < |created| ==> created[j].repo == "" || created[j].number == 0
  {
    forall j | 0 <= j < |created|
      ensures created[j].repo == "" || created[j].number == 0
    {
      assert created[j] in created && created[j] !in Resumed(created);
    }
  }

  lemma ResumesIs(created: seq<Issue>)
    ensures Resumes(created) <==> Resumed(created) != []
  {
    if Resumed(created) != [] {
      assert Resumed(created)[0] in Resumed(created);
    }
  }

  lemma StartIs(draft: Option<Plan>, created: seq<Issue>, a: Answers)
    ensures var start := StartOf(draft, created, a);
            && (start.issues.Some? <==> GoesOn(draft, created, a))
            && (start.issues.Some? ==> forall i :: i in start.issues.value <==> Has(created, a, i))
            && forall c :: c in start.calls ==> c.Publish? || Creates(c)
  {
    ResumesIs(created);
  }

  // ---- The end of an attempt ---------------------------------------------------------------------------------

  /** Some label that is called for cannot be put on. */
  ghost predicate SomeFails(labelled: seq<Issue>, plan: Plan, overall: Option<string>, a: Answers) {
    exists i, size :: i in labelled && i in a.badLabels && IsTier(plan, overall, i.repo, size)
  }

  lemma FinishIs(issues: seq<Issue>, labelled: seq<Issue>, plan: Plan, overall: Option<string>, approve: Option<Issue>,
                 a: Answers, saved: seq<seq<Issue>>, calls: seq<Call>, c: Call)
    ensures var w := Finish(issues, labelled, plan, overall, approve, a, saved, calls);
            var failed := SomeFails(labelled, plan, overall, a);
            && (c in w.calls <==>
                  || c in calls || (c == Approve(approve) && !failed)
                  || (c.AddLabel? && c.issue in labelled && IsTier(plan, overall, c.issue.repo, c.size)))
            && (w.outcome.Opened? <==> !failed && a.approved)
            && (w.outcome.Opened? ==> w.outcome.issues == issues)
  {
    LabelCallsIs(labelled, plan, overall, c);
    LabelFailsIs(labelled, plan, overall, a);
  }

  /** The issues of a requirement that spans repositories, once more looked for on a retry. */
  function Again(plan: Plan, issues: seq<Issue>, resumed: bool, a: Answers): seq<Issue> {
    if resumed then Refreshed(issues, MissingOf(Expected(plan, |plan.specs|), issues), a) else issues
  }

  lemma LacksIs(plan: Plan, created: seq<Issue>, a: Answers, issues: seq<Issue>, repo: string)
    requires forall i :: i in issues <==> Has(created, a, i)
    ensures repo in MissingOf(Expected(plan, |plan.specs|), issues) <==> Lacks(plan, created, a, repo)
  {
    ExpectedIs(plan, |plan.specs|, repo);
    MissingIs(Expected(plan, |plan.specs|), issues, repo);
  }

  lemma AgainIs(plan: Plan, created: seq<Issue>, a: Answers, issues: seq<Issue>, i: Issue)
    requires plan.multiRepo && forall i :: i in issues <==> Has(created, a, i)
    ensures i in Again(plan, issues, Resumes(created), a) <==> HasNow(plan, created, a, i)
  {
    var missing := MissingOf(Expected(plan, |plan.specs|), issues);
    RefreshedIs(issues, missing, a, i);
    forall repo
      ensures repo in missing <==> Lacks(plan, created, a, repo)
    {
      LacksIs(plan, created, a, issues, repo);
    }
  }

  lemma CoveredIs(plan: Plan, created: seq<Issue>, a: Answers, issues: seq<Issue>)
    requires forall i :: i in issues <==> HasNow(plan, created, a, i)
    ensures MissingOf(Expected(plan, |plan.specs|), issues) == [] <==> Covered(plan, created, a)
  {
    var repos := Expected(plan, |plan.specs|);
    var missing := MissingOf(repos, issues);
    forall repo
      ensures repo in missing
         <==> Expects(plan, repo) && forall i :: HasNow(plan, created, a, i) ==> i.repo != repo
    {
      ExpectedIs(plan, |plan.specs|, repo);
      MissingIs(repos, issues, repo);
    }
    if missing != [] {
      assert missing[0] in missing;
    }
  }

  lemma WantsIs(plan: Plan, created: seq<Issue>, a: Answers, labelled: seq<Issue>)
    requires |plan.specs| > 0
    requires forall i :: i in labelled <==> HasNow(plan, created, a, i) && (plan.multiRepo ==> i.repo == plan.umbrella)
    ensures forall i, size ::
      Wants(plan, created, a, i, size) <==> i in labelled && IsTier(plan, Overall(plan), i.repo, size)
    ensures AllLabelled(plan, created, a) <==> !SomeFails(labelled, plan, Overall(plan), a)
  {
  }

  lemma EpicIs(plan: Plan, created: seq<Issue>, a: Answers, issues: seq<Issue>, saved: seq<seq<Issue>>,
               calls: seq<Call>, c: Call)
    requires plan.multiRepo && |plan.specs| > 0 && forall i :: i in issues <==> Has(created, a, i)
    ensures var w := Epic(plan, issues, Resumes(created), a, saved, calls);
            && (c in w.calls <==>
                  || c in calls || (Resumes(created) && c.ListChildren? && Lacks(plan, created, a, c.repo))
                  || (Covered(plan, created, a) && c.AddLabel? && Wants(plan, created, a, c.issue, c.size))
                  || (Covered(plan, created, a) && AllLabelled(plan, created, a) && c == Approve(None)))
            && (w.outcome.Opened? <==> Covered(plan, created, a) && AllLabelled(plan, created, a) && a.approved)
            && (w.outcome.Opened? ==> forall i :: i in w.outcome.issues <==> HasNow(plan, created, a, i))
  {
    var missing := MissingOf(Expected(plan, |plan.specs|), issues);
    var again := Again(plan, issues, Resumes(created), a);
    var saved' := if |again| != |issues| then saved + [again] else saved;
    var calls' := if Resumes(created) then calls + ListCalls(missing) else calls;
    var labelled := InRepo(again, plan.umbrella);
    forall i
      ensures i in again <==> HasNow(plan, created, a, i)
    {
      AgainIs(plan, created, a, issues, i);
    }
    CoveredIs(plan, created, a, again);
    ListCallsIs(missing, c);
    if c.ListChildren? {
      LacksIs(plan, created, a, issues, c.repo);
    }
    InRepoIs(again, plan.umbrella);
    WantsIs(plan, created, a, labelled);
    assert Overall(plan) == plan.overall;
    FinishIs(again, labelled, plan, plan.overall, None, a, saved', calls', c);
  }

  lemma SingleIs(plan: Plan, created: seq<Issue>, a: Answers, issues: seq<Issue>, saved: seq<seq<Issue>>,
                 calls: seq<Call>, c: Call)
    requires !plan.multiRepo && |plan.specs| > 0 && issues != [] && forall i :: i in issues <==> Has(created, a, i)
    ensures var w := Single(plan, issues, a, saved, calls);
            && (c in w.calls <==>
                  || c in calls || (c.AddLabel? && Wants(plan, created, a, c.issue, c.size))
                  || (AllLabelled(plan, created, a) && c == Approve(ApprovedIssue(plan, issues))))
            && (w.outcome.Opened? <==> AllLabelled(plan, created, a) && a.approved)
            && (w.outcome.Opened? ==> forall i :: i in w.outcome.issues <==> HasNow(plan, created, a, i))
  {
    WantsIs(plan, created, a, issues);
    assert Overall(plan) == SingleOverall(plan);
    FinishIs(issues, issues, plan, SingleOverall(plan), ApprovedIssue(plan, issues), a, saved, calls, c);
  }

  lemma FirstIs(draft: Option<Plan>, created: seq<Issue>, a: Answers)
    requires GoesOn(draft, created, a) && !draft.value.multiRepo
    ensures var issues := StartOf(draft, created, a).issues;
            issues.Some? && issues.value != []
            && forall i :: IsFirst(created, a, i) <==> i == issues.value[0]
  {
    ResumesIs(created);
    if Resumes(created) {
      var k := ResumedFirst(created);
      forall j | FirstReal(created, j)
        ensures j == k
      {
      }
    }
  }

  // ---- Calls and outcome ---------------------------------------------------------------------------------------

  /** Which calls an attempt makes. */
  ghost predicate Makes(draft: Option<Plan>, created: seq<Issue>, a: Answers, c: Call) {
    match c
    case Publish => draft.Some? && |draft.value.specs| > 0 && draft.value.publish
    case CreateSingle => MayCreate(draft, created, a) && !draft.value.multiRepo
    case CreateEpic => MayCreate(draft, created, a) && draft.value.multiRepo
    case ListChildren(repo) =>
      && GoesOn(draft, created, a) && draft.value.multiRepo && Resumes(created)
      && Lacks(draft.value, created, a, repo)
    case AddLabel(i, size) => Labels(draft, created, a) && Wants(draft.value, created, a, i, size)
    case Approve(reference) =>
      && Labels(draft, created, a) && AllLabelled(draft.value, created, a)
      && if draft.value.multiRepo then reference == None
         else exists i :: IsFirst(created, a, i) && reference == Some(Issue(draft.value.specs[0].repo, i.number))
  }

  lemma GoesOnCalls(draft: Option<Plan>, created: seq<Issue>, a: Answers, c: Call)
    requires GoesOn(draft, created, a) && !c.Publish? && !Creates(c)
    ensures c in AttemptOf(draft, created, a).calls <==> Makes(draft, created, a, c)
  {
    var plan, start := draft.value, StartOf(draft, created, a);
    StartIs(draft, created, a);
    ResumesIs(created);
    if plan.multiRepo {
      EpicIs(plan, created, a, start.issues.value, start.saved, start.calls, c);
    } else {
      FirstIs(draft, created, a);
      SingleIs(plan, created, a, start.issues.value, start.saved, start.calls, c);
    }
  }

  /** An attempt publishes, creates, looks for children, labels and approves exactly when the plan, the issues persisted
      before and the answers call for it; it approves only when every label it wants could be put on. */
  lemma CallsExactly(draft: Option<Plan>, created: seq<Issue>, a: Answers, c: Call)
    ensures c in AttemptOf(draft, created, a).calls <==> Makes(draft, created, a, c)
  {
    StartIs(draft, created, a);
    if Creates(c) {
      CreatesExactly(draft, created, a);
    } else if c.Publish? {
      CreatesOnce(draft, created, a);
    } else if GoesOn(draft, created, a) {
      GoesOnCalls(draft, created, a, c);
    }
  }

  /** An attempt opens the work exactly when it has issues to go on with, every repository of the plan has one, every
      label could be put on and the approval was given; and then it leaves those issues. */
  lemma OpensExactly(draft: Option<Plan>, created: seq<Issue>, a: Answers)
    ensures var outcome := AttemptOf(draft, created, a).outcome;
            && (outcome.Opened? <==>
                  Labels(draft, created, a) && AllLabelled(draft.value, created, a) && a.approved)
            && (outcome.Opened? ==> forall i :: i in outcome.issues <==> HasNow(draft.value, created, a, i))
  {
    StartIs(draft, created, a);
    ResumesIs(created);
    if GoesOn(draft, created, a) {
      var plan, start := draft.value, StartOf(draft, created, a);
      if plan.multiRepo {
        EpicIs(plan, created, a, start.issues.value, start.saved, start.calls, Publish);
      } else {
        FirstIs(draft, created, a);
        SingleIs(plan, created, a, start.issues.value, start.saved, start.calls, Publish);
      }
    }
  }

  // ---- Their order ---------------------------------------------------------------------------------------------

  function Stage(c: Call): nat {
    match c
    case Publish => 0
    case CreateSingle => 1
    case CreateEpic => 1
    case ListChildren(_) => 2
    case AddLabel(_, _) => 3
    case Approve(_) => 4
  }

  predicate InOrder(calls: seq<Call>, low: nat, high: nat) {
    && (forall j :: 0 <= j < |calls| ==> low <= Stage(calls[j]) <= high)
    && forall i, j :: 0 <= i < j < |calls| ==> Stage(calls[i]) <= Stage(calls[j])
  }

  lemma {:induction false} LabelsInOrder(issues: seq<Issue>, plan: Plan, overall: Option<string>)
    ensures InOrder(LabelCalls(issues, plan, overall), 3, 3)
  {
    if issues != [] {
      LabelsInOrder(issues[..|issues| - 1], plan, overall);
    }
  }

  lemma {:induction false} ListsInOrder(repos: seq<string>)
    ensures InOrder(ListCalls(repos), 2, 2)
  {
    if repos != [] {
      ListsInOrder(repos[..|repos| - 1]);
    }
  }

  /** In stages, the approval last and once. */
  predicate Staged(calls: seq<Call>) {
    InOrder(calls, 0, 4) && forall j :: 0 <= j < |calls| && calls[j].Approve? ==> j == |calls| - 1
  }

  lemma InOrderThen(front: seq<Call>, back: seq<Call>, low: nat, mid: nat, high: nat)
    requires low <= mid <= high && InOrder(front, low, mid) && InOrder(back, mid, high)
    ensures InOrder(front + back, low, high)
  {
  }

  lemma Widened(calls: seq<Call>, low: nat, high: nat, low': nat, high': nat)
    requires InOrder(calls, low, high) && low' <= low && high <= high'
    ensures InOrder(calls, low', high')
  {
  }

  lemma ApprovedLast(front: seq<Call>, i: Option<Issue>)
    requires InOrder(front, 0, 3)
    ensures Staged(front) && Staged(front + [Approve(i)])
  {
    Widened(front, 0, 3, 0, 4);
    InOrderThen(front, [Approve(i)], 0, 3, 4);
  }

  lemma FinishInOrder(issues: seq<Issue>, labelled: seq<Issue>, plan: Plan, overall: Option<string>,
                      approve: Option<Issue>, a: Answers, saved: seq<seq<Issue>>, calls: seq<Call>)
    requires InOrder(calls, 0, 2)
    ensures Staged(Finish(issues, labelled, plan, overall, approve, a, saved, calls).calls)
  {
    var labels := LabelCalls(labelled, plan, overall);
    LabelsInOrder(labelled, plan, overall);
    Widened(labels, 3, 3, 2, 3);
    InOrderThen(calls, labels, 0, 2, 3);
    ApprovedLast(calls + labels, approve);
  }

  lemma ListedInOrder(plan: Plan, issues: seq<Issue>, resumed: bool, calls: seq<Call>)
    requires InOrder(calls, 0, 1)
    ensures InOrder(if resumed then calls + ListCalls(MissingOf(Expected(plan, |plan.specs|), issues)) else calls, 0, 2)
  {
    var lists := ListCalls(MissingOf(Expected(plan, |plan.specs|), issues));
    ListsInOrder(MissingOf(Expected(plan, |plan.specs|), issues));
    assert InOrder(lists, 1, 2);
    InOrderThen(calls, lists, 0, 1, 2);
  }

  lemma EpicInOrder(plan: Plan, issues: seq<Issue>, resumed: bool, a: Answers, saved: seq<seq<Issue>>, calls: seq<Call>)
    requires InOrder(calls, 0, 1)
    ensures Staged(Epic(plan, issues, resumed, a, saved, calls).calls)
  {
    var again := Again(plan, issues, resumed, a);
    var saved' := if |again| != |issues| then saved + [again] else saved;
    var calls' := if resumed then calls + ListCalls(MissingOf(Expected(plan, |plan.specs|), issues)) else calls;
    ListedInOrder(plan, issues, resumed, calls);
    FinishInOrder(again, InRepo(again, plan.umbrella), plan, plan.overall, None, a, saved', calls');
    InOrderIsStaged(calls');
  }

  lemma InOrderIsStaged(calls: seq<Call>)
    requires InOrder(calls, 0, 2)
    ensures Staged(calls)
  {
  }

  lemma StartInOrder(draft: Option<Plan>, created: seq<Issue>, a: Answers)
    ensures InOrder(StartOf(draft, created, a).calls, 0, 1)
  {
    StartCreates(draft, created, a);
  }

  /** It publishes, creates, looks for children, labels and approves in that order, and approves at most once. */
  lemma CallsStaged(draft: Option<Plan>, created: seq<Issue>, a: Answers)
    ensures Staged(AttemptOf(draft, created, a).calls)
  {
    var start := StartOf(draft, created, a);
    StartInOrder(draft, created, a);
    if start.issues.Some? {
      var plan, issues := draft.value, start.issues.value;
      if plan.multiRepo {
        EpicInOrder(plan, issues, Resumed(created) != [], a, start.saved, start.calls);
      } else {
        FinishInOrder(issues, issues, plan, SingleOverall(plan), ApprovedIssue(plan, issues), a, start.saved,
                      start.calls);
      }
    }
  }

  // ---- No call is made twice -----------------------------------------------------------------------------------

  lemma DistinctThen(front: seq<Call>, back: seq<Call>)
    requires Distinct(front) && Distinct(back) && forall c :: c in front ==> c !in back
    ensures Distinct(front + back)
  {
    assert forall i :: 0 <= i < |front| ==> front[i] in front;
  }

  lemma {:induction false} ExpectedOnce(plan: Plan, k: nat)
    requires k <= |plan.specs|
    ensures Distinct(Expected(plan, k))
  {
    if k > 0 {
      ExpectedOnce(plan, k - 1);
    }
  }

  lemma {:induction false} MissingOnce(repos: seq<string>, have: seq<Issue>)
    requires Distinct(repos)
    ensures Distinct(MissingOf(repos, have)) && forall repo :: repo in MissingOf(repos, have) ==> repo in repos
  {
    if repos != [] {
      var front, last := repos[..|repos| - 1], repos[|repos| - 1];
      MissingOnce(front, have);
      assert last !in front && forall repo :: repo in front ==> repo in repos;
    }
  }

  lemma {:induction false} ListsOnce(repos: seq<string>)
    requires Distinct(repos)
    ensures Distinct(ListCalls(repos))
    ensures forall c :: c in ListCalls(repos) ==> c.ListChildren? && c.repo in repos
  {
    if repos != [] {
      var front, last := repos[..|repos| - 1], repos[|repos| - 1];
      ListsOnce(front);
      assert last !in front && forall repo :: repo in front ==> repo in repos;
      DistinctThen(ListCalls(front), [ListChildren(last)]);
    }
  }

  lemma {:induction false} LabelsOnce(issues: seq<Issue>, plan: Plan, overall: Option<string>)
    requires Distinct(issues)
    ensures Distinct(LabelCalls(issues, plan, overall))
    ensures forall c :: c in LabelCalls(issues, plan, overall) ==> c.AddLabel? && c.issue in issues
  {
    if issues != [] {
      var front, last := issues[..|issues| - 1], issues[|issues| - 1];
      var size := SizeOf(last, plan, overall);
      LabelsOnce(front, plan, overall);
      assert last !in front && forall i :: i in front ==> i in issues;
      DistinctThen(LabelCalls(front, plan, overall), if size.None? then [] else [AddLabel(last, size.value)]);
    }
  }

  lemma {:induction false} InRepoOnce(issues: seq<Issue>, repo: string)
    requires Distinct(issues)
    ensures Distinct(InRepo(issues, repo)) && forall i :: i in InRepo(issues, repo) ==> i in issues
  {
    if issues != [] {
      var front, last := issues[..|issues| - 1], issues[|issues| - 1];
      InRepoOnce(front, repo);
      assert last !in front && forall i :: i in front ==> i in issues;
    }
  }

  lemma FinishOnce(issues: seq<Issue>, labelled: seq<Issue>, plan: Plan, overall: Option<string>,
                   approve: Option<Issue>, a: Answers, saved: seq<seq<Issue>>, calls: seq<Call>)
    requires Distinct(labelled) && Distinct(calls) && forall c :: c in calls ==> !c.AddLabel? && !c.Approve?
    ensures Distinct(Finish(issues, labelled, plan, overall, approve, a, saved, calls).calls)
  {
    var labels := LabelCalls(labelled, plan, overall);
    LabelsOnce(labelled, plan, overall);
    DistinctThen(calls, labels);
    assert forall c :: c in calls + labels ==> !c.Approve?;
    DistinctThen(calls + labels, [Approve(approve)]);
  }

  lemma ListedOnce(plan: Plan, issues: seq<Issue>, resumed: bool, calls: seq<Call>)
    requires Distinct(calls) && forall c :: c in calls ==> c.Publish? || Creates(c)
    ensures var missing := MissingOf(Expected(plan, |plan.specs|), issues);
            var calls' := if resumed then calls + ListCalls(missing) else calls;
            Distinct(calls') && forall c :: c in calls' ==> !c.AddLabel? && !c.Approve?
  {
    var missing := MissingOf(Expected(plan, |plan.specs|), issues);
    ExpectedOnce(plan, |plan.specs|);
    MissingOnce(Expected(plan, |plan.specs|), issues);
    ListsOnce(missing);
    DistinctThen(calls, ListCalls(missing));
  }

  lemma AgainOnce(plan: Plan, issues: seq<Issue>, resumed: bool, a: Answers)
    requires Distinct(issues)
    ensures Distinct(InRepo(Again(plan, issues, resumed, a), plan.umbrella))
  {
    RefreshedKeeps(issues, MissingOf(Expected(plan, |plan.specs|), issues), a);
    InRepoOnce(Again(plan, issues, resumed, a), plan.umbrella);
  }

  lemma EpicOnce(plan: Plan, issues: seq<Issue>, resumed: bool, a: Answers, saved: seq<seq<Issue>>, calls: seq<Call>)
    requires Distinct(issues) && Distinct(calls) && forall c :: c in calls ==> c.Publish? || Creates(c)
    ensures Distinct(Epic(plan, issues, resumed, a, saved, calls).calls)
  {
    var again := Again(plan, issues, resumed, a);
    var saved' := if |again| != |issues| then saved + [again] else saved;
    var calls' := if resumed then calls + ListCalls(MissingOf(Expected(plan, |plan.specs|), issues)) else calls;
    ListedOnce(plan, issues, resumed, calls);
    AgainOnce(plan, issues, resumed, a);
    FinishOnce(again, InRepo(again, plan.umbrella), plan, plan.overall, None, a, saved', calls');
  }

  lemma StartOnce(draft: Option<Plan>, created: seq<Issue>, a: Answers)
    requires Distinct(created) && (a.created.Some? ==> Distinct(a.created.value))
    ensures var start := StartOf(draft, created, a);
            Distinct(start.calls) && (start.issues.Some? ==> Distinct(start.issues.value))
  {
    ResumedDistinct(created);
  }

  /** No call is made twice in one attempt, if neither the earlier issues nor the created ones name one twice. */
  lemma NoCallTwice(draft: Option<Plan>, created: seq<Issue>, a: Answers)
    requires Distinct(created) && (a.created.Some? ==> Distinct(a.created.value))
    ensures Distinct(AttemptOf(draft, created, a).calls)
  {
    var start := StartOf(draft, created, a);
    StartOnce(draft, created, a);
    StartIs(draft, created, a);
    if start.issues.Some? {
      var plan, issues := draft.value, start.issues.value;
      if plan.multiRepo {
        EpicOnce(plan, issues, Resumed(created) != [], a, start.saved, start.calls);
      } else {
        FinishOnce(issues, issues, plan, SingleOverall(plan), ApprovedIssue(plan, issues), a, start.saved, start.calls);
      }
    }
  }

  // ---- One go --------------------------------------------------------------------------------------------------

  lemma {:induction false} AddNewGrows(have: seq<Issue>, found: seq<Issue>)
    ensures |AddNew(have, found)| >= |have|
    ensures |AddNew(have, found)| > |have| <==> exists i :: i in AddNew(have, found) && i !in have
  {
    if found != [] {
      var front, last := AddNew(have, found[..|found| - 1]), found[|found| - 1];
      AddNewGrows(have, found[..|found| - 1]);
      AddNewKeeps(have, found[..|found| - 1]);
      assert forall i :: i in have ==> i in front;
      if last !in front {
        assert last in AddNew(have, found) && last !in have;
      } else {
        assert AddNew(have, found) == front;
      }
    }
  }

  lemma {:induction false} RefreshedGrows(have: seq<Issue>, repos: seq<string>, a: Answers)
    ensures |Refreshed(have, repos, a)| >= |have|
    ensures |Refreshed(have, repos, a)| > |have| <==> exists i :: i in Refreshed(have, repos, a) && i !in have
  {
    if repos != [] {
      var front, repo := Refreshed(have, repos[..|repos| - 1], a), repos[|repos| - 1];
      RefreshedGrows(have, repos[..|repos| - 1], a);
      RefreshedKeeps(have, repos[..|repos| - 1], a);
      if repo in a.children {
        AddNewGrows(front, a.children[repo]);
        AddNewKeeps(front, a.children[repo]);
      }
    }
  }

  /** The attempt persists something: new issues, or ones that GitHub lists and no earlier attempt left. */
  ghost predicate Saves(draft: Option<Plan>, created: seq<Issue>, a: Answers) {
    && GoesOn(draft, created, a)
    && (Resumes(created) ==> exists i :: HasNow(draft.value, created, a, i) && !Has(created, a, i))
  }

  lemma EpicSaves(plan: Plan, created: seq<Issue>, a: Answers, issues: seq<Issue>, saved: seq<seq<Issue>>,
                  calls: seq<Call>)
    requires plan.multiRepo && forall i :: i in issues <==> Has(created, a, i)
    ensures var w := Epic(plan, issues, Resumes(created), a, saved, calls);
            var again := Again(plan, issues, Resumes(created), a);
            && w.saved
               == saved + (if exists i :: HasNow(plan, created, a, i) && !Has(created, a, i) then [again] else [])
            && forall i :: i in again <==> HasNow(plan, created, a, i)
  {
    var missing := MissingOf(Expected(plan, |plan.specs|), issues);
    RefreshedGrows(issues, missing, a);
    forall i
      ensures i in Again(plan, issues, Resumes(created), a) <==> HasNow(plan, created, a, i)
    {
      AgainIs(plan, created, a, issues, i);
    }
  }

  /** What is persisted when an attempt has ended. */
  lemma AttemptSaves(draft: Option<Plan>, created: seq<Issue>, a: Answers)
    ensures var w := AttemptOf(draft, created, a);
            if Saves(draft, created, a) then
              forall i :: i in LastOf(w.saved, created) <==> HasNow(draft.value, created, a, i)
            else LastOf(w.saved, created) == created
  {
    StartIs(draft, created, a);
    ResumesIs(created);
    if GoesOn(draft, created, a) {
      var plan, start := draft.value, StartOf(draft, created, a);
      if plan.multiRepo {
        EpicSaves(plan, created, a, start.issues.value, start.saved, start.calls);
      }
    }
  }

  /** One go, in every case: it does nothing unless it is allowed and the session waits for it, and otherwise makes the
      calls of an attempt, ends as done or as failed, and leaves the issues that the attempt left. */
  lemma GoExactly(s: Session, at: Attempt)
    ensures var t, calls := Apply(s, Go(at)), CallsOf(s, Go(at));
            if !at.allowed || s.state !in {AwaitingGo, GoDenied, WriteFailed} then t == s && calls == []
            else
              var opens := Labels(at.draft, s.created, at.answers)
                           && AllLabelled(at.draft.value, s.created, at.answers) && at.answers.approved;
              && (forall c :: c in calls <==> Makes(at.draft, s.created, at.answers, c))
              && t.state == (if opens then Done else WriteFailed)
              && if opens || Saves(at.draft, s.created, at.answers)
                 then forall i :: i in t.created <==> HasNow(at.draft.value, s.created, at.answers, i)
                 else t.created == s.created
  {
    forall c
      ensures c in AttemptOf(at.draft, s.created, at.answers).calls <==> Makes(at.draft, s.created, at.answers, c)
    {
      CallsExactly(at.draft, s.created, at.answers, c);
    }
    OpensExactly(at.draft, s.created, at.answers);
    AttemptSaves(at.draft, s.created, at.answers);
  }

  /** An attempt persists at most one set of issues before it ends. */
  lemma SavesOnce(draft: Option<Plan>, created: seq<Issue>, a: Answers)
    ensures |AttemptOf(draft, created, a).saved| <= 1
    ensures AttemptOf(draft, created, a).saved != [] <==> Saves(draft, created, a)
  {
    StartIs(draft, created, a);
    ResumesIs(created);
    if GoesOn(draft, created, a) {
      var plan, start := draft.value, StartOf(draft, created, a);
      if plan.multiRepo {
        EpicSaves(plan, created, a, start.issues.value, start.saved, start.calls);
      }
    }
  }

  /** A go whose process dies leaves the session writing, with its issues as they were or as the attempt left them. */
  lemma DeathLeaves(s: Session, at: Attempt, saves: nat)
    ensures var t := Apply(s, Dies(at, saves));
            if !at.allowed || s.state !in {AwaitingGo, GoDenied, WriteFailed} then t == s
            else
              && t.state == Writing
              && if saves > 0 && Saves(at.draft, s.created, at.answers)
                 then forall i :: i in t.created <==> HasNow(at.draft.value, s.created, at.answers, i)
                 else t.created == s.created
  {
    AttemptSaves(at.draft, s.created, at.answers);
    SavesOnce(at.draft, s.created, at.answers);
  }

  /** Any other action leaves the issues and neither finishes nor starts writing. */
  lemma OtherMoves(s: Session, to: State)
    ensures var t := Apply(s, Moves(to));
            t.created == s.created && t.state == (if to in {Writing, Done} then s.state else to)
  {
  }

  /** A run is its steps, one after the other. */
  lemma RunThen(s: Session, steps: seq<Step>, step: Step)
    ensures Run(s, []) == s && Run(s, steps + [step]) == Apply(Run(s, steps), step)
  {
    assert (steps + [step])[..|steps|] == steps;
  }
}
