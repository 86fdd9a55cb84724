/**
 * One allocation as a function of what git answers, and as a run of the step machine: the effect of a call that
 * nobody interrupts is that of its steps.
 */
module AllocationSteps {
  import opened Prelude
  import opened CommitGraph
  import opened GitRefs
  import opened Interleaving
  import opened Paths

  datatype Context = Context(
    repoFullName: string,
    baseBranch: string,
    sessionBranch: string,
    sessionId: string,
    reuseExistingBranch: bool,
    preserveLocalBranch: bool,
    recoverBranchFromSha: Option<Commit>)

  /** How the git commands of one allocation turn out, where the repository does not decide it. */
  datatype Answers = Answers(
    onDisk: bool,                         // something already exists at the worktree path
    fetched: bool, graph: Graph, refs: map<string, Commit>,
    listing: seq<string>,                 // git worktree list
    stuck: set<string>,                   // paths that cannot be removed
    typeRead: bool, branchMade: bool, recoveredOut: bool,
    preservedOut: bool,
    first: ResetOutcome, second: ResetOutcome,
    configured: bool)

  datatype CheckoutPath = PreserveLocal | RecoveredLocal | ReuseRemote | ResetToBase

  /** The paths reconcile removes: on the branch, not the target, not being built, and not stuck. */
  predicate Removable(r: Repo, path: string, branch: string, target: string, busy: set<string>, stuck: set<string>) {
    path in r.worktrees && r.worktrees[path] == branch && path != target && path !in busy && path !in stuck
  }

  // ---- The effect of a call ---------------------------------------------------------------

  function Released(r: Repo, branch: string, target: string, busy: set<string>, stuck: set<string>): Repo {
    r.(worktrees := map p | p in r.worktrees && !Removable(r, p, branch, target, busy, stuck) :: r.worktrees[p])
  }

  /** A reset that cannot even start counts as one that failed before moving the ref. */
  function Effective(r: Repo, branch: string, wt: string, start: Rev, outcome: ResetOutcome): ResetOutcome {
    if r.Resolve(start).Some? && r.CanCheckOut(wt, branch) then outcome else FailedBefore
  }

  /** `worktree add -B` after the rescue check. */
  function AfterMove(r: Repo, branch: string, wt: string, start: Rev, outcome: ResetOutcome): Repo {
    var done := Effective(r, branch, wt, start, outcome);
    if done.FailedBefore? then r
    else
      var moved := r.PointHead(branch, r.Resolve(start).value);
      if done.Done? then moved.CheckOut(wt, branch) else moved
  }

  function AfterReset(r: Repo, branch: string, wt: string, start: Rev, outcome: ResetOutcome): Repo {
    AfterMove(r.Rescued(branch, start), branch, wt, start, outcome)
  }

  predicate Resets(r: Repo, branch: string, wt: string, start: Rev, outcome: ResetOutcome) {
    Effective(r.Rescued(branch, start), branch, wt, start, outcome).Done?
  }

  function AfterOrdinary(c: Context, r: Repo, wt: string, ans: Answers): Repo {
    if !c.reuseExistingBranch then AfterReset(r, c.sessionBranch, wt, Origin(c.baseBranch), ans.first)
    else if Resets(r, c.sessionBranch, wt, Origin(c.sessionBranch), ans.first) then
      AfterReset(r, c.sessionBranch, wt, Origin(c.sessionBranch), ans.first)
    else
      AfterReset(AfterReset(r, c.sessionBranch, wt, Origin(c.sessionBranch), ans.first),
                 c.sessionBranch, wt, Name(c.baseBranch), ans.second)
  }

  /** What recovery leaves when it is tried: nothing, the branch alone, or the branch checked out. */
  function AfterRecovery(branch: string, r: Repo, wt: string, sha: Commit, ans: Answers): Repo {
    if !(ans.typeRead && sha < |r.graph| && ans.branchMade) then r
    else
      var made := r.PointHead(branch, sha);
      if ans.recoveredOut && made.CanCheckOut(wt, branch) then made.CheckOut(wt, branch) else made
  }

  predicate Recovers(branch: string, r: Repo, wt: string, sha: Commit, ans: Answers) {
    ans.typeRead && sha < |r.graph| && ans.branchMade && ans.recoveredOut && r.CanCheckOut(wt, branch)
  }

  function AfterChoice(c: Context, r: Repo, wt: string, ans: Answers): Repo {
    if c.preserveLocalBranch && c.sessionBranch in r.heads then
      (if ans.preservedOut && r.CanCheckOut(wt, c.sessionBranch) then r.CheckOut(wt, c.sessionBranch) else r)
    else if c.preserveLocalBranch && c.recoverBranchFromSha.Some? then
      var recovered := AfterRecovery(c.sessionBranch, r, wt, c.recoverBranchFromSha.value, ans);
      if Recovers(c.sessionBranch, r, wt, c.recoverBranchFromSha.value, ans) then recovered else AfterOrdinary(c, recovered, wt, ans)
    else AfterOrdinary(c, r, wt, ans)
  }

  /** The repository after one allocation that was not refused. */
  function AfterAllocation(c: Context, r: Repo, ans: Answers, busy: set<string>): Repo {
    var wt := PathOf(c.sessionId);
    if !ans.fetched then r
    else AfterChoice(c, Released(r.Fetched(ans.graph, ans.refs), c.sessionBranch, wt, busy, ans.stuck), wt, ans)
  }

  /** Which checkout path a call that got past the fetch succeeds on, if any. */
  function PathTaken(c: Context, r: Repo, wt: string, ans: Answers): Option<CheckoutPath> {
    if c.preserveLocalBranch && c.sessionBranch in r.heads then
      (if ans.preservedOut && r.CanCheckOut(wt, c.sessionBranch) then Some(PreserveLocal) else None)
    else if c.preserveLocalBranch && c.recoverBranchFromSha.Some? then
      if Recovers(c.sessionBranch, r, wt, c.recoverBranchFromSha.value, ans) then Some(RecoveredLocal)
      else OrdinaryPath(c, AfterRecovery(c.sessionBranch, r, wt, c.recoverBranchFromSha.value, ans), wt, ans)
    else OrdinaryPath(c, r, wt, ans)
  }

  /** The path a call that was not refused succeeds on. */
  function TakenBy(c: Context, r: Repo, ans: Answers, busy: set<string>): Option<CheckoutPath> {
    var wt := PathOf(c.sessionId);
    if !ans.fetched then None
    else PathTaken(c, Released(r.Fetched(ans.graph, ans.refs), c.sessionBranch, wt, busy, ans.stuck), wt, ans)
  }

  function OrdinaryPath(c: Context, r: Repo, wt: string, ans: Answers): Option<CheckoutPath> {
    if !c.reuseExistingBranch then
      (if Resets(r, c.sessionBranch, wt, Origin(c.baseBranch), ans.first) then Some(ResetToBase) else None)
    else if Resets(r, c.sessionBranch, wt, Origin(c.sessionBranch), ans.first) then Some(ReuseRemote)
    else
      var once := AfterReset(r, c.sessionBranch, wt, Origin(c.sessionBranch), ans.first);
      if Resets(once, c.sessionBranch, wt, Name(c.baseBranch), ans.second) then Some(ResetToBase) else None
  }

  // ---- What a call must come to -----------------------------------------------------------

  /** Nothing registered at the call's path, and whatever holds its branch can be released. */
  predicate PlaceIsFree(c: Context, r: Repo, ans: Answers, busy: set<string>) {
    && PathOf(c.sessionId) !in r.worktrees
    && forall p | p in r.worktrees && r.worktrees[p] == c.sessionBranch :: p !in busy && p !in ans.stuck
  }

  /** The branch was fetched from the remote, and no local branch passes for it. */
  predicate OnRemote(branch: string, r: Repo, ans: Answers) { branch in ans.refs && ("origin/" + branch) !in r.heads }

  predicate NowhereOnRemote(branch: string, r: Repo, ans: Answers) { branch !in ans.refs && ("origin/" + branch) !in r.heads }

  predicate RecoveryWorks(c: Context, r: Repo, ans: Answers, busy: set<string>) {
    && c.preserveLocalBranch && c.sessionBranch !in r.heads
    && c.recoverBranchFromSha.Some? && c.recoverBranchFromSha.value < |ans.graph|
    && ans.typeRead && ans.branchMade && ans.recoveredOut && PlaceIsFree(c, r, ans, busy)
  }

  /**
   * What a fetched call comes to, told from the request, the repository it found and git's answers: `taken` is the path
   * it succeeded on, and `after` the repository it leaves.
   */
  predicate ComesTo(c: Context, r: Repo, ans: Answers, busy: set<string>, taken: Option<CheckoutPath>, after: Repo) {
    var branch, base := c.sessionBranch, c.baseBranch;
    var free := PlaceIsFree(c, r, ans, busy);
    if c.preserveLocalBranch && branch in r.heads then
      && taken == (if ans.preservedOut && free then Some(PreserveLocal) else None)
      && after.heads == r.heads && after.rescue == r.rescue
    else if RecoveryWorks(c, r, ans, busy) then
      taken == Some(RecoveredLocal) && after.heads == r.heads[branch := c.recoverBranchFromSha.value]
    else if !free then taken == None
    else if !c.reuseExistingBranch then
      // A session branch of this name, left behind by a recovery that failed half-way, would pass for the remote one.
      branch != "origin/" + base ==>
      && (OnRemote(base, r, ans) && ans.first.Done? ==>
            taken == Some(ResetToBase) && branch in after.heads && after.heads[branch] == ans.refs[base])
      && (NowhereOnRemote(base, r, ans) || !ans.first.Done? ==> taken == None)
    else
      && (OnRemote(branch, r, ans) && ans.first.Done? ==>
            taken == Some(ReuseRemote) && branch in after.heads && after.heads[branch] == ans.refs[branch])
      && ((NowhereOnRemote(branch, r, ans) || !ans.first.Done?) && base in r.heads && base != branch && ans.second.Done? ==>
            taken == Some(ResetToBase) && branch in after.heads && after.heads[branch] == r.heads[base])
      && ((NowhereOnRemote(branch, r, ans) || !ans.first.Done?) && !ans.second.Done? ==> taken == None)
      && (taken == Some(ResetToBase) ==> !(OnRemote(branch, r, ans) && ans.first.Done?))
  }

  lemma FreeIff(c: Context, r: Repo, ans: Answers, busy: set<string>)
    ensures var released := Released(r.Fetched(ans.graph, ans.refs), c.sessionBranch, PathOf(c.sessionId), busy, ans.stuck);
      released.CanCheckOut(PathOf(c.sessionId), c.sessionBranch) <==> PlaceIsFree(c, r, ans, busy)
  {
    var wt, branch, fetched := PathOf(c.sessionId), c.sessionBranch, r.Fetched(ans.graph, ans.refs);
    var released := Released(fetched, branch, wt, busy, ans.stuck);
    if branch in released.worktrees.Values {
      var p :| p in released.worktrees && released.worktrees[p] == branch;
      assert !Removable(fetched, p, branch, wt, busy, ans.stuck);
    }
    if p :| p in r.worktrees && r.worktrees[p] == branch && (p in busy || p in ans.stuck) {
      assert released.worktrees[p] == branch;
    }
  }

  lemma OriginResolves(r: Repo, branch: string)
    ensures ("origin/" + branch) !in r.heads ==>
      r.Resolve(Origin(branch)) == if branch in r.tracking then Some(r.tracking[branch]) else None
  {
    assert ("origin/" + branch)[|ORIGIN|..] == branch;
  }

  /** One reset: it happens exactly when the start point resolves and git does it, and then moves the branch there. */
  lemma ResetIs(r: Repo, branch: string, wt: string, start: Rev, outcome: ResetOutcome)
    requires r.CanCheckOut(wt, branch)
    ensures Resets(r, branch, wt, start, outcome) <==> outcome.Done? && r.Resolve(start).Some?
    ensures var after := AfterReset(r, branch, wt, start, outcome);
      && (Resets(r, branch, wt, start, outcome) ==> after.heads == r.heads[branch := r.Resolve(start).value])
      && (!Resets(r, branch, wt, start, outcome) ==>
            after.CanCheckOut(wt, branch) && after.tracking == r.tracking
            && forall b | b != branch :: (b in after.heads <==> b in r.heads) && (b in r.heads ==> after.heads[b] == r.heads[b]))
  {
    var parked := r.Rescued(branch, start);
    assert parked.heads == r.heads && parked.tracking == r.tracking && parked.worktrees == r.worktrees;
    assert parked.Resolve(start) == r.Resolve(start);
  }

  /** The resetting checkouts, from a repository in which the place is free. */
  lemma OrdinaryComesTo(c: Context, r: Repo, wt: string, ans: Answers)
    requires r.CanCheckOut(wt, c.sessionBranch) && r.tracking == ans.refs
    ensures var branch, base := c.sessionBranch, c.baseBranch;
      var taken, after := OrdinaryPath(c, r, wt, ans), AfterOrdinary(c, r, wt, ans);
      if !c.reuseExistingBranch then
        && (OnRemote(base, r, ans) && ans.first.Done? ==>
              taken == Some(ResetToBase) && branch in after.heads && after.heads[branch] == ans.refs[base])
        && (NowhereOnRemote(base, r, ans) || !ans.first.Done? ==> taken == None)
      else
        && (OnRemote(branch, r, ans) && ans.first.Done? ==>
              taken == Some(ReuseRemote) && branch in after.heads && after.heads[branch] == ans.refs[branch])
        && ((NowhereOnRemote(branch, r, ans) || !ans.first.Done?) && base in r.heads && base != branch && ans.second.Done? ==>
              taken == Some(ResetToBase) && branch in after.heads && after.heads[branch] == r.heads[base])
        && ((NowhereOnRemote(branch, r, ans) || !ans.first.Done?) && !ans.second.Done? ==> taken == None)
        && (taken == Some(ResetToBase) ==> !(OnRemote(branch, r, ans) && ans.first.Done?))
  {
    var branch := c.sessionBranch;
    OriginResolves(r, c.baseBranch);
    OriginResolves(r, branch);
    if c.reuseExistingBranch {
      ResetIs(r, branch, wt, Origin(branch), ans.first);
      var once := AfterReset(r, branch, wt, Origin(branch), ans.first);
      if !Resets(r, branch, wt, Origin(branch), ans.first) {
        ResetIs(once, branch, wt, Name(c.baseBranch), ans.second);
      }
    } else {
      ResetIs(r, branch, wt, Origin(c.baseBranch), ans.first);
    }
  }

  lemma RecoveryComesTo(c: Context, r: Repo, wt: string, sha: Commit, ans: Answers)
    requires r.CanCheckOut(wt, c.sessionBranch) && !Recovers(c.sessionBranch, r, wt, sha, ans)
    ensures var left := AfterRecovery(c.sessionBranch, r, wt, sha, ans);
      && left.CanCheckOut(wt, c.sessionBranch) && left.tracking == r.tracking
      && forall b | b != c.sessionBranch :: (b in left.heads <==> b in r.heads) && (b in r.heads ==> left.heads[b] == r.heads[b])
  {
  }

  /** Where no checkout can succeed, none does. */
  lemma NoPlaceNoPath(c: Context, r: Repo, wt: string, ans: Answers)
    requires !r.CanCheckOut(wt, c.sessionBranch)
    ensures PathTaken(c, r, wt, ans) == None
  {
    var sha := c.recoverBranchFromSha.GetOr(0);
    var left := AfterRecovery(c.sessionBranch, r, wt, sha, ans);
    assert left.worktrees == r.worktrees;
    NeverResets(c, left, wt, ans);
    NeverResets(c, r, wt, ans);
  }

  lemma NeverResets(c: Context, r: Repo, wt: string, ans: Answers)
    requires !r.CanCheckOut(wt, c.sessionBranch)
    ensures OrdinaryPath(c, r, wt, ans) == None
  {
  }

  /** A fetched call comes to what its request, the repository it found and git's answers call for. */
  lemma ChoiceComesTo(c: Context, r: Repo, ans: Answers, busy: set<string>)
    ensures var released := Released(r.Fetched(ans.graph, ans.refs), c.sessionBranch, PathOf(c.sessionId), busy, ans.stuck);
      ComesTo(c, r, ans, busy, PathTaken(c, released, PathOf(c.sessionId), ans), AfterChoice(c, released, PathOf(c.sessionId), ans))
  {
    var wt, branch := PathOf(c.sessionId), c.sessionBranch;
    var released := Released(r.Fetched(ans.graph, ans.refs), branch, wt, busy, ans.stuck);
    FreeIff(c, r, ans, busy);
    if !PlaceIsFree(c, r, ans, busy) {
      NoPlaceNoPath(c, released, wt, ans);
    } else if !(c.preserveLocalBranch && branch in r.heads) && !RecoveryWorks(c, r, ans, busy) {
      if c.preserveLocalBranch && c.recoverBranchFromSha.Some? {
        var sha := c.recoverBranchFromSha.value;
        RecoveryComesTo(c, released, wt, sha, ans);
        OrdinaryComesTo(c, AfterRecovery(branch, released, wt, sha, ans), wt, ans);
        NotOwnOrigin(branch);
      } else {
        OrdinaryComesTo(c, released, wt, ans);
      }
    }
  }

  /** The path a call takes, and the repository it leaves, are what its request, what it found and git's answers call for. */
  lemma CallComesTo(c: Context, r: Repo, ans: Answers, busy: set<string>)
    ensures !ans.fetched ==> TakenBy(c, r, ans, busy) == None && AfterAllocation(c, r, ans, busy) == r
    ensures ans.fetched ==> ComesTo(c, r, ans, busy, TakenBy(c, r, ans, busy), AfterAllocation(c, r, ans, busy))
  {
    ChoiceComesTo(c, r, ans, busy);
  }

  /** In particular a possible reuse is taken, with nothing asked to be preserved. */
  lemma ReuseIsTaken(c: Context, r: Repo, ans: Answers, busy: set<string>)
    requires ans.fetched && c.reuseExistingBranch && !c.preserveLocalBranch && PlaceIsFree(c, r, ans, busy)
    ensures c.sessionBranch in ans.refs && ("origin/" + c.sessionBranch) !in r.heads && ans.first.Done? ==>
      var after := AfterAllocation(c, r, ans, busy);
      TakenBy(c, r, ans, busy) == Some(ReuseRemote) && c.sessionBranch in after.heads && after.heads[c.sessionBranch] == ans.refs[c.sessionBranch]
  {
    CallComesTo(c, r, ans, busy);
  }

  lemma NotOwnOrigin(branch: string)
    ensures "origin/" + branch != branch
  {
    assert |"origin/" + branch| == |branch| + 7;
  }

  // ---- Runs of steps ----------------------------------------------------------------------

  /** One step of the machine, as a relation. */
  const STEP: (World, Event, World) -> bool := (w: World, e: Event, w': World) => Enabled(w, e) && Apply(w, e) == w'

  ghost predicate Steps(w: World, es: seq<Event>, w': World) { Path(STEP, w, es, w') }

  lemma StepsAppend(w: World, es: seq<Event>, w': World, more: seq<Event>, w'': World)
    requires Steps(w, es, w') && Steps(w', more, w'')
    ensures Steps(w, es + more, w'')
  {
    PathAppend(STEP, w, es, w', more, w'');
  }

  lemma OneStepIs(w: World, e: Event, w': World)
    requires Enabled(w, e) && Apply(w, e) == w'
    ensures Steps(w, [e], w')
  {
    PathOne(STEP, w, e, w');
  }

  function JobOf(c: Context, stage: Stage): Job {
    Job(true, c.repoFullName, c.sessionBranch, c.baseBranch, c.preserveLocalBranch, c.reuseExistingBranch,
        c.recoverBranchFromSha, stage)
  }

  /** A call, and the in-flight tables while it runs. */
  datatype Call = Call(c: Context, busy: set<string>, table: map<string, string>)

  /** The call's own job at a stage, and no other. */
  function Alone(k: Call, r: Repo, stage: Stage): World {
    World(map[k.c.repoFullName := r], map[k.c.sessionId := JobOf(k.c, stage)], k.busy, k.table)
  }

  /** What a step of the job does to the one repository. */
  function Moved(w: World, e: Event, r: Repo): Repo
    requires Enabled(w, e)
  {
    if Touched(w, e).Some? then RepoAfter(w, e) else r
  }

  lemma JobStep(k: Call, r: Repo, stage: Stage, e: Event)
    requires ByJob(e) && !e.Begin? && !e.Finish? && e.sid == k.c.sessionId && Enabled(Alone(k, r, stage), e)
    ensures var w := Alone(k, r, stage);
      Steps(w, [e], Alone(k, Moved(w, e, r), StageAfter(w, e)))
  {
    var w := Alone(k, r, stage);
    var w' := Alone(k, Moved(w, e, r), StageAfter(w, e));
    assert Touched(w, e).Some? ==> Touched(w, e).value == k.c.repoFullName;
    assert ReposAfter(w, e) == w'.repos;
    assert w.jobs[e.sid := w.jobs[e.sid].(stage := StageAfter(w, e))] == w'.jobs;
    OneStepIs(w, e, w');
  }

  lemma ParkStep(k: Call, r: Repo, start: Rev, fallback: Option<Rev>)
    ensures Steps(Alone(k, r, Parking(start, fallback)), [Park(k.c.sessionId)],
                  Alone(k, r.Rescued(k.c.sessionBranch, start), Resetting(start, fallback)))
  {
    JobStep(k, r, Parking(start, fallback), Park(k.c.sessionId));
  }

  /** Where a reset leaves the job. */
  function AfterResetting(done: ResetOutcome, fallback: Option<Rev>): Stage {
    if !done.Done? && fallback.Some? then Parking(fallback.value, None) else Finishing
  }

  lemma ResetStep(k: Call, r: Repo, start: Rev, fallback: Option<Rev>,
                  outcome: ResetOutcome)
    ensures var wt, branch := PathOf(k.c.sessionId), k.c.sessionBranch;
      var done := Effective(r, branch, wt, start, outcome);
      Steps(Alone(k, r, Resetting(start, fallback)), [Reset(k.c.sessionId, done)],
            Alone(k, AfterMove(r, branch, wt, start, outcome), AfterResetting(done, fallback)))
  {
    var done := Effective(r, k.c.sessionBranch, PathOf(k.c.sessionId), start, outcome);
    JobStep(k, r, Resetting(start, fallback), Reset(k.c.sessionId, done));
  }

  lemma ParkAndReset(k: Call, r: Repo, start: Rev, fallback: Option<Rev>,
                     outcome: ResetOutcome)
      returns (es: seq<Event>)
    ensures var wt, branch := PathOf(k.c.sessionId), k.c.sessionBranch;
      Steps(Alone(k, r, Parking(start, fallback)), es,
            Alone(k, AfterReset(r, branch, wt, start, outcome),
                  AfterResetting(Effective(r.Rescued(branch, start), branch, wt, start, outcome), fallback)))
  {
    var wt, branch := PathOf(k.c.sessionId), k.c.sessionBranch;
    var parked := r.Rescued(branch, start);
    var done := Effective(parked, branch, wt, start, outcome);
    ParkStep(k, r, start, fallback);
    ResetStep(k, parked, start, fallback, outcome);
    es := [Park(k.c.sessionId)] + [Reset(k.c.sessionId, done)];
    StepsAppend(Alone(k, r, Parking(start, fallback)), [Park(k.c.sessionId)],
                Alone(k, parked, Resetting(start, fallback)), [Reset(k.c.sessionId, done)],
                Alone(k, AfterMove(parked, branch, wt, start, outcome), AfterResetting(done, fallback)));
  }

  /** The resetting checkouts: once, or once more from the base. */
  lemma OrdinarySteps(k: Call, r: Repo, ans: Answers) returns (es: seq<Event>)
    ensures Steps(Alone(k, r, Ordinary(JobOf(k.c, Finishing))), es,
                  Alone(k, AfterOrdinary(k.c, r, PathOf(k.c.sessionId), ans), Finishing))
  {
    var wt, branch := PathOf(k.c.sessionId), k.c.sessionBranch;
    if k.c.reuseExistingBranch {
      var pushed := Origin(branch);
      es := ParkAndReset(k, r, pushed, Some(Name(k.c.baseBranch)), ans.first);
      if !Resets(r, branch, wt, pushed, ans.first) {
        var once := AfterReset(r, branch, wt, pushed, ans.first);
        var again := ParkAndReset(k, once, Name(k.c.baseBranch), None, ans.second);
        StepsAppend(Alone(k, r, Parking(pushed, Some(Name(k.c.baseBranch)))), es,
                    Alone(k, once, Parking(Name(k.c.baseBranch), None)), again,
                    Alone(k, AfterOrdinary(k.c, r, wt, ans), Finishing));
        es := es + again;
      }
    } else {
      es := ParkAndReset(k, r, Origin(k.c.baseBranch), None, ans.first);
    }
  }

  lemma MakeBranchStep(k: Call, r: Repo, sha: Commit, ok: bool)
    requires ok ==> k.c.sessionBranch !in r.heads && sha < |r.graph|
    ensures Steps(Alone(k, r, MakingBranch(sha)), [MakeBranch(k.c.sessionId, ok)],
                  Alone(k, if ok then r.PointHead(k.c.sessionBranch, sha) else r,
                        if ok then CheckingOutRecovered else Ordinary(JobOf(k.c, Finishing))))
  {
    JobStep(k, r, MakingBranch(sha), MakeBranch(k.c.sessionId, ok));
  }

  lemma CheckOutStep(k: Call, r: Repo, stage: Stage, ok: bool)
    requires stage in {CheckingOutRecovered, CheckingOutPreserved}
    requires ok ==> k.c.sessionBranch in r.heads && r.CanCheckOut(PathOf(k.c.sessionId), k.c.sessionBranch)
    ensures Steps(Alone(k, r, stage), [CheckOut(k.c.sessionId, ok)],
                  Alone(k, if ok then r.CheckOut(PathOf(k.c.sessionId), k.c.sessionBranch) else r,
                        if !ok && stage.CheckingOutRecovered? then Ordinary(JobOf(k.c, Finishing)) else Finishing))
  {
    JobStep(k, r, stage, CheckOut(k.c.sessionId, ok));
  }

  /** Recovery, falling through to the resetting checkouts when it fails at either step. */
  lemma RecoverySteps(k: Call, r: Repo, sha: Commit, ans: Answers) returns (es: seq<Event>)
    requires k.c.sessionBranch !in r.heads && sha < |r.graph|
    ensures var wt := PathOf(k.c.sessionId);
      var recovered := AfterRecovery(k.c.sessionBranch, r, wt, sha, ans);
      Steps(Alone(k, r, MakingBranch(sha)), es,
            Alone(k, if Recovers(k.c.sessionBranch, r, wt, sha, ans) then recovered else AfterOrdinary(k.c, recovered, wt, ans), Finishing))
  {
    var wt := PathOf(k.c.sessionId);
    var recovered, ordinary := AfterRecovery(k.c.sessionBranch, r, wt, sha, ans), Ordinary(JobOf(k.c, Finishing));
    var made := ans.typeRead && ans.branchMade;
    MakeBranchStep(k, r, sha, made);
    es := [MakeBranch(k.c.sessionId, made)];
    var r1 := if made then r.PointHead(k.c.sessionBranch, sha) else r;
    if made {
      var out := ans.recoveredOut && r1.CanCheckOut(wt, k.c.sessionBranch);
      CheckOutStep(k, r1, CheckingOutRecovered, out);
      StepsAppend(Alone(k, r, MakingBranch(sha)), es, Alone(k, r1, CheckingOutRecovered), [CheckOut(k.c.sessionId, out)],
                  Alone(k, recovered, if out then Finishing else ordinary));
      es := es + [CheckOut(k.c.sessionId, out)];
    }
    if !Recovers(k.c.sessionBranch, r, wt, sha, ans) {
      var more := OrdinarySteps(k, recovered, ans);
      StepsAppend(Alone(k, r, MakingBranch(sha)), es, Alone(k, recovered, ordinary), more,
                  Alone(k, AfterOrdinary(k.c, recovered, wt, ans), Finishing));
      es := es + more;
    }
  }

  lemma ChooseStep(k: Call, r: Repo)
    ensures Steps(Alone(k, r, Choosing), [Choose(k.c.sessionId)], Alone(k, r, Chosen(JobOf(k.c, Finishing), r)))
  {
    JobStep(k, r, Choosing, Choose(k.c.sessionId));
  }

  lemma AfterChosen(k: Call, r: Repo, ans: Answers) returns (es: seq<Event>)
    ensures Steps(Alone(k, r, Chosen(JobOf(k.c, Finishing), r)), es, Alone(k, AfterChoice(k.c, r, PathOf(k.c.sessionId), ans), Finishing))
  {
    var chosen := Chosen(JobOf(k.c, Finishing), r);
    if chosen.MakingBranch? {
      es := RecoverySteps(k, r, chosen.sha, ans);
    } else if chosen.CheckingOutPreserved? {
      var out := ans.preservedOut && r.CanCheckOut(PathOf(k.c.sessionId), k.c.sessionBranch);
      CheckOutStep(k, r, CheckingOutPreserved, out);
      es := [CheckOut(k.c.sessionId, out)];
    } else {
      es := OrdinarySteps(k, r, ans);
    }
  }

  lemma ChoiceSteps(k: Call, r: Repo, ans: Answers) returns (es: seq<Event>)
    ensures Steps(Alone(k, r, Choosing), es, Alone(k, AfterChoice(k.c, r, PathOf(k.c.sessionId), ans), Finishing))
  {
    ChooseStep(k, r);
    var more := AfterChosen(k, r, ans);
    es := [Choose(k.c.sessionId)] + more;
    StepsAppend(Alone(k, r, Choosing), [Choose(k.c.sessionId)], Alone(k, r, Chosen(JobOf(k.c, Finishing), r)), more,
                Alone(k, AfterChoice(k.c, r, PathOf(k.c.sessionId), ans), Finishing));
  }

  lemma DiscardStep(k: Call, r: Repo, p: string)
    requires p in r.worktrees && r.worktrees[p] == k.c.sessionBranch && p != PathOf(k.c.sessionId) && p !in k.busy
    ensures Steps(Alone(k, r, Reconciling), [Discard(k.c.sessionId, p)], Alone(k, r.Unregister(p), Reconciling))
  {
    JobStep(k, r, Reconciling, Discard(k.c.sessionId, p));
  }

  /** Reconcile as a run: one removal after another. */
  lemma {:induction false} DiscardSteps(k: Call, r: Repo, paths: set<string>) returns (es: seq<Event>)
    requires forall p | p in paths :: Removable(r, p, k.c.sessionBranch, PathOf(k.c.sessionId), k.busy, {})
    ensures Steps(Alone(k, r, Reconciling), es, Alone(k, r.(worktrees := r.worktrees - paths), Reconciling))
    decreases |paths|
  {
    if paths == {} {
      assert r.worktrees - paths == r.worktrees;
      es := [];
    } else {
      var p :| p in paths;
      DiscardStep(k, r, p);
      var r1 := r.Unregister(p);
      var more := DiscardSteps(k, r1, paths - {p});
      assert r1.worktrees - (paths - {p}) == r.worktrees - paths;
      es := [Discard(k.c.sessionId, p)] + more;
      StepsAppend(Alone(k, r, Reconciling), [Discard(k.c.sessionId, p)], Alone(k, r1, Reconciling), more,
                  Alone(k, r.(worktrees := r.worktrees - paths), Reconciling));
    }
  }

  lemma ReconcileSteps(k: Call, r: Repo, stuck: set<string>) returns (es: seq<Event>)
    ensures Steps(Alone(k, r, Reconciling), es,
                  Alone(k, Released(r, k.c.sessionBranch, PathOf(k.c.sessionId), k.busy, stuck), Choosing))
  {
    var wt := PathOf(k.c.sessionId);
    var paths := set p | p in r.worktrees && Removable(r, p, k.c.sessionBranch, wt, k.busy, stuck);
    var done := Released(r, k.c.sessionBranch, wt, k.busy, stuck);
    assert done.worktrees == r.worktrees - paths;
    es := DiscardSteps(k, r, paths);
    JobStep(k, done, Reconciling, Reconciled(k.c.sessionId));
    StepsAppend(Alone(k, r, Reconciling), es, Alone(k, done, Reconciling), [Reconciled(k.c.sessionId)], Alone(k, done, Choosing));
    es := es + [Reconciled(k.c.sessionId)];
  }

  lemma FetchStep(k: Call, r: Repo, ans: Answers)
    requires r.graph <= ans.graph && forall b | b in ans.refs :: ans.refs[b] < |ans.graph|
    ensures Steps(Alone(k, r, Fetching), [Fetch(k.c.sessionId, ans.fetched, ans.graph, ans.refs)],
                  Alone(k, if ans.fetched then r.Fetched(ans.graph, ans.refs) else r, if ans.fetched then Reconciling else Finishing))
  {
    JobStep(k, r, Fetching, Fetch(k.c.sessionId, ans.fetched, ans.graph, ans.refs));
  }

  /** A call's effect on the repository is that of a run of its own job's steps. */
  lemma CallIsSteps(k: Call, r: Repo, ans: Answers) returns (es: seq<Event>)
    requires r.graph <= ans.graph && forall b | b in ans.refs :: ans.refs[b] < |ans.graph|
    ensures Steps(Alone(k, r, Fetching), es, Alone(k, AfterAllocation(k.c, r, ans, k.busy), Finishing))
  {
    FetchStep(k, r, ans);
    es := [Fetch(k.c.sessionId, ans.fetched, ans.graph, ans.refs)];
    if ans.fetched {
      var fetched := r.Fetched(ans.graph, ans.refs);
      var reconciled := Released(fetched, k.c.sessionBranch, PathOf(k.c.sessionId), k.busy, ans.stuck);
      var discards := ReconcileSteps(k, fetched, ans.stuck);
      var choice := ChoiceSteps(k, reconciled, ans);
      StepsAppend(Alone(k, r, Fetching), es, Alone(k, fetched, Reconciling), discards, Alone(k, reconciled, Choosing));
      StepsAppend(Alone(k, r, Fetching), es + discards, Alone(k, reconciled, Choosing), choice,
                  Alone(k, AfterAllocation(k.c, r, ans, k.busy), Finishing));
      es := es + discards + choice;
    }
  }

  // ---- From admission to the end ----------------------------------------------------------

  /** No job, the repository, and the tables. */
  function Quiet(k: Call, r: Repo): World { World(map[k.c.repoFullName := r], map[], k.busy, k.table) }

  function Entered(k: Call): Call {
    k.(busy := k.busy + {PathOf(k.c.sessionId)}, table := k.table[BranchKey(k.c.repoFullName, k.c.sessionBranch) := k.c.sessionId])
  }

  function Left(k: Call): Call {
    k.(busy := k.busy - {PathOf(k.c.sessionId)}, table := k.table - {BranchKey(k.c.repoFullName, k.c.sessionBranch)})
  }

  lemma BeginStep(k: Call, r: Repo)
    requires Admitted(Quiet(k, r), k.c.sessionId, JobOf(k.c, Fetching), false)
    ensures Steps(Quiet(k, r), [Begin(k.c.sessionId, JobOf(k.c, Fetching), false)], Alone(Entered(k), r, Fetching))
  {
    var w, w' := Quiet(k, r), Alone(Entered(k), r, Fetching);
    assert map[][k.c.sessionId := JobOf(k.c, Fetching)] == w'.jobs;
    OneStepIs(w, Begin(k.c.sessionId, JobOf(k.c, Fetching), false), w');
  }

  lemma FinishStep(k: Call, r: Repo)
    requires k.table == Entered(k).table
    ensures Steps(Alone(k, r, Finishing), [Finish(k.c.sessionId)], Quiet(Left(k), r))
  {
    var w, w' := Alone(k, r, Finishing), Quiet(Left(k), r);
    assert w.jobs - {k.c.sessionId} == map[];
    OneStepIs(w, Finish(k.c.sessionId), w');
  }

  /**
   * An admitted call nobody interrupts is a run of the machine from Begin to Finish that leaves the same repository and
   * the same tables.
   */
  lemma AllocationIsRun(k: Call, r: Repo, ans: Answers) returns (es: seq<Event>)
    requires r.graph <= ans.graph && forall b | b in ans.refs :: ans.refs[b] < |ans.graph|
    requires Admitted(Quiet(k, r), k.c.sessionId, JobOf(k.c, Fetching), false)
    ensures Steps(Quiet(k, r), es, Quiet(Left(k), AfterAllocation(k.c, r, ans, Entered(k).busy)))
  {
    var inside, after := Entered(k), AfterAllocation(k.c, r, ans, Entered(k).busy);
    BeginStep(k, r);
    var middle := CallIsSteps(inside, r, ans);
    FinishStep(inside, after);
    var first, last := [Begin(k.c.sessionId, JobOf(k.c, Fetching), false)], [Finish(k.c.sessionId)];
    StepsAppend(Quiet(k, r), first, Alone(inside, r, Fetching), middle, Alone(inside, after, Finishing));
    assert Left(inside).busy == Left(k).busy && Left(inside).table == Left(k).table;
    StepsAppend(Quiet(k, r), first + middle, Alone(inside, after, Finishing), last, Quiet(Left(k), after));
    es := first + middle + last;
  }
}
