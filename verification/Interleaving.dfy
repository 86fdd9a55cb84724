/**
 * Every interleaving of allocations, reverts, worker commits and releases, one git step at a time.
 *
 * A job is one call of `allocate` or `revertCommits`; its stage is the await it is suspended at.
 * The two in-flight tables are shared by all jobs, as they are module-level in the program.
 */
module Interleaving {
  import opened Prelude
  import opened CommitGraph
  import opened GitRefs

  datatype Stage =
    | Fetching
    | Reconciling
    | Choosing
    | MakingBranch(sha: Commit)           // recovery: create the missing branch on the recorded commit
    | CheckingOutRecovered
    | CheckingOutPreserved
    | Parking(start: Rev, fallback: Option<Rev>)    // rescueBranchIfAhead
    | Resetting(start: Rev, fallback: Option<Rev>)  // worktree add -B
    | Finishing

  datatype Job = Job(
    allocation: bool,                     // false: a revert, which takes no branch entry
    repo: string,
    branch: string,
    base: string,
    preserve: bool,
    reuse: bool,
    recover: Option<Commit>,
    stage: Stage)

  datatype World = World(
    repos: map<string, Repo>,
    jobs: map<string, Job>,               // by session id
    inFlightWorktrees: set<string>,
    inFlightBranches: map<string, string>)

  /** How a `worktree add -B` ends: a failure can come before or after it moved the ref. */
  datatype ResetOutcome = Done | FailedBefore | FailedAfterMovingRef

  datatype Event =
    | Begin(sid: string, job: Job, onDisk: bool)   // onDisk: something already exists at the worktree path
    | Fetch(sid: string, ok: bool, graph: Graph, refs: map<string, Commit>)
    | Discard(sid: string, path: string)  // reconcile force-removes another worktree
    | Reconciled(sid: string)
    | Choose(sid: string)
    | MakeBranch(sid: string, ok: bool)
    | CheckOut(sid: string, ok: bool)
    | Park(sid: string)
    | Reset(sid: string, outcome: ResetOutcome)
    | Finish(sid: string)
    | WorkerCommit(repo: string, path: string)
    | Release(repo: string, path: string)

  function BranchKey(repo: string, branch: string): string { repo + "#" + branch }

  /** Worktree paths are the worktrees root plus the session id, so distinct ids have distinct paths. */
  function PathOf(sid: string): string { "worktrees/" + sid }

  predicate Admitted(w: World, sid: string, job: Job, onDisk: bool) {
    && sid !in w.jobs
    && job.stage == Fetching
    && job.repo in w.repos
    && (job.allocation ==>
          !onDisk &&
          var key := BranchKey(job.repo, job.branch);
          // An entry whose holder is the empty string is falsy and stops nobody.
          key !in w.inFlightBranches || w.inFlightBranches[key] == "" || w.inFlightBranches[key] == sid)
  }

  predicate Running(w: World, sid: string) {
    sid in w.jobs && w.jobs[sid].repo in w.repos
  }

  predicate Enabled(w: World, e: Event) {
    match e
    case Begin(sid, job, onDisk) => Admitted(w, sid, job, onDisk)
    case Fetch(sid, ok, g, refs) =>
      && Running(w, sid) && w.jobs[sid].stage == Fetching
      && w.repos[w.jobs[sid].repo].graph <= g
      && (forall b | b in refs :: refs[b] < |g|)
    case Discard(sid, path) =>
      && Running(w, sid) && w.jobs[sid].stage == Reconciling
      && path in w.repos[w.jobs[sid].repo].worktrees
      && w.repos[w.jobs[sid].repo].worktrees[path] == w.jobs[sid].branch
      && path != PathOf(sid) && path !in w.inFlightWorktrees
    case Reconciled(sid) => Running(w, sid) && w.jobs[sid].stage == Reconciling
    case Choose(sid) => Running(w, sid) && w.jobs[sid].stage == Choosing
    case MakeBranch(sid, ok) =>
      && Running(w, sid) && w.jobs[sid].stage.MakingBranch?
      && (ok ==> w.jobs[sid].branch !in w.repos[w.jobs[sid].repo].heads
                 && w.jobs[sid].stage.sha < |w.repos[w.jobs[sid].repo].graph|)
    case CheckOut(sid, ok) =>
      && Running(w, sid) && w.jobs[sid].stage in {CheckingOutRecovered, CheckingOutPreserved}
      && (ok ==> w.jobs[sid].branch in w.repos[w.jobs[sid].repo].heads
                 && w.repos[w.jobs[sid].repo].CanCheckOut(PathOf(sid), w.jobs[sid].branch))
    case Park(sid) => Running(w, sid) && w.jobs[sid].stage.Parking?
    case Reset(sid, outcome) =>
      && Running(w, sid) && w.jobs[sid].stage.Resetting?
      && (!outcome.FailedBefore? ==>
            && w.repos[w.jobs[sid].repo].Resolve(w.jobs[sid].stage.start).Some?
            && w.repos[w.jobs[sid].repo].CanCheckOut(PathOf(sid), w.jobs[sid].branch))
    case Finish(sid) => Running(w, sid)
    case WorkerCommit(repo, path) =>
      repo in w.repos && path in w.repos[repo].worktrees && w.repos[repo].worktrees[path] in w.repos[repo].heads
      && w.repos[repo].Wf()
    case Release(repo, path) => repo in w.repos
  }

  /** Which of the checkout paths allocation takes. */
  function Chosen(job: Job, repo: Repo): Stage {
    var exists' := job.preserve && job.branch in repo.heads;
    if job.allocation && job.preserve && !exists' && job.recover.Some? && job.recover.value < |repo.graph| then
      MakingBranch(job.recover.value)
    else if job.allocation && exists' then CheckingOutPreserved
    else Ordinary(job)
  }

  /** The resetting checkouts: the pushed branch with the base as fallback, or the base at once. */
  function Ordinary(job: Job): Stage {
    if job.allocation && job.reuse then Parking(Origin(job.branch), Some(Name(job.base)))
    else Parking(Origin(job.base), None)
  }

  /** The repository a step changes, if it changes one. */
  function Touched(w: World, e: Event): Option<string>
    requires Enabled(w, e)
  {
    if e.WorkerCommit? || e.Release? then Some(e.repo)
    else if e.Discard? || e.Park? then Some(w.jobs[e.sid].repo)
    else if (e.Fetch? || e.MakeBranch? || e.CheckOut?) && e.ok then Some(w.jobs[e.sid].repo)
    else if e.Reset? && !e.outcome.FailedBefore? then Some(w.jobs[e.sid].repo)
    else None
  }

  function RepoAfter(w: World, e: Event): Repo
    requires Enabled(w, e) && Touched(w, e).Some?
  {
    var r := w.repos[Touched(w, e).value];
    if e.WorkerCommit? then r.Committed(r.worktrees[e.path])
    else if e.Release? then r.Unregister(e.path)
    else
      var job := w.jobs[e.sid];
      if e.Discard? then r.Unregister(e.path)
      else if e.Park? then r.Rescued(job.branch, job.stage.start)
      else if e.Fetch? then r.Fetched(e.graph, e.refs)
      else if e.MakeBranch? then r.PointHead(job.branch, job.stage.sha)
      else if e.CheckOut? then r.CheckOut(PathOf(e.sid), job.branch)
      else
        var moved := r.PointHead(job.branch, r.Resolve(job.stage.start).value);
        if e.outcome.Done? then moved.CheckOut(PathOf(e.sid), job.branch) else moved
  }

  /** The await a running job is suspended at after its own step. */
  function StageAfter(w: World, e: Event): Stage
    requires Enabled(w, e) && ByJob(e) && !e.Begin? && !e.Finish?
  {
    var job := w.jobs[e.sid];
    if e.Fetch? then (if !e.ok then Finishing else if job.allocation then Reconciling else Ordinary(job))
    else if e.Discard? then Reconciling
    else if e.Reconciled? then Choosing
    else if e.Choose? then Chosen(job, w.repos[job.repo])
    else if e.MakeBranch? then (if e.ok then CheckingOutRecovered else Ordinary(job))
    // A failed recovery falls through to the resetting paths; a failed preservation fails the call.
    else if e.CheckOut? then (if !e.ok && job.stage.CheckingOutRecovered? then Ordinary(job) else Finishing)
    else if e.Park? then Resetting(job.stage.start, job.stage.fallback)
    else if !e.outcome.Done? && job.stage.fallback.Some? then Parking(job.stage.fallback.value, None)
    else Finishing
  }

  function ReposAfter(w: World, e: Event): map<string, Repo>
    requires Enabled(w, e)
  {
    if Touched(w, e).Some? then w.repos[Touched(w, e).value := RepoAfter(w, e)] else w.repos
  }

  function Apply(w: World, e: Event): World
    requires Enabled(w, e)
  {
    if e.Begin? then
      w.(jobs := w.jobs[e.sid := e.job],
         inFlightWorktrees := w.inFlightWorktrees + {PathOf(e.sid)},
         inFlightBranches := if e.job.allocation then w.inFlightBranches[BranchKey(e.job.repo, e.job.branch) := e.sid]
                             else w.inFlightBranches)
    else if e.Finish? then
      var job := w.jobs[e.sid];
      var key := BranchKey(job.repo, job.branch);
      w.(jobs := w.jobs - {e.sid},
         inFlightWorktrees := w.inFlightWorktrees - {PathOf(e.sid)},
         inFlightBranches := if job.allocation && key in w.inFlightBranches && w.inFlightBranches[key] == e.sid
                             then w.inFlightBranches - {key} else w.inFlightBranches)
    else
      w.(repos := ReposAfter(w, e),
         jobs := if ByJob(e) then w.jobs[e.sid := w.jobs[e.sid].(stage := StageAfter(w, e))] else w.jobs)
  }

  /** Whether a running job takes the step, rather than a worker or a release. */
  predicate ByJob(e: Event) { !e.WorkerCommit? && !e.Release? }

  // ---- Mutual exclusion -------------------------------------------------------------------

  /** The in-flight tables say exactly which jobs are running, and no two allocations share a branch. */
  ghost predicate TablesAgree(w: World) {
    && (forall sid | sid in w.jobs :: PathOf(sid) in w.inFlightWorktrees)
    && (forall sid | sid in w.jobs && w.jobs[sid].allocation ::
          var key := BranchKey(w.jobs[sid].repo, w.jobs[sid].branch);
          key in w.inFlightBranches && w.inFlightBranches[key] == sid)
    && (forall key | key in w.inFlightBranches :: w.inFlightBranches[key] != "")
  }

  predicate Anonymous(e: Event) { e.Begin? && e.sid == "" }

  lemma TablesStayInAgreement(w: World, e: Event)
    requires TablesAgree(w) && Enabled(w, e) && !Anonymous(e)
    ensures TablesAgree(Apply(w, e))
  {
    var w' := Apply(w, e);
    forall sid | sid in w'.jobs ensures PathOf(sid) in w'.inFlightWorktrees {
      if e.Finish? {
        assert PathOf(sid)[|"worktrees/"|..] == sid && PathOf(e.sid)[|"worktrees/"|..] == e.sid;
      }
    }
  }

  /** Two running allocations never build the same branch of the same repository. */
  lemma Exclusive(w: World, a: string, b: string)
    requires TablesAgree(w) && a in w.jobs && b in w.jobs && a != b
    requires w.jobs[a].allocation && w.jobs[b].allocation
    ensures (w.jobs[a].repo, w.jobs[a].branch) != (w.jobs[b].repo, w.jobs[b].branch)
    ensures BranchKey(w.jobs[a].repo, w.jobs[a].branch) != BranchKey(w.jobs[b].repo, w.jobs[b].branch)
  {
    var keyA := BranchKey(w.jobs[a].repo, w.jobs[a].branch);
    assert w.inFlightBranches[keyA] == a;
  }

  // ---- No commit is ever lost -------------------------------------------------------------

  ghost predicate Armed(w: World, sid: string) {
    Running(w, sid) && w.jobs[sid].stage.Resetting?
  }

  ghost predicate Inv(w: World) {
    && TablesAgree(w)
    && (forall name | name in w.repos :: w.repos[name].Wf())
    && (forall sid | Armed(w, sid) ::
          Sheltered(w.repos[w.jobs[sid].repo], w.jobs[sid].branch, w.jobs[sid].stage.start))
  }

  /** No other actor turns an armed start point back or gives an unresolved one a meaning. */
  ghost predicate StartHolds(r: Repo, r': Repo, start: Rev) {
    r'.Resolve(start).Some? ==>
      r.Resolve(start).Some? && Reaches(r'.graph, r'.Resolve(start).value, r.Resolve(start).value)
  }

  ghost predicate TipHolds(r: Repo, r': Repo, branch: string) {
    branch in r'.heads ==> branch in r.heads && r'.heads[branch] == r.heads[branch]
  }

  /**
   * While a job sits between its rescue check and its reset, a step of somebody else leaves its start
   * point in place or moves it forward. Its branch must also stay put; of allocations that need not be
   * asked, because exclusion gives it, so it is asked of worker commits and reverts only.
   */
  ghost predicate Undisturbed(w: World, e: Event, sid: string)
    requires Enabled(w, e) && Armed(w, sid)
  {
    var w' := Apply(w, e);
    var job := w.jobs[sid];
    job.repo in w'.repos ==>
      && StartHolds(w.repos[job.repo], w'.repos[job.repo], job.stage.start)
      && ((TakenByAllocation(w, e) && job.allocation) || TipHolds(w.repos[job.repo], w'.repos[job.repo], job.branch))
  }

  predicate TakenByAllocation(w: World, e: Event) {
    ByJob(e) && e.sid in w.jobs && w.jobs[e.sid].allocation
  }

  ghost predicate Calm(w: World, e: Event)
    requires Enabled(w, e)
  {
    forall sid | Armed(w, sid) && !(ByJob(e) && e.sid == sid) :: Undisturbed(w, e, sid)
  }

  ghost predicate KeepsAll(w: World, w': World) {
    forall name | name in w.repos :: name in w'.repos && Keeps(w.repos[name], w'.repos[name])
  }

  /** A repository moved on without losing anything. */
  ghost predicate Grown(r: Repo, r': Repo) {
    r'.Wf() && Keeps(r, r') && r.graph <= r'.graph && r.rescue.Values <= r'.rescue.Values
  }

  /** Registering or removing worktrees leaves every ref alone. */
  lemma SameRefsGrown(r: Repo, moved: Repo, r': Repo)
    requires Grown(r, moved) && r'.graph == moved.graph && r'.heads == moved.heads
    requires r'.tracking == moved.tracking && r'.rescue == moved.rescue && r'.now == moved.now
    ensures Grown(r, r')
  {
    assert r'.Roots() == moved.Roots();
  }

  lemma ParkGrown(r: Repo, branch: string, start: Rev)
    requires r.Wf()
    ensures Grown(r, r.Rescued(branch, start))
  {
    RescueShelters(r, branch, start);
    ValuesGrow(r.rescue, r.Rescued(branch, start).rescue);
  }

  lemma ResetGrown(w: World, e: Event)
    requires Inv(w) && e.Reset? && Enabled(w, e) && !e.outcome.FailedBefore?
    ensures Grown(w.repos[w.jobs[e.sid].repo], RepoAfter(w, e))
  {
    var job := w.jobs[e.sid];
    var r := w.repos[job.repo];
    assert Armed(w, e.sid);
    ShelteredResetKeeps(r, job.branch, job.stage.start);
    var moved := r.PointHead(job.branch, r.Resolve(job.stage.start).value);
    SameRefsGrown(r, moved, RepoAfter(w, e));
  }

  ghost predicate AllWf(w: World) { forall name | name in w.repos :: w.repos[name].Wf() }

  /** The one step that can take a ref away from a commit. */
  predicate MovesBranch(e: Event) { e.Reset? && !e.outcome.FailedBefore? }

  /** Every other step keeps whatever it finds, in any state. */
  lemma QuietGrows(w: World, e: Event)
    requires AllWf(w) && Enabled(w, e) && Touched(w, e).Some? && !MovesBranch(e)
    ensures Grown(w.repos[Touched(w, e).value], RepoAfter(w, e))
  {
    var r := w.repos[Touched(w, e).value];
    if e.Fetch? { FetchKeeps(r, e.graph, e.refs); }
    else if e.MakeBranch? { NewHeadKeeps(r, w.jobs[e.sid].branch, w.jobs[e.sid].stage.sha); }
    else if e.Park? { ParkGrown(r, w.jobs[e.sid].branch, w.jobs[e.sid].stage.start); }
    else if e.WorkerCommit? { CommitKeeps(r, r.worktrees[e.path]); }
    else { SameRefsGrown(r, r, RepoAfter(w, e)); }
  }

  lemma TouchedGrows(w: World, e: Event)
    requires Inv(w) && Enabled(w, e) && Touched(w, e).Some?
    ensures Grown(w.repos[Touched(w, e).value], RepoAfter(w, e))
  {
    if MovesBranch(e) {
      ResetGrown(w, e);
    } else {
      QuietGrows(w, e);
    }
  }

  /** A step replaces at most the one repository it touches. */
  lemma ReposStep(w: World, e: Event)
    requires Enabled(w, e)
    ensures Apply(w, e).repos == ReposAfter(w, e) && Apply(w, e).repos.Keys == w.repos.Keys
    ensures Touched(w, e).Some? ==> Touched(w, e).value in w.repos
  {
  }

  /** How one step changes one repository. */
  lemma StepOnRepo(w: World, e: Event, name: string)
    requires Inv(w) && Enabled(w, e) && name in w.repos
    ensures Apply(w, e).repos.Keys == w.repos.Keys && Grown(w.repos[name], Apply(w, e).repos[name])
  {
    ReposStep(w, e);
    if Touched(w, e) == Some(name) {
      TouchedGrows(w, e);
    } else {
      assert Apply(w, e).repos[name] == w.repos[name];
      UntouchedGrown(w.repos[name]);
    }
  }

  lemma UntouchedGrown(r: Repo)
    requires r.Wf()
    ensures Grown(r, r)
  {
  }

  lemma ValuesGrow<K, V>(m: map<K, V>, m': map<K, V>)
    requires forall k | k in m :: k in m' && m'[k] == m[k]
    ensures m.Values <= m'.Values
  {
    forall v | v in m.Values ensures v in m'.Values {
      var k :| k in m && m[k] == v;
      assert m'[k] == v;
    }
  }

  lemma ShelterSurvives(r: Repo, r': Repo, branch: string, start: Rev)
    requires Sheltered(r, branch, start)
    requires r.graph <= r'.graph && r.rescue.Values <= r'.rescue.Values
    requires StartHolds(r, r', start) && TipHolds(r, r', branch)
    ensures Sheltered(r', branch, start)
  {
    if branch in r'.heads && r'.Resolve(start).Some? {
      var s, s', tip := r.Resolve(start).value, r'.Resolve(start).value, r.heads[branch];
      var c :| c in r.rescue.Values + {s} && Reaches(r.graph, c, tip);
      ReachesGrows(r.graph, r'.graph, c, tip);
      if c == s {
        ReachesTransitive(r'.graph, s', s, tip);
        assert s' in r'.rescue.Values + {s'};
      } else {
        assert c in r'.rescue.Values + {s'};
      }
    }
  }

  /** A job's step moves no head but its own branch's. */
  lemma JobMovesOwnHeadOnly(w: World, e: Event, branch: string)
    requires Enabled(w, e) && ByJob(e) && Touched(w, e).Some? && branch != w.jobs[e.sid].branch
    ensures TipHolds(w.repos[Touched(w, e).value], RepoAfter(w, e), branch)
  {
  }

  /** An allocation's own step never touches the branch another allocation is building. */
  lemma AllocationsKeepOffOthersBranches(w: World, e: Event, sid: string)
    requires Inv(w) && Enabled(w, e) && TakenByAllocation(w, e)
    requires Armed(w, sid) && w.jobs[sid].allocation && e.sid != sid
    ensures TipHolds(w.repos[w.jobs[sid].repo], Apply(w, e).repos[w.jobs[sid].repo], w.jobs[sid].branch)
  {
    if Touched(w, e) == Some(w.jobs[sid].repo) {
      Exclusive(w, e.sid, sid);
      JobMovesOwnHeadOnly(w, e, w.jobs[sid].branch);
    }
  }

  /** A job waiting to reset stays safe through a step of somebody else. */
  lemma ShelterKept(w: World, e: Event, sid: string)
    requires Inv(w) && Enabled(w, e) && Armed(w, sid) && !(ByJob(e) && e.sid == sid)
    requires Undisturbed(w, e, sid)
    ensures var job := w.jobs[sid];
      job.repo in Apply(w, e).repos && Sheltered(Apply(w, e).repos[job.repo], job.branch, job.stage.start)
  {
    var job := w.jobs[sid];
    StepOnRepo(w, e, job.repo);
    if TakenByAllocation(w, e) && job.allocation {
      AllocationsKeepOffOthersBranches(w, e, sid);
    }
    ShelterSurvives(w.repos[job.repo], Apply(w, e).repos[job.repo], job.branch, job.stage.start);
  }

  /** A job is armed after a step of somebody else only if it was armed before. */
  lemma OthersStayPut(w: World, e: Event, sid: string)
    requires Enabled(w, e) && Armed(Apply(w, e), sid) && !(ByJob(e) && e.sid == sid)
    ensures Armed(w, sid) && Apply(w, e).jobs[sid] == w.jobs[sid]
  {
    ReposStep(w, e);
  }

  lemma OneStepShelters(w: World, e: Event, sid: string)
    requires Inv(w) && Enabled(w, e) && Calm(w, e) && Armed(Apply(w, e), sid)
    ensures var w' := Apply(w, e);
      Sheltered(w'.repos[w'.jobs[sid].repo], w'.jobs[sid].branch, w'.jobs[sid].stage.start)
  {
    if ByJob(e) && e.sid == sid {
      ArmedByParking(w, e);
    } else {
      OthersStayPut(w, e, sid);
      ShelterKept(w, e, sid);
    }
  }

  lemma OneStep(w: World, e: Event)
    requires Inv(w) && Enabled(w, e) && !Anonymous(e) && Calm(w, e)
    ensures Inv(Apply(w, e)) && KeepsAll(w, Apply(w, e))
  {
    var w' := Apply(w, e);
    TablesStayInAgreement(w, e);
    forall name | name in w.repos ensures w'.repos.Keys == w.repos.Keys && Grown(w.repos[name], w'.repos[name]) {
      StepOnRepo(w, e, name);
    }
    assert w'.repos.Keys == w.repos.Keys;
    forall sid | Armed(w', sid) ensures Sheltered(w'.repos[w'.jobs[sid].repo], w'.jobs[sid].branch, w'.jobs[sid].stage.start) {
      OneStepShelters(w, e, sid);
    }
  }

  lemma ArmedByParking(w: World, e: Event)
    requires Inv(w) && Enabled(w, e) && ByJob(e) && Armed(Apply(w, e), e.sid)
    ensures var w', sid := Apply(w, e), e.sid;
      Sheltered(w'.repos[w'.jobs[sid].repo], w'.jobs[sid].branch, w'.jobs[sid].stage.start)
  {
    if e.Park? {
      RescueShelters(w.repos[w.jobs[e.sid].repo], w.jobs[e.sid].branch, w.jobs[e.sid].stage.start);
    }
  }

  // ---- Whole runs -------------------------------------------------------------------------

  /** Nothing running yet, over repositories in any state. */
  ghost predicate Initial(w: World) {
    && w.jobs == map[] && w.inFlightWorktrees == {} && w.inFlightBranches == map[]
    && forall name | name in w.repos :: w.repos[name].Wf()
  }

  /** A run of enabled steps in which every allocation has a session id. */
  ghost predicate Run(ws: seq<World>, es: seq<Event>) {
    && |ws| == |es| + 1
    && Initial(ws[0])
    && forall k | 0 <= k < |es| :: Enabled(ws[k], es[k]) && !Anonymous(es[k]) && ws[k + 1] == Apply(ws[k], es[k])
  }

  ghost predicate CalmRun(ws: seq<World>, es: seq<Event>) {
    Run(ws, es) && forall k | 0 <= k < |es| :: Calm(ws[k], es[k])
  }

  lemma {:induction false} RunInvariant(ws: seq<World>, es: seq<Event>, k: nat)
    requires CalmRun(ws, es) && k <= |es|
    ensures Inv(ws[k])
  {
    if k > 0 {
      RunInvariant(ws, es, k - 1);
      OneStep(ws[k - 1], es[k - 1]);
    }
  }

  lemma NextKeepsAll(ws: seq<World>, es: seq<Event>, k: nat)
    requires CalmRun(ws, es) && k < |es|
    ensures KeepsAll(ws[k], ws[k + 1])
  {
    RunInvariant(ws, es, k);
    OneStep(ws[k], es[k]);
  }

  lemma {:induction false} ChainKeepsAll(ws: seq<World>, i: nat, j: nat)
    requires i <= j < |ws| && forall k | i <= k < j :: KeepsAll(ws[k], ws[k + 1])
    ensures KeepsAll(ws[i], ws[j])
    decreases j
  {
    if i < j {
      ChainKeepsAll(ws, i, j - 1);
      assert KeepsAll(ws[j - 1], ws[j - 1 + 1]);
    }
  }

  /**
   * Whatever a local head or rescue ref reaches at one point of a run, one still reaches at every later
   * point, in every repository.
   */
  lemma RunKeepsCommits(ws: seq<World>, es: seq<Event>, i: nat, j: nat)
    requires CalmRun(ws, es) && i <= j <= |es|
    ensures KeepsAll(ws[i], ws[j])
  {
    forall k | i <= k < j ensures KeepsAll(ws[k], ws[k + 1]) {
      NextKeepsAll(ws, es, k);
    }
    ChainKeepsAll(ws, i, j);
  }

  /**
   * At every point of every run, calm or not, the tables agree with the running jobs: two allocations are
   * never in flight on one branch, and each holds its own entry until it finishes.
   */
  lemma {:induction false} RunExcludes(ws: seq<World>, es: seq<Event>, k: nat)
    requires Run(ws, es) && k <= |es|
    ensures TablesAgree(ws[k])
    ensures forall a, b | a in ws[k].jobs && b in ws[k].jobs && a != b
                          && ws[k].jobs[a].allocation && ws[k].jobs[b].allocation ::
              (ws[k].jobs[a].repo, ws[k].jobs[a].branch) != (ws[k].jobs[b].repo, ws[k].jobs[b].branch)
  {
    if k > 0 {
      RunExcludes(ws, es, k - 1);
      TablesStayInAgreement(ws[k - 1], es[k - 1]);
    }
    forall a, b | a in ws[k].jobs && b in ws[k].jobs && a != b && ws[k].jobs[a].allocation && ws[k].jobs[b].allocation
      ensures (ws[k].jobs[a].repo, ws[k].jobs[a].branch) != (ws[k].jobs[b].repo, ws[k].jobs[b].branch)
    {
      Exclusive(ws[k], a, b);
    }
  }

  /** Reconcile never removes a worktree that a running job is building, in any repository. */
  lemma DiscardSparesBuilders(ws: seq<World>, es: seq<Event>, k: nat, other: string, name: string)
    requires Run(ws, es) && k < |es| && es[k].Discard?
    requires other in ws[k].jobs && name in ws[k].repos && PathOf(other) in ws[k].repos[name].worktrees
    ensures name in ws[k + 1].repos && PathOf(other) in ws[k + 1].repos[name].worktrees
    ensures ws[k + 1].repos[name].worktrees[PathOf(other)] == ws[k].repos[name].worktrees[PathOf(other)]
  {
    RunExcludes(ws, es, k);
    assert Enabled(ws[k], es[k]) && PathOf(other) in ws[k].inFlightWorktrees;
  }

  // ---- Where the guarantees stop ----------------------------------------------------------

  /**
   * A second allocation of a branch already in flight, with nothing at its own path, is admitted exactly when the
   * first one's session id is empty: the holder is tested for truth, and the empty string is false. The path of an
   * empty id is the worktrees root itself, so such a first allocation is refused wherever that root exists.
   */
  lemma SecondAdmittedIff(w: World, first: string, job: Job, second: string, again: Job, onDisk: bool)
    requires Enabled(w, Begin(first, job, false)) && job.allocation
    requires second !in w.jobs && second != first && again.allocation && again.stage == Fetching
    requires again.repo == job.repo && again.branch == job.branch
    ensures Enabled(Apply(w, Begin(first, job, false)), Begin(second, again, onDisk)) <==> !onDisk && first == ""
  {
    assert Apply(w, Begin(first, job, false)).inFlightBranches[BranchKey(job.repo, job.branch)] == first;
  }

  /** The step leaves the old tip of the branch it moves within reach of what remains. */
  predicate SafeStep(w: World, e: Event)
    requires Enabled(w, e)
  {
    MovesBranch(e) ==>
      var job := w.jobs[e.sid];
      var r := w.repos[job.repo];
      job.branch in r.heads ==>
        Covered(r.graph, (r.heads - {job.branch}).Values + r.rescue.Values + {r.Resolve(job.stage.start).value}, r.heads[job.branch])
  }

  /** A reset step loses work exactly when neither the start point nor any other ref reaches the old tip. */
  lemma ResetLosesIff(w: World, e: Event)
    requires AllWf(w) && Enabled(w, e) && MovesBranch(e)
    ensures RepoAfter(w, e).Wf() && (Keeps(w.repos[w.jobs[e.sid].repo], RepoAfter(w, e)) <==> SafeStep(w, e))
  {
    var job := w.jobs[e.sid];
    var r := w.repos[job.repo];
    var s := r.Resolve(job.stage.start).value;
    assert r.Wf() && s < |r.graph|;
    if job.branch in r.heads {
      ResetKeepsIff(r, job.branch, s);
    } else {
      NewHeadKeeps(r, job.branch, s);
    }
    var moved, r' := r.PointHead(job.branch, s), RepoAfter(w, e);
    assert r'.graph == moved.graph && r'.Roots() == moved.Roots();
    assert forall c :: r'.Protected(c) <==> moved.Protected(c);
  }

  /** In any state, a step keeps every protected commit exactly when it is safe. */
  lemma StepKeepsIff(w: World, e: Event)
    requires AllWf(w) && Enabled(w, e)
    ensures AllWf(Apply(w, e)) && (KeepsAll(w, Apply(w, e)) <==> SafeStep(w, e))
  {
    ReposStep(w, e);
    var touched, w' := Touched(w, e), Apply(w, e);
    if touched.Some? {
      if MovesBranch(e) {
        ResetLosesIff(w, e);
      } else {
        QuietGrows(w, e);
      }
      assert w'.repos[touched.value] == RepoAfter(w, e);
    }
    forall name | name in w.repos && touched != Some(name) ensures w'.repos[name].Wf() && Keeps(w.repos[name], w'.repos[name]) {
      assert w'.repos[name] == w.repos[name];
    }
  }

  lemma {:induction false} RunWf(ws: seq<World>, es: seq<Event>, k: nat)
    requires Run(ws, es) && k <= |es|
    ensures AllWf(ws[k])
  {
    if k > 0 {
      RunWf(ws, es, k - 1);
      StepKeepsIff(ws[k - 1], es[k - 1]);
    }
  }

  ghost predicate SafeRun(ws: seq<World>, es: seq<Event>)
    requires Run(ws, es)
  {
    forall k | 0 <= k < |es| :: SafeAt(ws, es, k)
  }

  ghost predicate SafeAt(ws: seq<World>, es: seq<Event>, k: int)
    requires Run(ws, es) && 0 <= k < |es|
  {
    assert Enabled(ws[k], es[k]);
    SafeStep(ws[k], es[k])
  }

  /** Whatever is protected at one point is protected at every later one. */
  ghost predicate NothingLost(ws: seq<World>) {
    forall i, j | 0 <= i <= j < |ws| :: KeepsAll(ws[i], ws[j])
  }

  lemma KeepsAtIff(ws: seq<World>, es: seq<Event>, k: nat)
    requires Run(ws, es) && k < |es|
    ensures KeepsAll(ws[k], ws[k + 1]) <==> SafeAt(ws, es, k)
  {
    RunWf(ws, es, k);
    StepKeepsIff(ws[k], es[k]);
  }

  /**
   * Over every run, calm or not: no commit that is protected at some point is ever unprotected later, exactly when
   * every reset finds its branch absent or the old tip within reach of another head, a rescue ref or the start point.
   */
  lemma RunKeepsIff(ws: seq<World>, es: seq<Event>)
    requires Run(ws, es)
    ensures NothingLost(ws) <==> SafeRun(ws, es)
  {
    forall k: nat | k < |es| ensures KeepsAll(ws[k], ws[k + 1]) <==> SafeAt(ws, es, k) {
      KeepsAtIff(ws, es, k);
    }
    if SafeRun(ws, es) {
      forall i, j | 0 <= i <= j < |ws| ensures KeepsAll(ws[i], ws[j]) {
        forall k | i <= k < j ensures KeepsAll(ws[k], ws[k + 1]) {
          assert SafeAt(ws, es, k);
        }
        ChainKeepsAll(ws, i, j);
      }
    }
    if NothingLost(ws) {
      forall k | 0 <= k < |es| ensures SafeAt(ws, es, k) {
        assert KeepsAll(ws[k], ws[k + 1]);
      }
    }
  }

  // ---- The race ---------------------------------------------------------------------------

  /** Session "s" builds "b" on origin/main while worktree "old" still has "b" checked out. */
  function RaceRepo(graph: Graph, tip: Commit, worktrees: map<string, string>): Repo {
    Repo(graph, map["b" := tip], map["main" := 0], map[], worktrees, 0)
  }

  const RACE_START := RaceRepo([{}], 0, map["old" := "b"])

  function RaceJob(stage: Stage): Job { Job(true, "r", "b", "main", false, false, None, stage) }

  function RaceWorld(repo: Repo, stage: Stage): World {
    World(map["r" := repo], map["s" := RaceJob(stage)], {PathOf("s")}, map[BranchKey("r", "b") := "s"])
  }

  const PARKING := Parking(Origin("main"), None)
  const RESETTING := Resetting(Origin("main"), None)

  lemma RaceResolves(graph: Graph, tip: Commit, worktrees: map<string, string>)
    ensures RaceRepo(graph, tip, worktrees).Resolve(Origin("main")) == Some(0)
  {
    assert Origin("main").name == "origin/main" && "origin/main"[|ORIGIN|..] == "main";
    assert "origin/main" != "b";
  }

  /** From nothing running to the job's choice of a checkout path. */
  lemma RaceBegins()
    ensures var w, e := World(map["r" := RACE_START], map[], {}, map[]), Begin("s", RaceJob(Fetching), false);
      Initial(w) && Enabled(w, e) && Apply(w, e) == RaceWorld(RACE_START, Fetching)
  {
    assert RACE_START.Wf();
  }

  lemma RaceFetches()
    ensures var w, e := RaceWorld(RACE_START, Fetching), Fetch("s", true, [{}], map["main" := 0]);
      Enabled(w, e) && Apply(w, e) == RaceWorld(RACE_START, Reconciling)
  {
    assert RACE_START.Fetched([{}], map["main" := 0]) == RACE_START;
  }

  lemma RaceReconciles()
    ensures var w, e := RaceWorld(RACE_START, Reconciling), Reconciled("s");
      Enabled(w, e) && Apply(w, e) == RaceWorld(RACE_START, Choosing)
    ensures var w, e := RaceWorld(RACE_START, Choosing), Choose("s");
      Enabled(w, e) && Apply(w, e) == RaceWorld(RACE_START, PARKING)
  {
  }

  /** There is nothing to park yet. */
  lemma RaceParks()
    ensures var w, e := RaceWorld(RACE_START, PARKING), Park("s");
      Enabled(w, e) && Apply(w, e) == RaceWorld(RACE_START, RESETTING)
  {
    RaceResolves([{}], 0, map["old" := "b"]);
    assert RACE_START.Wf();
    DoomedEmptyIff(RACE_START, "b", 0);
    assert RACE_START.Rescued("b", Origin("main")) == RACE_START;
  }

  lemma RaceCommits()
    ensures var w, e := RaceWorld(RACE_START, RESETTING), WorkerCommit("r", "old");
      Enabled(w, e) && Apply(w, e) == RaceWorld(RaceRepo([{}, {0}], 1, map["old" := "b"]), RESETTING)
  {
    assert RACE_START.Wf() && RACE_START.graph + [{0}] == [{}, {0}];
    assert RACE_START.Committed("b") == RaceRepo([{}, {0}], 1, map["old" := "b"]);
  }

  lemma RaceReleases()
    ensures var w, e := RaceWorld(RaceRepo([{}, {0}], 1, map["old" := "b"]), RESETTING), Release("r", "old");
      Enabled(w, e) && Apply(w, e) == RaceWorld(RaceRepo([{}, {0}], 1, map[]), RESETTING)
  {
    var r := RaceRepo([{}, {0}], 1, map["old" := "b"]);
    assert r.worktrees - {"old"} == map[];
  }

  lemma RaceCanReset()
    ensures Enabled(RaceWorld(RaceRepo([{}, {0}], 1, map[]), RESETTING), Reset("s", Done))
  {
    RaceResolves([{}, {0}], 1, map[]);
  }

  lemma RaceRepoReset()
    requires Enabled(RaceWorld(RaceRepo([{}, {0}], 1, map[]), RESETTING), Reset("s", Done))
    ensures var w, e := RaceWorld(RaceRepo([{}, {0}], 1, map[]), RESETTING), Reset("s", Done);
      Touched(w, e) == Some("r") && RepoAfter(w, e) == RaceRepo([{}, {0}], 0, map[PathOf("s") := "b"])
  {
    RaceResolves([{}, {0}], 1, map[]);
  }

  lemma RaceResets()
    ensures var w, e := RaceWorld(RaceRepo([{}, {0}], 1, map[]), RESETTING), Reset("s", Done);
      Enabled(w, e) && Apply(w, e) == RaceWorld(RaceRepo([{}, {0}], 0, map[PathOf("s") := "b"]), Finishing)
  {
    RaceCanReset();
    RaceRepoReset();
  }

  /** Once the race is over the branch is back at the base and nothing else holds commit 1. */
  lemma RaceEnds(worktrees: map<string, string>)
    ensures !RaceRepo([{}, {0}], 0, worktrees).Protected(1)
  {
    var r := RaceRepo([{}, {0}], 0, worktrees);
    forall c | c in r.Roots() ensures !Reaches(r.graph, c, 1) {
      assert r.rescue.Values == {};
      var b :| b in r.heads && r.heads[b] == c;
    }
  }

  lemma RaceCommitProtected(worktrees: map<string, string>)
    ensures RaceRepo([{}, {0}], 1, worktrees).Protected(1)
  {
    var r := RaceRepo([{}, {0}], 1, worktrees);
    assert r.heads["b"] == 1 && 1 in r.Roots() && Reaches(r.graph, 1, 1);
  }

  function RaceEvent(k: nat): Event {
    if k == 0 then Begin("s", RaceJob(Fetching), false)
    else if k == 1 then Fetch("s", true, [{}], map["main" := 0])
    else if k == 2 then Reconciled("s")
    else if k == 3 then Choose("s")
    else if k == 4 then Park("s")
    else if k == 5 then WorkerCommit("r", "old")
    else if k == 6 then Release("r", "old")
    else Reset("s", Done)
  }

  function RaceAt(k: nat): World {
    if k == 0 then World(map["r" := RACE_START], map[], {}, map[])
    else if k == 1 then RaceWorld(RACE_START, Fetching)
    else if k == 2 then RaceWorld(RACE_START, Reconciling)
    else if k == 3 then RaceWorld(RACE_START, Choosing)
    else if k == 4 then RaceWorld(RACE_START, PARKING)
    else if k == 5 then RaceWorld(RACE_START, RESETTING)
    else if k == 6 then RaceWorld(RaceRepo([{}, {0}], 1, map["old" := "b"]), RESETTING)
    else if k == 7 then RaceWorld(RaceRepo([{}, {0}], 1, map[]), RESETTING)
    else RaceWorld(RaceRepo([{}, {0}], 0, map[PathOf("s") := "b"]), Finishing)
  }

  lemma RaceLoses()
    ensures RaceAt(6).repos.Keys == RaceAt(8).repos.Keys == {"r"}
    ensures RaceAt(6).repos["r"].Protected(1) && !RaceAt(8).repos["r"].Protected(1)
  {
    RaceCommitProtected(map["old" := "b"]);
    RaceEnds(map[PathOf("s") := "b"]);
  }

  ghost predicate StepsTo(w: World, e: Event, w': World) { Enabled(w, e) && !Anonymous(e) && w' == Apply(w, e) }

  lemma RaceStarts(k: nat)
    requires k < 4
    ensures StepsTo(RaceAt(k), RaceEvent(k), RaceAt(k + 1))
  {
    if k == 0 { RaceBegins(); } else if k == 1 { RaceFetches(); } else { RaceReconciles(); }
  }

  lemma RaceGoesOn(k: nat)
    requires 4 <= k < 8
    ensures StepsTo(RaceAt(k), RaceEvent(k), RaceAt(k + 1))
  {
    if k == 4 { RaceParks(); } else if k == 5 { RaceCommits(); } else if k == 6 { RaceReleases(); } else { RaceResets(); }
  }

  lemma RunFromSteps(ws: seq<World>, es: seq<Event>)
    requires |ws| == |es| + 1 && Initial(ws[0]) && forall k | 0 <= k < |es| :: StepsTo(ws[k], es[k], ws[k + 1])
    ensures Run(ws, es)
  {
    forall k | 0 <= k < |es| ensures Enabled(ws[k], es[k]) && !Anonymous(es[k]) && ws[k + 1] == Apply(ws[k], es[k]) {
      assert StepsTo(ws[k], es[k], ws[k + 1]);
    }
  }

  /**
   * The calm condition cannot be dropped. In this run from an idle world, a worktree that reconcile failed to remove
   * commits on the branch between the rescue check and the reset, is released, and its commit is lost.
   */
  lemma CommitInTheWindowIsLost() returns (ws: seq<World>, es: seq<Event>)
    ensures Run(ws, es) && |es| == 8
    ensures es[5] == WorkerCommit("r", "old") && es[7] == Reset("s", Done)
    ensures "r" in ws[6].repos && "r" in ws[8].repos
    ensures ws[6].repos["r"].Protected(1) && !ws[8].repos["r"].Protected(1)
  {
    ws, es := seq(9, k requires 0 <= k => RaceAt(k)), seq(8, k requires 0 <= k => RaceEvent(k));
    forall k | 0 <= k < 8 ensures StepsTo(ws[k], es[k], ws[k + 1]) {
      if k < 4 { RaceStarts(k); } else { RaceGoesOn(k); }
    }
    RaceBegins();
    RunFromSteps(ws, es);
    RaceLoses();
  }
}
