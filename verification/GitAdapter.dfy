/**
 * The worktree adapter, one call at a time: allocation, reconciliation, rescue, reverts and the
 * ledger-reachability check. What git answers is a parameter; the bare repository is a field.
 */
module GitAdapter {
  import opened Prelude
  import opened CommitGraph
  import opened GitRefs
  import opened Interleaving
  import opened AllocationSteps

  datatype Decision = Decision(
    path: CheckoutPath,
    branch: string,
    startPoint: Rev,
    preserveRequested: bool,
    localBranchExists: bool,
    tipBefore: Option<Commit>)

  datatype Allocation =
    | Allocated(path: string, reported: seq<Decision>)
    | AlreadyOnDisk
    | BranchTaken(holder: string)
    | Threw(reported: seq<Decision>)
  {
    function Reported(): seq<Decision> { if Allocated? || Threw? then reported else [] }

    /** The path of the decision reported, if one was. */
    function Taken(): Option<CheckoutPath> { if |Reported()| == 1 then Some(Reported()[0].path) else None }
  }

  /** A commit as the ledger recorded it. */
  datatype Recorded = Blank | Known(commit: Commit) | Bogus

  /** One reported decision, naming where the branch was left. */
  ghost predicate DecisionNamesBranch(r: Repo, branch: string, reported: seq<Decision>) {
    && |reported| == 1
    && branch in r.heads
    && reported[0].branch == branch
    && r.Resolve(reported[0].startPoint) == Some(r.heads[branch])
  }

  /** Which session id the table names for the branch; empty when it names none. */
  function Holder(table: map<string, string>, ctx: Context): string {
    var key := BranchKey(ctx.repoFullName, ctx.sessionBranch);
    if key in table then table[key] else ""
  }

  /** The decision is the one the request and the branch's absence or presence call for. */
  predicate DecisionFits(ctx: Context, existed: bool, d: Decision) {
    && d.preserveRequested == ctx.preserveLocalBranch
    && d.localBranchExists == (ctx.preserveLocalBranch && existed)
    && (d.path == PreserveLocal <==> ctx.preserveLocalBranch && existed)
    && d.startPoint == match d.path
                       case PreserveLocal => Name(ctx.sessionBranch)
                       case RecoveredLocal => Sha(ctx.recoverBranchFromSha.GetOr(0))
                       case ReuseRemote => Origin(ctx.sessionBranch)
                       case ResetToBase => if ctx.reuseExistingBranch then Name(ctx.baseBranch) else Origin(ctx.baseBranch)
  }

  /** A branch moved to a start point leaves the start point resolving to where the branch now is. */
  lemma ResolvesAfterReset(r: Repo, branch: string, start: Rev)
    requires r.Resolve(start).Some?
    ensures r.PointHead(branch, r.Resolve(start).value).Resolve(start) == r.Resolve(start)
  {
  }

  /** A commit on a branch keeps what it stood on and every other name. */
  lemma CommitOnTop(r: Repo, branch: string, onto: Commit, other: Rev)
    requires r.Wf() && branch in r.heads && Reaches(r.graph, r.heads[branch], onto)
    ensures var r' := r.Committed(branch);
      && r'.Wf() && Keeps(r, r') && |r'.graph| == |r.graph| + 1 && branch in r'.heads
      && Reaches(r'.graph, r'.heads[branch], onto)
      && (r.Resolve(other).Some? ==> r'.Resolve(other).Some? && (other != Name(branch) ==> r'.Resolve(other) == r.Resolve(other)))
  {
    CommitKeeps(r, branch);
    var r' := r.Committed(branch);
    ReachesGrows(r.graph, r'.graph, r.heads[branch], onto);
    assert r.heads[branch] in r'.graph[|r.graph|];
  }

  class Adapter {
    var repo: Repo
    var inFlightWorktrees: set<string>
    var inFlightBranches: map<string, string>

    constructor (repo: Repo)
      requires repo.Wf()
      ensures this.repo == repo && inFlightWorktrees == {} && inFlightBranches == map[]
    {
      this.repo := repo;
      inFlightWorktrees, inFlightBranches := {}, map[];
    }

    method Allocate(ctx: Context, ans: Answers) returns (r: Allocation)
      requires repo.Wf() && repo.graph <= ans.graph && (forall b | b in ans.refs :: ans.refs[b] < |ans.graph|)
      requires forall p | p in repo.worktrees :: p in ans.listing
      modifies this
      ensures repo.Wf() && Keeps(old(repo), repo)
      // What the call does to the repository, and with AllocationIsRun what its steps do.
      ensures !r.AlreadyOnDisk? && !r.BranchTaken? ==>
        repo == AfterAllocation(ctx, old(repo), ans, old(inFlightWorktrees) + {PathOf(ctx.sessionId)})
      // Which path the call takes; CallComesTo tells it and the repository from the request and git's answers alone.
      ensures !r.AlreadyOnDisk? && !r.BranchTaken? ==>
        r.Taken() == TakenBy(ctx, old(repo), ans, old(inFlightWorktrees) + {PathOf(ctx.sessionId)})
      ensures r.Allocated? <==> r.Taken().Some? && (ans.configured || r.Taken() == Some(RecoveredLocal))
      // Refusals touch nothing.
      ensures r.AlreadyOnDisk? <==> ans.onDisk
      ensures r.BranchTaken? <==> !ans.onDisk && Holder(old(inFlightBranches), ctx) !in {"", ctx.sessionId}
      ensures r.BranchTaken? ==> r.holder == Holder(old(inFlightBranches), ctx)
      ensures r.AlreadyOnDisk? || r.BranchTaken? ==>
        repo == old(repo) && inFlightWorktrees == old(inFlightWorktrees) && inFlightBranches == old(inFlightBranches)
      // Otherwise both in-flight entries are gone again, however the call ended.
      ensures !r.AlreadyOnDisk? && !r.BranchTaken? ==>
        && inFlightWorktrees == old(inFlightWorktrees) - {PathOf(ctx.sessionId)}
        && inFlightBranches == old(inFlightBranches) - {BranchKey(ctx.repoFullName, ctx.sessionBranch)}
      ensures r.Allocated? ==>
        && r.path == PathOf(ctx.sessionId)
        && r.path in repo.worktrees && repo.worktrees[r.path] == ctx.sessionBranch
        && DecisionNamesBranch(repo, ctx.sessionBranch, r.reported)
      ensures |r.Reported()| <= 1
      ensures r.Allocated? ==> DecisionFits(ctx, ctx.sessionBranch in old(repo).heads, r.reported[0])
      // Preservation: the branch is where it was, and only its worktree registration is new.
      ensures r.Allocated? && ctx.preserveLocalBranch && ctx.sessionBranch in old(repo).heads ==>
        && repo.heads == old(repo).heads && repo.rescue == old(repo).rescue
        && r.reported[0].path == PreserveLocal
        && r.reported[0].tipBefore == Some(old(repo).heads[ctx.sessionBranch])
      // Recovery: a missing branch comes back on the recorded commit.
      ensures r.Allocated? && r.reported[0].path == RecoveredLocal ==>
        && ctx.recoverBranchFromSha.Some? && ctx.sessionBranch !in old(repo).heads
        && repo.heads == old(repo).heads[ctx.sessionBranch := ctx.recoverBranchFromSha.value]
      ensures !ans.onDisk && !r.BranchTaken? && ans.fetched && ctx.preserveLocalBranch
              && ctx.sessionBranch !in old(repo).heads
              && ctx.recoverBranchFromSha.Some? && ctx.recoverBranchFromSha.value < |ans.graph|
              && ans.typeRead && ans.branchMade && ans.recoveredOut
              && old(repo).CanCheckOut(PathOf(ctx.sessionId), ctx.sessionBranch) ==>
        r.Allocated? && r.reported[0].path == RecoveredLocal
    {
      var wt := PathOf(ctx.sessionId);
      if ans.onDisk {
        return AlreadyOnDisk;
      }
      var key := BranchKey(ctx.repoFullName, ctx.sessionBranch);
      if key in inFlightBranches && inFlightBranches[key] != "" && inFlightBranches[key] != ctx.sessionId {
        return BranchTaken(inFlightBranches[key]);
      }
      inFlightBranches := inFlightBranches[key := ctx.sessionId];
      inFlightWorktrees := inFlightWorktrees + {wt};
      r := AllocateInner(ctx, ans, wt);
      inFlightWorktrees := inFlightWorktrees - {wt};
      if key in inFlightBranches && inFlightBranches[key] == ctx.sessionId {
        inFlightBranches := inFlightBranches - {key};
      }
    }

    method AllocateInner(ctx: Context, ans: Answers, wt: string) returns (r: Allocation)
      requires wt == PathOf(ctx.sessionId)
      requires repo.Wf() && repo.graph <= ans.graph && (forall b | b in ans.refs :: ans.refs[b] < |ans.graph|)
      requires forall p | p in repo.worktrees :: p in ans.listing
      modifies this`repo
      ensures repo.Wf() && Keeps(old(repo), repo)
      ensures repo == AfterAllocation(ctx, old(repo), ans, inFlightWorktrees)
      ensures r.Allocated? || r.Threw?
      ensures r.Taken() == TakenBy(ctx, old(repo), ans, inFlightWorktrees)
      ensures r.Allocated? <==> r.Taken().Some? && (ans.configured || r.Taken() == Some(RecoveredLocal))
      ensures r.Allocated? ==>
        && r.path == wt && wt in repo.worktrees && repo.worktrees[wt] == ctx.sessionBranch
        && DecisionNamesBranch(repo, ctx.sessionBranch, r.reported)
      ensures |r.reported| <= 1
      ensures r.Allocated? ==> DecisionFits(ctx, ctx.sessionBranch in old(repo).heads, r.reported[0])
      ensures r.Allocated? && ctx.preserveLocalBranch && ctx.sessionBranch in old(repo).heads ==>
        && repo.heads == old(repo).heads && repo.rescue == old(repo).rescue
        && r.reported[0].path == PreserveLocal
        && r.reported[0].tipBefore == Some(old(repo).heads[ctx.sessionBranch])
      ensures r.Allocated? && r.reported[0].path == RecoveredLocal ==>
        && ctx.recoverBranchFromSha.Some? && ctx.sessionBranch !in old(repo).heads
        && repo.heads == old(repo).heads[ctx.sessionBranch := ctx.recoverBranchFromSha.value]
      ensures ans.fetched && ctx.preserveLocalBranch && ctx.sessionBranch !in old(repo).heads
              && ctx.recoverBranchFromSha.Some? && ctx.recoverBranchFromSha.value < |ans.graph|
              && ans.typeRead && ans.branchMade && ans.recoveredOut
              && old(repo).CanCheckOut(wt, ctx.sessionBranch) ==>
        r.Allocated? && r.reported[0].path == RecoveredLocal
    {
      var branch := ctx.sessionBranch;
      if !ans.fetched {
        return Threw([]);
      }
      FetchAndReconcile(branch, wt, ans);
      var localExists := ctx.preserveLocalBranch && branch in repo.heads;
      var tipBefore := if localExists then Some(repo.heads[branch]) else None;
      var recover := ctx.recoverBranchFromSha;
      if ctx.preserveLocalBranch && !localExists && recover.Some? {
        var recovered := RecoverBranch(branch, wt, recover.value, ans);
        if recovered {
          return Allocated(wt, [Decision(RecoveredLocal, branch, Sha(recover.value), true, false, None)]);
        }
      }
      var path, start;
      if localExists {
        if !ans.preservedOut || !repo.CanCheckOut(wt, branch) {
          return Threw([]);
        }
        SameRefsKeep(repo, repo.CheckOut(wt, branch));
        repo := repo.CheckOut(wt, branch);
        path, start := PreserveLocal, Name(branch);
      } else {
        var ok;
        ok, path, start := ResettingCheckout(ctx, wt, ans);
        if !ok {
          return Threw([]);
        }
      }
      var reported := [Decision(path, branch, start, ctx.preserveLocalBranch, localExists, tipBefore)];
      r := if ans.configured then Allocated(wt, reported) else Threw(reported);
    }

    /** Fetch into the tracking refs, then release whatever else holds the branch; no local ref moves. */
    method FetchAndReconcile(branch: string, wt: string, ans: Answers)
      requires repo.Wf() && repo.graph <= ans.graph && (forall b | b in ans.refs :: ans.refs[b] < |ans.graph|)
      requires forall p | p in repo.worktrees :: p in ans.listing
      modifies this`repo
      ensures repo.Wf() && Keeps(old(repo), repo)
      ensures repo == Released(old(repo).Fetched(ans.graph, ans.refs), branch, wt, inFlightWorktrees, ans.stuck)
      ensures repo == old(repo).(graph := ans.graph, tracking := ans.refs, worktrees := repo.worktrees)
      ensures old(repo).CanCheckOut(wt, branch) ==> repo.CanCheckOut(wt, branch)
    {
      FetchKeeps(repo, ans.graph, ans.refs);
      repo := repo.Fetched(ans.graph, ans.refs);
      ReconcileBranchWorktrees(branch, wt, ans.listing, ans.stuck);
      ValuesGrow(repo.worktrees, old(repo).worktrees);
    }

    /** Re-create a missing branch on the recorded commit and check it out. */
    method RecoverBranch(branch: string, wt: string, sha: Commit, ans: Answers) returns (ok: bool)
      requires repo.Wf() && branch !in repo.heads
      modifies this`repo
      ensures repo.Wf() && Keeps(old(repo), repo)
      ensures ok <==> ans.typeRead && sha < |old(repo).graph| && ans.branchMade && ans.recoveredOut
                      && old(repo).CanCheckOut(wt, branch)
      ensures repo == AfterRecovery(branch, old(repo), wt, sha, ans) && (ok <==> Recovers(branch, old(repo), wt, sha, ans))
      ensures ok ==> repo == old(repo).PointHead(branch, sha).CheckOut(wt, branch)
    {
      ok := false;
      if ans.typeRead && sha < |repo.graph| && ans.branchMade {
        NewHeadKeeps(repo, branch, sha);
        var made := repo.PointHead(branch, sha);
        if ans.recoveredOut && made.CanCheckOut(wt, branch) {
          SameRefsKeep(made, made.CheckOut(wt, branch));
          made := made.CheckOut(wt, branch);
          ok := true;
        }
        repo := made;
      }
    }

    /** The pushed branch with the base as fallback, or the base at once. */
    method ResettingCheckout(ctx: Context, wt: string, ans: Answers) returns (ok: bool, path: CheckoutPath, start: Rev)
      requires repo.Wf()
      modifies this`repo
      ensures repo.Wf() && Keeps(old(repo), repo)
      ensures repo == AfterOrdinary(ctx, old(repo), wt, ans)
      ensures OrdinaryPath(ctx, old(repo), wt, ans) == if ok then Some(path) else None
      ensures ok ==>
        && ctx.sessionBranch in repo.heads && repo.Resolve(start) == Some(repo.heads[ctx.sessionBranch])
        && wt in repo.worktrees && repo.worktrees[wt] == ctx.sessionBranch
      ensures path == ReuseRemote ==> ctx.reuseExistingBranch && start == Origin(ctx.sessionBranch)
      ensures path == ResetToBase ==>
        start == if ctx.reuseExistingBranch then Name(ctx.baseBranch) else Origin(ctx.baseBranch)
      ensures path in {ReuseRemote, ResetToBase}
    {
      if ctx.reuseExistingBranch {
        path, start := ReuseRemote, Origin(ctx.sessionBranch);
        ok := ResetCheckout(ctx.sessionBranch, wt, start, ans.first);
        if !ok {
          path, start := ResetToBase, Name(ctx.baseBranch);
          ok := ResetCheckout(ctx.sessionBranch, wt, start, ans.second);
        }
      } else {
        path, start := ResetToBase, Origin(ctx.baseBranch);
        ok := ResetCheckout(ctx.sessionBranch, wt, start, ans.first);
      }
    }

    /** Rescue, then `git worktree add -B`. */
    method ResetCheckout(branch: string, wt: string, start: Rev, outcome: ResetOutcome) returns (ok: bool)
      requires repo.Wf()
      modifies this`repo
      ensures repo.Wf() && Keeps(old(repo), repo)
      ensures repo.graph == old(repo).graph && repo.tracking == old(repo).tracking
      ensures repo == AfterReset(old(repo), branch, wt, start, outcome) && (ok <==> Resets(old(repo), branch, wt, start, outcome))
      ensures ok <==> outcome.Done? && old(repo).Resolve(start).Some? && old(repo).CanCheckOut(wt, branch)
      ensures ok ==>
        && repo.heads == old(repo).heads[branch := old(repo).Resolve(start).value]
        && repo.Resolve(start) == Some(repo.heads[branch])
        && repo.worktrees == old(repo).worktrees[wt := branch]
      ensures !ok ==> repo.worktrees == old(repo).worktrees
    {
      RescueBranchIfAhead(branch, start);
      var target := repo.Resolve(start);
      ok := false;
      if target.Some? && repo.CanCheckOut(wt, branch) && !outcome.FailedBefore? {
        ShelteredResetKeeps(repo, branch, start);
        ResolvesAfterReset(repo, branch, start);
        repo := repo.PointHead(branch, target.value);
        if outcome.Done? {
          repo := repo.CheckOut(wt, branch);
          ok := true;
        }
      }
    }

    /** Park the doomed tip under a rescue ref before a reset to `start`. */
    method RescueBranchIfAhead(branch: string, start: Rev)
      requires repo.Wf()
      modifies this`repo
      ensures repo == old(repo).Rescued(branch, start)
      ensures repo.heads == old(repo).heads && repo.graph == old(repo).graph
      ensures repo.tracking == old(repo).tracking && repo.worktrees == old(repo).worktrees
      ensures repo.Wf() && Keeps(old(repo), repo) && Sheltered(repo, branch, start)
    {
      RescueShelters(repo, branch, start);
      if branch !in repo.heads {
        return;
      }
      var from := repo.Resolve(start);
      if from.None? {
        return;
      }
      var doomed := repo.Doomed(branch, from.value);
      if doomed == {} {
        return;
      }
      repo := repo.(rescue := repo.rescue[(branch, repo.now) := repo.heads[branch]], now := repo.now + 1);
    }

    /** Release every other worktree that still holds the branch, sparing those being built. */
    method ReconcileBranchWorktrees(branch: string, target: string, listing: seq<string>, stuck: set<string>)
      requires forall p | p in repo.worktrees :: p in listing
      modifies this`repo
      ensures repo == old(repo).(worktrees := repo.worktrees)
      ensures repo.worktrees.Keys <= old(repo).worktrees.Keys
      ensures forall p | p in old(repo).worktrees ::
        (p !in repo.worktrees <==> Removable(old(repo), p, branch, target, inFlightWorktrees, stuck))
        && (p in repo.worktrees ==> repo.worktrees[p] == old(repo).worktrees[p])
      ensures repo == Released(old(repo), branch, target, inFlightWorktrees, stuck)
    {
      for i := 0 to |listing|
        invariant repo == old(repo).(worktrees := repo.worktrees)
        invariant repo.worktrees.Keys <= old(repo).worktrees.Keys
        invariant forall p | p in old(repo).worktrees ::
          (p !in repo.worktrees <==> p in listing[..i] && Removable(old(repo), p, branch, target, inFlightWorktrees, stuck))
          && (p in repo.worktrees ==> repo.worktrees[p] == old(repo).worktrees[p])
      {
        var wtPath := listing[i];
        if wtPath in repo.worktrees && repo.worktrees[wtPath] == branch && wtPath != target {
          if wtPath !in inFlightWorktrees && wtPath !in stuck {
            repo := repo.Unregister(wtPath);
          }
        }
      }
    }

    /**
     * The recorded commits that `from` cannot reach. Any failed git call counts as unreachable, so a glitch
     * at position i puts that commit on the list.
     */
    method UnreachableCommits(from: Commit, shas: seq<Recorded>, glitches: set<nat>) returns (missing: seq<Recorded>)
      ensures missing == Unreachable(repo.graph, from, shas, glitches, |shas|)
    {
      missing := [];
      for i := 0 to |shas|
        invariant missing == Unreachable(repo.graph, from, shas, glitches, i)
      {
        if shas[i].Blank? {
          continue;
        }
        if i in glitches || shas[i].Bogus? || !Reaches(repo.graph, from, shas[i].commit) {
          missing := missing + [shas[i]];
        }
      }
    }

    /** Revert commits newest first on a scratch branch off origin/base, then push to base or to the branch. */
    method RevertCommits(base: string, revertBranch: string, scratch: string, shas: seq<Recorded>, ans: Answers,
                         conflicts: set<nat>, pushedToBase: bool, pushedBranch: bool)
      returns (done: Option<seq<Recorded>>, pushedToMain: bool)
      requires repo.Wf() && repo.graph <= ans.graph && (forall b | b in ans.refs :: ans.refs[b] < |ans.graph|)
      modifies this
      ensures repo.Wf() && Keeps(old(repo), repo)
      ensures inFlightBranches == old(inFlightBranches) && inFlightWorktrees == old(inFlightWorktrees) - {scratch}
      ensures done.Some? ==> done.value == NonBlank(shas)
      ensures done.Some? ==>
        && revertBranch in repo.heads
        && |repo.graph| == |ans.graph| + |done.value|
        && repo.Resolve(Origin(base)).Some?
        && (revertBranch != Origin(base).name ==>
              Reaches(repo.graph, repo.heads[revertBranch], repo.Resolve(Origin(base)).value))
      ensures done.Some? ==> (pushedToBase || pushedBranch) && pushedToMain == pushedToBase
      // It succeeds exactly when the fetch, the checkout, every revert and one of the pushes do.
      ensures done.Some? <==>
        && ans.fetched && ans.first.Done? && old(repo).Fetched(ans.graph, ans.refs).Resolve(Origin(base)).Some?
        && old(repo).CanCheckOut(scratch, revertBranch) && (pushedToBase || pushedBranch)
        && forall i | 0 <= i < |shas| && i in conflicts :: shas[i].Blank?
    {
      inFlightWorktrees := inFlightWorktrees + {scratch};
      done := RevertInner(base, revertBranch, scratch, shas, ans, conflicts);
      pushedToMain := pushedToBase;
      if !pushedToMain && !pushedBranch {
        done := None;
      }
      inFlightWorktrees := inFlightWorktrees - {scratch};
    }

    method RevertInner(base: string, revertBranch: string, scratch: string, shas: seq<Recorded>, ans: Answers,
                       conflicts: set<nat>)
      returns (done: Option<seq<Recorded>>)
      requires repo.Wf() && repo.graph <= ans.graph && (forall b | b in ans.refs :: ans.refs[b] < |ans.graph|)
      modifies this`repo
      ensures repo.Wf() && Keeps(old(repo), repo)
      ensures done.Some? ==> done.value == NonBlank(shas)
      ensures done.Some? ==>
        && revertBranch in repo.heads
        && |repo.graph| == |ans.graph| + |done.value|
        && repo.Resolve(Origin(base)).Some?
        && (revertBranch != Origin(base).name ==>
              Reaches(repo.graph, repo.heads[revertBranch], repo.Resolve(Origin(base)).value))
      ensures done.Some? <==>
        && ans.fetched && ans.first.Done? && old(repo).Fetched(ans.graph, ans.refs).Resolve(Origin(base)).Some?
        && old(repo).CanCheckOut(scratch, revertBranch)
        && forall i | 0 <= i < |shas| && i in conflicts :: shas[i].Blank?
    {
      if !ans.fetched {
        return None;
      }
      FetchKeeps(repo, ans.graph, ans.refs);
      repo := repo.Fetched(ans.graph, ans.refs);
      var ok := ResetCheckout(revertBranch, scratch, Origin(base), ans.first);
      if !ok {
        return None;
      }
      ghost var onto := repo.heads[revertBranch];
      var reverted := [];
      for i := 0 to |shas|
        invariant repo.Wf() && Keeps(old(repo), repo)
        invariant revertBranch in repo.heads
        invariant reverted == NonBlank(shas[..i]) && |repo.graph| == |ans.graph| + |reverted|
        invariant Reaches(repo.graph, repo.heads[revertBranch], onto)
        invariant repo.Resolve(Origin(base)).Some?
        invariant revertBranch != Origin(base).name ==> repo.Resolve(Origin(base)) == Some(onto)
        invariant forall j | 0 <= j < i && j in conflicts :: shas[j].Blank?
      {
        assert shas[..i + 1] == shas[..i] + [shas[i]];
        if shas[i].Blank? {
          continue;
        }
        if i in conflicts {
          return None;
        }
        CommitOnTop(repo, revertBranch, onto, Origin(base));
        repo := repo.Committed(revertBranch);
        reverted := reverted + [shas[i]];
      }
      assert shas[..|shas|] == shas;
      done := Some(reverted);
    }
  }

  function NonBlank(shas: seq<Recorded>): seq<Recorded> {
    if shas == [] then []
    else NonBlank(shas[..|shas| - 1]) + (if shas[|shas| - 1].Blank? then [] else [shas[|shas| - 1]])
  }

  /** The unreachable ones among the first `n` recorded commits, in order. */
  function Unreachable(g: Graph, from: Commit, shas: seq<Recorded>, glitches: set<nat>, n: nat): seq<Recorded>
    requires n <= |shas|
  {
    if n == 0 then []
    else Unreachable(g, from, shas, glitches, n - 1)
         + (if shas[n - 1].Blank? || (n - 1 !in glitches && shas[n - 1].Known? && Reaches(g, from, shas[n - 1].commit))
            then [] else [shas[n - 1]])
  }

  /** The guard is silent exactly when every recorded commit was checked and is an ancestor. */
  lemma {:induction false} NothingUnreachableIff(g: Graph, from: Commit, shas: seq<Recorded>, glitches: set<nat>, n: nat)
    requires n <= |shas|
    ensures Unreachable(g, from, shas, glitches, n) == [] <==>
      forall i | 0 <= i < n && !shas[i].Blank? :: i !in glitches && shas[i].Known? && Reaches(g, from, shas[i].commit)
  {
    if n > 0 {
      NothingUnreachableIff(g, from, shas, glitches, n - 1);
    }
  }

  /**
   * After an allocation that left the branch at the recorded tip, a ledger of that tip's ancestors is fully
   * reachable from the worktree's HEAD.
   */
  lemma RecoveredLedgerIsReachable(r: Repo, branch: string, tip: Commit, shas: seq<Recorded>)
    requires branch in r.heads && r.heads[branch] == tip
    requires forall s | s in shas :: s.Known? && Reaches(r.graph, tip, s.commit)
    ensures Unreachable(r.graph, r.heads[branch], shas, {}, |shas|) == []
  {
    NothingUnreachableIff(r.graph, tip, shas, {}, |shas|);
  }
}
