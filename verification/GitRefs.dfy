/**
 * A bare repository as the harness sees it: commits, local heads, remote-tracking refs,
 * rescue refs and registered worktrees, with the git commands allocation runs on them.
 */
module GitRefs {
  import opened Prelude
  import opened CommitGraph

  /** What a command names a commit by: a ref name, or a recorded SHA. */
  datatype Rev = Name(name: string) | Sha(commit: Commit)

  const ORIGIN := "origin/"

  function Origin(branch: string): Rev { Name(ORIGIN + branch) }

  datatype Repo = Repo(
    graph: Graph,
    heads: map<string, Commit>,             // refs/heads/*
    tracking: map<string, Commit>,          // refs/remotes/origin/*
    rescue: map<(string, nat), Commit>,     // refs/harness-rescue/<branch>/<time>
    worktrees: map<string, string>,         // registered path -> branch checked out there
    now: nat)                               // Date.now(); moves on after each rescue ref
  {
    predicate Wf() {
      && (forall b | b in heads :: heads[b] < |graph|)
      && (forall b | b in tracking :: tracking[b] < |graph|)
      && (forall k: (string, nat) | k in rescue :: rescue[k] < |graph| && k.1 < now)
    }

    /** `git rev-parse`: a local head shadows a remote-tracking ref of the same short name. */
    function Resolve(rev: Rev): Option<Commit> {
      match rev
      case Sha(c) => if c < |graph| then Some(c) else None
      case Name(n) =>
        if n in heads then Some(heads[n])
        else if ORIGIN <= n && n[|ORIGIN|..] in tracking then Some(tracking[n[|ORIGIN|..]])
        else None
    }

    /** The refs the harness promises never to lose work from. */
    function Roots(): set<Commit> { heads.Values + rescue.Values }

    /** Reachable from some local head or rescue ref. */
    predicate Protected(c: Commit) { Covered(graph, Roots(), c) }

    /** Whether `git worktree add <path> <branch>` can succeed. */
    predicate CanCheckOut(path: string, branch: string) {
      path !in worktrees && branch !in worktrees.Values
    }

    function CheckOut(path: string, branch: string): Repo {
      this.(worktrees := worktrees[path := branch])
    }

    /** `git branch` and the ref half of `git worktree add -B`. */
    function PointHead(branch: string, c: Commit): Repo {
      this.(heads := heads[branch := c])
    }

    function Unregister(path: string): Repo {
      this.(worktrees := worktrees - {path})
    }

    /** `git fetch --prune origin`: new commits arrive, tracking refs are replaced. */
    function Fetched(g: Graph, refs: map<string, Commit>): Repo {
      this.(graph := g, tracking := refs)
    }

    /** A commit made in a worktree that has `branch` checked out. */
    function Committed(branch: string): Repo
      requires branch in heads && heads[branch] < |graph|
    {
      this.(graph := graph + [{heads[branch]}], heads := heads[branch := |graph|])
    }

    /** `git rev-list refs/heads/<branch> ^<start>`. */
    function Doomed(branch: string, start: Commit): set<Commit>
      requires branch in heads
    {
      set c | 0 <= c <= heads[branch] && Reaches(graph, heads[branch], c) && !Reaches(graph, start, c)
    }

    /**
     * Park the branch's tip under a rescue ref when a reset to `start` would orphan commits.
     * A start point that does not resolve makes rev-list fail; the failure is swallowed.
     */
    function Rescued(branch: string, start: Rev): Repo {
      if branch !in heads then this
      else match Resolve(start)
        case None => this
        case Some(s) =>
          if Doomed(branch, s) == {} then this
          else this.(rescue := rescue[(branch, now) := heads[branch]], now := now + 1)
    }
  }

  /** Everything protected in `r` is protected in `r'`. */
  ghost predicate Keeps(r: Repo, r': Repo) {
    forall c | r.Protected(c) :: r'.Protected(c)
  }

  /** The branch's tip survives a reset to `start`: a rescue ref or the start point reaches it. */
  predicate Sheltered(r: Repo, branch: string, start: Rev) {
    branch in r.heads && r.Resolve(start).Some? ==>
      Covered(r.graph, r.rescue.Values + {r.Resolve(start).value}, r.heads[branch])
  }

  lemma RootsExist(r: Repo)
    requires r.Wf()
    ensures forall c | c in r.Roots() :: c < |r.graph|
  {
    forall c | c in r.Roots() ensures c < |r.graph| {
      if c in r.heads.Values {
        var b :| b in r.heads && r.heads[b] == c;
      } else {
        var k: (string, nat) :| k in r.rescue && r.rescue[k] == c;
        assert r.rescue[k] < |r.graph|;
      }
    }
  }

  lemma KeepsFromRoots(r: Repo, r': Repo)
    requires r.graph <= r'.graph
    requires forall c | c in r.Roots() :: r'.Protected(c)
    ensures Keeps(r, r')
  {
    forall c | r.Protected(c) ensures r'.Protected(c) {
      CoverTransfers(r.graph, r.Roots(), r'.graph, r'.Roots(), c);
    }
  }

  /** rev-list prints nothing exactly when the start point already reaches the tip. */
  lemma DoomedEmptyIff(r: Repo, branch: string, start: Commit)
    requires r.Wf() && branch in r.heads
    ensures r.Doomed(branch, start) == {} <==> Reaches(r.graph, start, r.heads[branch])
  {
    var tip := r.heads[branch];
    if Reaches(r.graph, start, tip) {
      forall c | c in r.Doomed(branch, start) ensures false {
        ReachesTransitive(r.graph, start, tip, c);
      }
    } else {
      assert tip in r.Doomed(branch, start);
    }
  }

  /** The rescue step loses nothing and leaves the branch safe to reset to `start`. */
  lemma RescueShelters(r: Repo, branch: string, start: Rev)
    requires r.Wf()
    ensures var r' := r.Rescued(branch, start);
      && r'.Wf() && Keeps(r, r') && Sheltered(r', branch, start)
      && r'.heads == r.heads && r'.graph == r.graph && r'.tracking == r.tracking && r'.worktrees == r.worktrees
      && (forall k | k in r.rescue :: k in r'.rescue && r'.rescue[k] == r.rescue[k])
  {
    var r' := r.Rescued(branch, start);
    assert forall k | k in r.rescue :: k in r'.rescue && r'.rescue[k] == r.rescue[k];
    RescueRootsGrow(r, r');
    if branch in r.heads && r.Resolve(start).Some? {
      var s := r.Resolve(start).value;
      DoomedEmptyIff(r, branch, s);
      if r.Doomed(branch, s) == {} {
        assert s in r'.rescue.Values + {s};
      } else {
        assert (branch, r.now) in r'.rescue && r'.rescue[(branch, r.now)] == r.heads[branch];
        assert Reaches(r.graph, r.heads[branch], r.heads[branch]);
      }
    }
  }

  /** Registering or removing worktrees loses nothing. */
  lemma SameRefsKeep(r: Repo, r': Repo)
    requires r'.graph == r.graph && r'.heads == r.heads && r'.rescue == r.rescue
    ensures Keeps(r, r')
  {
    assert r'.Roots() == r.Roots();
  }

  lemma RescueRootsGrow(r: Repo, r': Repo)
    requires r.Wf() && r'.graph == r.graph && r'.heads == r.heads
    requires forall k | k in r.rescue :: k in r'.rescue && r'.rescue[k] == r.rescue[k]
    ensures Keeps(r, r')
  {
    RootsExist(r);
    forall c | c in r.Roots() ensures r'.Protected(c) {
      if c in r.rescue.Values {
        var k: (string, nat) :| k in r.rescue && r.rescue[k] == c;
        assert r'.rescue[k] == c;
      }
      assert c in r'.Roots() && Reaches(r'.graph, c, c);
    }
    KeepsFromRoots(r, r');
  }

  /**
   * When a reset of a branch loses work: exactly when nothing that remains reaches the old tip.
   * What remains is every other head, every rescue ref and the start point.
   */
  lemma ResetKeepsIff(r: Repo, branch: string, s: Commit)
    requires r.Wf() && branch in r.heads && s < |r.graph|
    ensures Keeps(r, r.PointHead(branch, s)) <==>
      Covered(r.graph, (r.heads - {branch}).Values + r.rescue.Values + {s}, r.heads[branch])
  {
    RootsExist(r);
    var r' := r.PointHead(branch, s);
    var rest := r.heads - {branch};
    var remaining := rest.Values + r.rescue.Values + {s};
    assert r'.Roots() == remaining by {
      assert r'.heads.Values == rest.Values + {s} by {
        forall c | c in rest.Values ensures c in r'.heads.Values {
          var b :| b in rest && rest[b] == c;
          assert r'.heads[b] == c;
        }
        forall c | c in r'.heads.Values ensures c in rest.Values + {s} {
          var b :| b in r'.heads && r'.heads[b] == c;
          if b != branch { assert rest[b] == c; }
        }
        assert r'.heads[branch] == s;
      }
    }
    var tip := r.heads[branch];
    assert tip in r.Roots() && Reaches(r.graph, tip, tip);
    assert r.Protected(tip);
    if Covered(r.graph, remaining, tip) {
      forall c | c in r.Roots() ensures r'.Protected(c) {
        if c != tip {
          assert c in remaining by {
            if c in r.heads.Values {
              var b :| b in r.heads && r.heads[b] == c;
              assert b in rest && rest[b] == c;
            }
          }
          assert Reaches(r.graph, c, c);
        }
      }
      KeepsFromRoots(r, r');
    }
  }

  /** A sheltered branch may be reset. */
  lemma ShelteredResetKeeps(r: Repo, branch: string, start: Rev)
    requires r.Wf() && r.Resolve(start).Some? && Sheltered(r, branch, start)
    ensures var r' := r.PointHead(branch, r.Resolve(start).value); r'.Wf() && Keeps(r, r')
  {
    var s := r.Resolve(start).value;
    assert s < |r.graph|;
    if branch in r.heads {
      var c :| c in r.rescue.Values + {s} && Reaches(r.graph, c, r.heads[branch]);
      assert c in (r.heads - {branch}).Values + r.rescue.Values + {s};
      ResetKeepsIff(r, branch, s);
    } else {
      NewHeadKeeps(r, branch, s);
    }
  }

  /** Creating a head that did not exist loses nothing. */
  lemma NewHeadKeeps(r: Repo, branch: string, c: Commit)
    requires r.Wf() && branch !in r.heads && c < |r.graph|
    ensures r.PointHead(branch, c).Wf() && Keeps(r, r.PointHead(branch, c))
  {
    RootsExist(r);
    var r' := r.PointHead(branch, c);
    forall x | x in r.Roots() ensures r'.Protected(x) {
      if x in r.heads.Values {
        var b :| b in r.heads && r.heads[b] == x;
        assert r'.heads[b] == x;
      }
      assert x in r'.Roots() && Reaches(r'.graph, x, x);
    }
    KeepsFromRoots(r, r');
  }

  lemma CommitKeeps(r: Repo, branch: string)
    requires r.Wf() && branch in r.heads
    ensures r.Committed(branch).Wf() && Keeps(r, r.Committed(branch)) && r.graph <= r.Committed(branch).graph
  {
    RootsExist(r);
    var r' := r.Committed(branch);
    var tip := r.heads[branch];
    var made := |r.graph|;
    forall x | x in r.Roots() ensures r'.Protected(x) {
      if x == tip {
        assert r'.heads[branch] == made && tip in r'.graph[made];
        assert Reaches(r'.graph, tip, tip);
        assert made in r'.Roots() && Reaches(r'.graph, made, tip);
      } else {
        if x in r.heads.Values {
          var b :| b in r.heads && r.heads[b] == x;
          assert r'.heads[b] == x;
        }
        assert x in r'.Roots() && Reaches(r'.graph, x, x);
      }
    }
    KeepsFromRoots(r, r');
  }

  lemma FetchKeeps(r: Repo, g: Graph, refs: map<string, Commit>)
    requires r.Wf() && r.graph <= g && forall b | b in refs :: refs[b] < |g|
    ensures r.Fetched(g, refs).Wf() && Keeps(r, r.Fetched(g, refs))
  {
    RootsExist(r);
    var r' := r.Fetched(g, refs);
    forall x | x in r.Roots() ensures r'.Protected(x) {
      assert x in r'.Roots() && Reaches(g, x, x);
    }
    KeepsFromRoots(r, r');
  }
}
