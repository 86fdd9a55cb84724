/**
 * Commits and reachability.
 *
 * A commit is named by a hash over its parents, so its parents exist before it does.
 * Commits are numbered here in an order of creation, which makes every history acyclic.
 */
module CommitGraph {

  type Commit = nat

  predicate Acyclic(g: seq<set<Commit>>) {
    forall c, p | 0 <= c < |g| && p in g[c] :: p < c
  }

  /** `g[c]` is the set of parents of commit `c`. */
  type Graph = g: seq<set<Commit>> | Acyclic(g) witness []

  /** `to` is `from` or one of its ancestors: `git merge-base --is-ancestor to from`. */
  predicate Reaches(g: Graph, from: Commit, to: Commit)
    decreases from
  {
    from < |g| && (from == to || exists p :: p in g[from] && Reaches(g, p, to))
  }

  /** `c` is reachable from one of `roots`. */
  predicate Covered(g: Graph, roots: set<Commit>, c: Commit) {
    exists r :: r in roots && Reaches(g, r, c)
  }

  lemma {:induction false} ReachesTransitive(g: Graph, a: Commit, b: Commit, c: Commit)
    requires Reaches(g, a, b) && Reaches(g, b, c)
    ensures Reaches(g, a, c)
    decreases a
  {
    if a != b {
      var p :| p in g[a] && Reaches(g, p, b);
      ReachesTransitive(g, p, b, c);
    }
  }

  /** New commits never cut an old one off from its history. */
  lemma {:induction false} ReachesGrows(g: Graph, g': Graph, a: Commit, b: Commit)
    requires g <= g' && Reaches(g, a, b)
    ensures Reaches(g', a, b)
    decreases a
  {
    if a != b {
      var p :| p in g[a] && Reaches(g, p, b);
      ReachesGrows(g, g', p, b);
    }
  }

  /** A root set that covers every root of another covers whatever the other covers. */
  lemma CoverTransfers(g: Graph, roots: set<Commit>, g': Graph, roots': set<Commit>, c: Commit)
    requires g <= g' && Covered(g, roots, c)
    requires forall r | r in roots :: Covered(g', roots', r)
    ensures Covered(g', roots', c)
  {
    var r :| r in roots && Reaches(g, r, c);
    ReachesGrows(g, g', r, c);
    var r' :| r' in roots' && Reaches(g', r', r);
    ReachesTransitive(g', r', r, c);
  }
}
