/** Chains of steps of any machine. */
module Paths {

  /** The events lead from one state to another, one step after the other. */
  ghost predicate Path<W(!new), E(!new)>(step: (W, E, W) -> bool, from: W, es: seq<E>, to: W)
    decreases |es|
  {
    if es == [] then from == to else exists next :: step(from, es[0], next) && Path(step, next, es[1..], to)
  }

  lemma {:induction false} PathAppend<W(!new), E(!new)>(step: (W, E, W) -> bool, a: W, es: seq<E>, b: W, more: seq<E>, c: W)
    requires Path(step, a, es, b) && Path(step, b, more, c)
    ensures Path(step, a, es + more, c)
    decreases |es|
  {
    if es == [] {
      assert es + more == more;
    } else {
      var next :| step(a, es[0], next) && Path(step, next, es[1..], b);
      PathAppend(step, next, es[1..], b, more, c);
      assert (es + more)[1..] == es[1..] + more;
    }
  }

  lemma PathOne<W(!new), E(!new)>(step: (W, E, W) -> bool, a: W, e: E, b: W)
    requires step(a, e, b)
    ensures Path(step, a, [e], b)
  {
    assert [e][1..] == [];
    assert Path(step, b, [e][1..], b);
  }
}
