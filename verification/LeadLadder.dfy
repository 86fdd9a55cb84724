/** The planning call and its retries: what is asked again, what is salvaged, and what every exit bills. */
module LeadLadder {
  import opened Prelude

  type Plan(==, !new)

  /** The error a failed call throws. Its cost is a field the ladder overwrites with the running total. */
  class CallError {
    var costUsd: Option<real>
    /** The message names a JSON or stream-open fault, the only ones asked again. */
    const retryable: bool
    const truncated: bool
    /** The parser's complaint, when the reply was a whole document that would not parse. */
    const fault: Option<string>
    /** The plan the longest well-formed prefix of the reply holds. */
    const salvage: Option<Plan>

    constructor (costUsd: Option<real>, retryable: bool, truncated: bool, fault: Option<string>, salvage: Option<Plan>)
      ensures this.costUsd == costUsd && this.retryable == retryable && this.truncated == truncated
      ensures this.fault == fault && this.salvage == salvage
    {
      this.costUsd, this.retryable, this.truncated, this.fault, this.salvage := costUsd, retryable, truncated, fault, salvage;
    }
  }

  datatype Reply = Planned(plan: Plan, costUsd: real) | Failed(error: CallError)

  datatype Settings = Settings(jsonRetry: bool, syntaxRetry: bool, salvage: bool, correctiveNote: bool)

  /** What a prompt says beyond the brief: the corrective note, the size reduction, and the complaints it quotes. */
  datatype Prompt = Prompt(note: bool, sizeReduction: bool, quoted: seq<string>)

  datatype Exit = Answered(plan: Plan, costUsd: real) | Salvaged(plan: Plan, costUsd: real) | Threw(error: CallError)

  function Errors(replies: seq<Reply>): set<CallError> {
    set i | 0 <= i < |replies| && replies[i].Failed? :: replies[i].error
  }

  /** What a call cost: an error without a figure cost nothing. */
  function CostOf(reply: Reply): real
    reads if reply.Failed? then {reply.error} else {}
  {
    if reply.Failed? then reply.error.costUsd.GetOr(0.0) else reply.costUsd
  }

  function Spent(replies: seq<Reply>, n: nat): real
    requires n <= |replies|
    reads Errors(replies)
  {
    if n == 0 then 0.0 else Spent(replies, n - 1) + CostOf(replies[n - 1])
  }

  function Billed(exit: Exit): real
    reads if exit.Threw? then {exit.error} else {}
  {
    if exit.Threw? then exit.error.costUsd.GetOr(0.0) else exit.costUsd
  }

  // ---- What a retry says and what can be salvaged ------------------------------------------

  function Quote(error: CallError): seq<string> { if error.fault.Some? then [error.fault.value] else [] }

  function SalvageOf(reply: Reply): Option<Plan> { if reply.Failed? then reply.error.salvage else None }

  /** The freshest of the first `n` replies that can be salvaged. */
  function Freshest(replies: seq<Reply>, n: nat): Option<Plan>
    requires n <= |replies|
  {
    if n == 0 then None
    else if SalvageOf(replies[n - 1]).Some? then SalvageOf(replies[n - 1])
    else Freshest(replies, n - 1)
  }

  /** It is the last of them that holds a plan, and nothing only when none does. */
  lemma {:induction false} FreshestIs(replies: seq<Reply>, n: nat)
    requires n <= |replies|
    ensures Freshest(replies, n).None? <==> forall i | 0 <= i < n :: SalvageOf(replies[i]).None?
    ensures Freshest(replies, n).Some? ==>
      exists i | 0 <= i < n :: Freshest(replies, n) == SalvageOf(replies[i]) && forall j | i < j < n :: SalvageOf(replies[j]).None?
  {
    if n > 0 && SalvageOf(replies[n - 1]).None? {
      FreshestIs(replies, n - 1);
    }
  }

  // ---- The ladder -------------------------------------------------------------------------

  /** `replies[i]` is what the i-th call answers, if it is made. */
  method RunLead(settings: Settings, replies: seq<Reply>) returns (exit: Exit, prompts: seq<Prompt>)
    requires |replies| == 3
    requires replies[1].Failed? && replies[2].Failed? ==> replies[1].error != replies[2].error
    modifies Errors(replies[1..])
    // One call if it plans, or may not be or is not worth asking again; a third only after a nameable syntax fault.
    ensures |prompts| in {1, 2, 3}
    ensures |prompts| == 1 <==> replies[0].Planned? || !settings.jsonRetry || !replies[0].error.retryable
    ensures |prompts| == 3 <==>
      replies[0].Failed? && settings.jsonRetry && replies[0].error.retryable &&
      replies[1].Failed? && replies[1].error.fault.Some? && settings.syntaxRetry
    ensures Billed(exit) == old(Spent(replies, |prompts|))
    ensures replies[|prompts| - 1].Planned? ==>
            exit.Answered? && exit.plan == replies[|prompts| - 1].plan && forall i | 0 <= i < |prompts| - 1 :: replies[i].Failed?
    ensures replies[|prompts| - 1].Failed? ==>
            if |prompts| >= 2 && settings.salvage && Freshest(replies, |prompts|).Some?
            then exit.Salvaged? && exit.plan == Freshest(replies, |prompts|).value
            else exit == Threw(replies[|prompts| - 1].error)
    ensures prompts[0] == Prompt(settings.correctiveNote, false, [])
    ensures |prompts| >= 2 ==>
            var first := replies[0].error;
            && prompts[1].note == (settings.correctiveNote && !first.truncated) && prompts[1].sizeReduction == first.truncated
            && prompts[1].quoted == match first.fault
               case None => []
               case Some(fault) => [fault]
    ensures |prompts| == 3 ==> prompts[2] == prompts[1].(quoted := prompts[1].quoted + [replies[1].error.fault.value])
  {
    assert Spent(replies, 1) == CostOf(replies[0]) && Spent(replies, 2) == Spent(replies, 1) + CostOf(replies[1]);
    assert Freshest(replies, 1) == SalvageOf(replies[0]);
    assert Freshest(replies, 2) == if SalvageOf(replies[1]).Some? then SalvageOf(replies[1]) else Freshest(replies, 1);
    prompts := [Prompt(settings.correctiveNote, false, [])];
    if replies[0].Planned? {
      return Answered(replies[0].plan, replies[0].costUsd), prompts;
    }
    var err := replies[0].error;
    if !settings.jsonRetry || !err.retryable {
      return Threw(err), prompts;
    }
    var retry := if err.truncated then Prompt(false, true, Quote(err)) else Prompt(settings.correctiveNote, false, Quote(err));
    var spentSoFar := err.costUsd.GetOr(0.0);
    prompts := prompts + [retry];
    if replies[1].Planned? {
      return Answered(replies[1].plan, spentSoFar + replies[1].costUsd), prompts;
    }
    var err2 := replies[1].error;
    err2.costUsd := Some(spentSoFar + err2.costUsd.GetOr(0.0));
    var terminal := err2;
    if err2.fault.Some? && settings.syntaxRetry {
      var spentBeforeRepair := err2.costUsd.GetOr(spentSoFar);
      prompts := prompts + [retry.(quoted := retry.quoted + Quote(err2))];
      if replies[2].Planned? {
        return Answered(replies[2].plan, spentBeforeRepair + replies[2].costUsd), prompts;
      }
      var err3 := replies[2].error;
      err3.costUsd := Some(spentBeforeRepair + err3.costUsd.GetOr(0.0));
      terminal := err3;
    }
    if !settings.salvage {
      return Threw(terminal), prompts;
    }
    var salvaged :=
      if terminal.salvage.Some? then terminal.salvage
      else if err2.salvage.Some? then err2.salvage
      else err.salvage;
    if salvaged.Some? {
      var cost := if terminal.costUsd.Some? then terminal.costUsd.value else err2.costUsd.GetOr(spentSoFar);
      return Salvaged(salvaged.value, cost), prompts;
    }
    exit := Threw(terminal);
  }
}
