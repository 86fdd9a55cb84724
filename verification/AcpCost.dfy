/**
 * What one agent turn cost, read from figures that are cumulative for the provider session, and what a chain
 * of resumed turns costs together.
 */
module AcpCost {
  import opened Prelude

  /** A JSON number as the program holds it; an overlong exponent parses to an infinity. */
  datatype Amount = Finite(value: real) | NotFinite

  /** A usage frame that carries a numeric cost. */
  datatype Usage = Usage(amount: Amount, currency: Option<string>)

  datatype Source = AcpDelta | TokensOnly | Unavailable

  /** How the turn's session was started: new, or resumed with the stored cumulative figure if there is one. */
  datatype Start = Fresh | Resumed(checkpoint: Option<real>)

  datatype Tally = Tally(
    baseline: Option<Amount>,
    latest: Option<Amount>,
    sawCost: bool,
    mismatch: bool,
    currency: string)

  datatype Bill = Bill(costUsd: real, source: Source, cumulative: Option<real>, baseline: Option<real>)

  const TOLERANCE: real := 0.000000001

  function Abs(x: real): real { if x < 0.0 then -x else x }

  function UpperChar(c: char): char { if 'a' <= c <= 'z' then ((c as int) - 32) as char else c }

  function Upper(s: string): string {
    if s == "" then "" else [UpperChar(s[0])] + Upper(s[1..])
  }

  function Open(start: Start): Tally {
    Tally(match start case Fresh => Some(Finite(0.0)) case Resumed(None) => None case Resumed(Some(c)) => Some(Finite(c)),
          None, false, false, "")
  }

  /** The figure is usable: US dollars, finite and not negative. */
  predicate Sane(u: Usage) {
    Upper(u.currency.GetOr("USD")) == "USD" && u.amount.Finite? && u.amount.value >= 0.0
  }

  /** An opening balance further than the tolerance from the one already known. */
  predicate Moved(known: Option<Amount>, amount: Amount) {
    known.Some? && known.value.Finite? && amount.Finite? && Abs(known.value.value - amount.value) > TOLERANCE
  }

  function Mismatched(t: Tally, u: Usage): bool {
    t.mismatch || (t.currency != "" && t.currency != Upper(u.currency.GetOr("USD"))) || !Sane(u)
  }

  function BeforePrompt(t: Tally, u: Usage): Tally {
    t.(mismatch := Mismatched(t, u) || Moved(t.baseline, u.amount),
       currency := Upper(u.currency.GetOr("USD")), baseline := Some(u.amount))
  }

  function AfterPrompt(t: Tally, u: Usage): Tally {
    t.(mismatch := Mismatched(t, u), currency := Upper(u.currency.GetOr("USD")), sawCost := true, latest := Some(u.amount))
  }

  function Opening(t: Tally, frames: seq<Usage>): Tally {
    if frames == [] then t else BeforePrompt(Opening(t, frames[..|frames| - 1]), frames[|frames| - 1])
  }

  function Spending(t: Tally, frames: seq<Usage>): Tally {
    if frames == [] then t else AfterPrompt(Spending(t, frames[..|frames| - 1]), frames[|frames| - 1])
  }

  predicate Measured(t: Tally) {
    && t.sawCost && !t.mismatch
    && t.baseline.Some? && t.baseline.value.Finite? && t.latest.Some? && t.latest.value.Finite?
    && t.latest.value.value >= t.baseline.value.value
  }

  function UsageSource(sawCost: bool, sawTokens: bool): Source {
    if sawCost then AcpDelta else if sawTokens then TokensOnly else Unavailable
  }

  function Settle(t: Tally, sawTokens: bool): Bill {
    if Measured(t) then
      Bill(t.latest.value.value - t.baseline.value.value, UsageSource(t.sawCost, sawTokens),
           Some(t.latest.value.value), Some(t.baseline.value.value))
    else Bill(0.0, if t.sawCost then Unavailable else UsageSource(t.sawCost, sawTokens), None, None)
  }

  /** One turn's frames: figures before the prompt, figures after it, and whether a token split came. */
  datatype Turn = Turn(before: seq<Usage>, after: seq<Usage>, sawTokens: bool)

  function BillFor(start: Start, turn: Turn): Bill {
    Settle(Spending(Opening(Open(start), turn.before), turn.after), turn.sawTokens)
  }

  /** The callback state of one turn. */
  class CostMeter {
    var baseline: Option<Amount>
    var latest: Option<Amount>
    var promptSent: bool
    var sawCost: bool
    var mismatch: bool
    var currency: string

    function View(): Tally
      reads this
    {
      Tally(baseline, latest, sawCost, mismatch, currency)
    }

    constructor (start: Start)
      ensures View() == Open(start) && !promptSent
    {
      var t := Open(start);
      baseline, latest, sawCost, mismatch, currency := t.baseline, None, false, false, "";
      promptSent := false;
    }

    method OnUsage(u: Usage)
      modifies this
      ensures View() == if promptSent then AfterPrompt(old(View()), u) else BeforePrompt(old(View()), u)
      ensures promptSent == old(promptSent)
    {
      var unit := Upper(u.currency.GetOr("USD"));
      if currency != "" && currency != unit {
        mismatch := true;
      }
      currency := unit;
      if unit != "USD" || u.amount.NotFinite? || u.amount.value < 0.0 {
        mismatch := true;
      }
      if !promptSent {
        if Moved(baseline, u.amount) {
          mismatch := true;
        }
        baseline := Some(u.amount);
      } else {
        sawCost := true;
        latest := Some(u.amount);
      }
    }

    /** A whole turn: the frames that come before the prompt, the prompt, and the frames after it. */
    method RunTurn(start: Start, turn: Turn) returns (bill: Bill)
      requires View() == Open(start) && !promptSent
      modifies this
      ensures bill == BillFor(start, turn)
    {
      for i := 0 to |turn.before|
        invariant View() == Opening(Open(start), turn.before[..i]) && !promptSent
      {
        assert turn.before[..i + 1][..i] == turn.before[..i];
        OnUsage(turn.before[i]);
      }
      assert turn.before[..|turn.before|] == turn.before;
      promptSent := true;
      for i := 0 to |turn.after|
        invariant View() == Spending(Opening(Open(start), turn.before), turn.after[..i]) && promptSent
      {
        assert turn.after[..i + 1][..i] == turn.after[..i];
        OnUsage(turn.after[i]);
      }
      assert turn.after[..|turn.after|] == turn.after;
      bill := Settle(View(), turn.sawTokens);
    }
  }

  // ---- One turn ---------------------------------------------------------------------------

  /** Without a mismatch the opening balance stays within the tolerance per figure of the stored one. */
  lemma {:induction false} OpeningDrift(checkpoint: real, frames: seq<Usage>)
    ensures var t := Opening(Open(Resumed(Some(checkpoint))), frames);
      t.baseline.Some? && (!t.mismatch ==>
        t.baseline.value.Finite? && Abs(t.baseline.value.value - checkpoint) <= TOLERANCE * |frames| as real)
  {
    if frames != [] {
      OpeningDrift(checkpoint, frames[..|frames| - 1]);
    }
  }

  /** Figures after the prompt never move the opening balance, and a mismatch is never forgiven. */
  lemma {:induction false} SpendingFacts(t: Tally, frames: seq<Usage>)
    ensures var t' := Spending(t, frames);
      && t'.baseline == t.baseline
      && (t.mismatch ==> t'.mismatch)
      && t'.latest == (if frames == [] then t.latest else Some(frames[|frames| - 1].amount))
      && (t'.sawCost <==> t.sawCost || frames != [])
      && (!t'.mismatch ==> forall u | u in frames :: Sane(u))
  {
    if frames != [] {
      SpendingFacts(t, frames[..|frames| - 1]);
      assert forall u | u in frames :: u in frames[..|frames| - 1] || u == frames[|frames| - 1];
    }
  }

  /** A cost is never negative, a cost other than zero was measured, and a measured one is the last figure less the baseline. */
  lemma BillHonest(start: Start, turn: Turn)
    ensures var b := BillFor(start, turn);
      && b.costUsd >= 0.0
      && (b.costUsd != 0.0 ==> b.source == AcpDelta)
      && (b.cumulative.Some? <==> b.baseline.Some?)
      && (b.cumulative.Some? ==>
            && b.source == AcpDelta && turn.after != []
            && turn.after[|turn.after| - 1].amount == Finite(b.cumulative.value)
            && b.costUsd == b.cumulative.value - b.baseline.value)
      && (b.cumulative.None? && turn.after != [] ==> b.source == Unavailable && b.costUsd == 0.0)
  {
    SpendingFacts(Opening(Open(start), turn.before), turn.after);
    SawNothingYet(start, turn.before);
  }

  lemma {:induction false} SawNothingYet(start: Start, frames: seq<Usage>)
    ensures !Opening(Open(start), frames).sawCost && Opening(Open(start), frames).latest.None?
  {
    if frames != [] {
      SawNothingYet(start, frames[..|frames| - 1]);
    }
  }

  predicate AllSane(frames: seq<Usage>) { forall i | 0 <= i < |frames| :: Sane(frames[i]) }

  /** A currency may be left out; otherwise it is USD in any case of letters. */
  lemma SaneIs(value: real, currency: string)
    ensures Sane(Usage(Finite(value), None)) <==> value >= 0.0
    ensures Sane(Usage(Finite(value), Some(currency))) <==>
      value >= 0.0 && |currency| == 3 && currency[0] in {'u', 'U'} && currency[1] in {'s', 'S'} && currency[2] in {'d', 'D'}
    ensures !Sane(Usage(NotFinite, None))
  {
    UpperUsd(currency);
    UpperUsd("USD");
  }

  lemma UpperUsd(s: string)
    ensures Upper(s) == "USD" <==> |s| == 3 && s[0] in {'u', 'U'} && s[1] in {'s', 'S'} && s[2] in {'d', 'D'}
  {
    UpperLength(s);
    if |s| == 3 {
      UpperAt(s, 0);
      UpperAt(s, 1);
      UpperAt(s, 2);
      UpperChars(s[0], s[1], s[2]);
      assert Upper(s) == [UpperChar(s[0]), UpperChar(s[1]), UpperChar(s[2])];
    }
  }

  lemma UpperChars(a: char, b: char, c: char)
    ensures UpperChar(a) == 'U' <==> a in {'u', 'U'}
    ensures UpperChar(b) == 'S' <==> b in {'s', 'S'}
    ensures UpperChar(c) == 'D' <==> c in {'d', 'D'}
  {
  }

  lemma {:induction false} UpperAt(s: string, i: nat)
    requires i < |s|
    ensures i < |Upper(s)| && Upper(s)[i] == UpperChar(s[i])
  {
    if i > 0 { UpperAt(s[1..], i - 1); }
  }

  lemma {:induction false} UpperLength(s: string)
    ensures |Upper(s)| == |s|
  {
    if s != "" {
      UpperLength(s[1..]);
    }
  }

  lemma {:induction false} SaneSpending(t: Tally, frames: seq<Usage>)
    requires !t.mismatch && t.currency in {"", "USD"} && AllSane(frames)
    ensures !Spending(t, frames).mismatch && Spending(t, frames).currency in {"", "USD"}
  {
    if frames != [] {
      SaneSpending(t, frames[..|frames| - 1]);
      assert Sane(frames[|frames| - 1]);
    }
  }

  /** The balance the turn starts from: the last figure before the prompt, else the stored one, else zero for a new session. */
  function BaseOf(start: Start, before: seq<Usage>): Option<Amount> {
    if before != [] then Some(before[|before| - 1].amount)
    else if start.Fresh? then Some(Finite(0.0))
    else if start.checkpoint.Some? then Some(Finite(start.checkpoint.value)) else None
  }

  /** A figure before the prompt agrees with the one known before it, when both are numbers. */
  predicate SteadyAt(start: Start, before: seq<Usage>, i: int)
    requires 0 <= i < |before|
  {
    var known := BaseOf(start, before[..i]);
    known.Some? && known.value.Finite? && before[i].amount.Finite? ==> Abs(known.value.value - before[i].amount.value) <= 0.000000001
  }

  predicate Steady(start: Start, before: seq<Usage>) {
    forall i | 0 <= i < |before| :: SteadyAt(start, before, i)
  }

  lemma SteadySnoc(start: Start, front: seq<Usage>, u: Usage)
    ensures Steady(start, front + [u]) <==> Steady(start, front) && !Moved(BaseOf(start, front), u.amount)
  {
    var before := front + [u];
    assert before[..|front|] == front;
    forall i | 0 <= i < |front| ensures SteadyAt(start, before, i) <==> SteadyAt(start, front, i) {
      assert before[..i] == front[..i];
    }
    assert SteadyAt(start, before, |front|) <==> !Moved(BaseOf(start, front), u.amount);
  }

  lemma AllSaneSnoc(front: seq<Usage>, u: Usage)
    ensures AllSane(front + [u]) <==> AllSane(front) && Sane(u)
  {
    var more := front + [u];
    assert more[|front|] == u && forall i | 0 <= i < |front| :: more[i] == front[i];
  }

  lemma OpeningStep(t: Tally, u: Usage)
    requires !t.mismatch ==> t.currency in {"", "USD"}
    ensures var t' := BeforePrompt(t, u);
      && t'.baseline == Some(u.amount)
      && (!t'.mismatch ==> t'.currency == "USD")
      && (!t'.mismatch <==> !t.mismatch && Sane(u) && !Moved(t.baseline, u.amount))
  {
  }

  lemma {:induction false} OpeningIs(start: Start, before: seq<Usage>)
    ensures var t := Opening(Open(start), before);
      && t.baseline == BaseOf(start, before)
      && (!t.mismatch ==> t.currency in {"", "USD"})
      && (!t.mismatch <==> AllSane(before) && Steady(start, before))
  {
    if before != [] {
      var front, u := before[..|before| - 1], before[|before| - 1];
      assert before == front + [u];
      OpeningIs(start, front);
      OpeningStep(Opening(Open(start), front), u);
      AllSaneSnoc(front, u);
      SteadySnoc(start, front, u);
    }
  }

  /**
   * A turn is measured exactly when figures came after its prompt, every figure was a finite amount of US dollars, not
   * negative, the opening balance was known and steady, and the last figure is not below it.
   */
  lemma MeasuredIff(start: Start, turn: Turn)
    ensures var b, base := BillFor(start, turn), BaseOf(start, turn.before);
      && (b.cumulative.Some? <==>
            && turn.after != [] && AllSane(turn.before) && AllSane(turn.after) && Steady(start, turn.before)
            && base.Some? && base.value.Finite? && base.value.value <= turn.after[|turn.after| - 1].amount.value)
      && (b.baseline.Some? ==> base == Some(Finite(b.baseline.value)))
      && (b.cumulative.None? && turn.after == [] ==> b.source == if turn.sawTokens then TokensOnly else Unavailable)
  {
    var t := Opening(Open(start), turn.before);
    OpeningIs(start, turn.before);
    SawNothingYet(start, turn.before);
    SpendingFacts(t, turn.after);
    if !t.mismatch && AllSane(turn.after) {
      SaneSpending(t, turn.after);
    }
  }

  // ---- A chain of turns on one provider session -------------------------------------------

  /** The next turn resumes the session with the last measured figure, if any turn was measured. */
  function Next(start: Start, bill: Bill): Start {
    if bill.cumulative.Some? then Resumed(bill.cumulative) else if start.Fresh? then Resumed(None) else start
  }

  function Total(start: Start, turns: seq<Turn>): real
    decreases |turns|
  {
    if turns == [] then 0.0
    else
      var bill := BillFor(start, turns[0]);
      bill.costUsd + Total(Next(start, bill), turns[1..])
  }

  /** The cumulative figure stored after the chain. */
  function LastCheckpoint(start: Start, turns: seq<Turn>): Option<real>
    decreases |turns|
  {
    if turns == [] then (if start.Fresh? then None else start.checkpoint)
    else LastCheckpoint(Next(start, BillFor(start, turns[0])), turns[1..])
  }

  /** The baseline of the first turn that was measured. */
  function FirstBaseline(start: Start, turns: seq<Turn>): Option<real>
    decreases |turns|
  {
    if turns == [] then None
    else
      var bill := BillFor(start, turns[0]);
      if bill.baseline.Some? then bill.baseline else FirstBaseline(Next(start, bill), turns[1..])
  }

  /** How many figures arrive before a prompt. */
  function Figures(turns: seq<Turn>): nat {
    if turns == [] then 0 else |turns[0].before| + Figures(turns[1..])
  }

  /** One turn's cost is the growth of the stored figure, within the tolerance per figure before its prompt. */
  lemma OneTurn(stored: real, turn: Turn)
    ensures var start := Resumed(Some(stored));
      var bill := BillFor(start, turn);
      && Next(start, bill).Resumed? && Next(start, bill).checkpoint.Some?
      && Abs(bill.costUsd - (Next(start, bill).checkpoint.value - stored)) <= TOLERANCE * |turn.before| as real
  {
    var start := Resumed(Some(stored));
    BillHonest(start, turn);
    OpeningDrift(stored, turn.before);
    SpendingFacts(Opening(Open(start), turn.before), turn.after);
  }

  /** From a known checkpoint on, the recorded costs add up to the growth of the cumulative figure. */
  lemma {:induction false} ChainTelescopes(stored: real, turns: seq<Turn>)
    ensures var last := LastCheckpoint(Resumed(Some(stored)), turns);
      last.Some? && Abs(Total(Resumed(Some(stored)), turns) - (last.value - stored)) <= TOLERANCE * Figures(turns) as real
    decreases |turns|
  {
    if turns != [] {
      var turn := turns[0];
      OneTurn(stored, turn);
      ChainTelescopes(Next(Resumed(Some(stored)), BillFor(Resumed(Some(stored)), turn)).checkpoint.value, turns[1..]);
      assert TOLERANCE * Figures(turns) as real == TOLERANCE * |turn.before| as real + TOLERANCE * Figures(turns[1..]) as real;
    }
  }

  /**
   * Over any chain on one provider session, however it starts, the recorded costs are the last checkpoint less
   * the first measured baseline, within the tolerance per pre-prompt figure; with no measured turn they are zero.
   */
  lemma {:induction false} ChainSums(start: Start, turns: seq<Turn>)
    ensures var last, base := LastCheckpoint(start, turns), FirstBaseline(start, turns);
      if base.Some? then last.Some? && Abs(Total(start, turns) - (last.value - base.value)) <= TOLERANCE * Figures(turns) as real
      else Total(start, turns) == 0.0
    decreases |turns|
  {
    if turns != [] {
      var bill := BillFor(start, turns[0]);
      BillHonest(start, turns[0]);
      if bill.cumulative.Some? {
        ChainTelescopes(bill.cumulative.value, turns[1..]);
      } else {
        ChainSums(Next(start, bill), turns[1..]);
      }
      assert TOLERANCE * Figures(turns) as real == TOLERANCE * |turns[0].before| as real + TOLERANCE * Figures(turns[1..]) as real;
    }
  }

  // ---- Where the figures stop adding up ---------------------------------------------------

  /**
   * When a resumed session cannot be loaded, a new one is prompted against the old baseline, and its cumulative
   * figure starts from nothing. So the turn should be billed its last figure. A measured turn is, exactly when its
   * baseline is zero; without figures before the prompt the baseline is the stored one, and a turn of sane figures
   * is measured exactly when it spent at least that much.
   */
  lemma FallbackBillsInFullIff(stored: real, turn: Turn)
    ensures var bill := BillFor(Resumed(Some(stored)), turn);
      && (bill.cumulative.Some? ==>
            && (bill.costUsd == bill.cumulative.value <==> bill.baseline == Some(0.0))
            && Abs(bill.baseline.value - stored) <= TOLERANCE * |turn.before| as real)
      && (turn.before == [] && turn.after != [] && AllSane(turn.after) ==>
            var spent := turn.after[|turn.after| - 1].amount.value;
            && (bill.cumulative.Some? <==> spent >= stored)
            && bill.costUsd == (if spent >= stored then spent - stored else 0.0)
            && (bill.costUsd == spent <==> stored == 0.0 || (spent == 0.0 && stored > 0.0)))
  {
    var start := Resumed(Some(stored));
    BillHonest(start, turn);
    OpeningDrift(stored, turn.before);
    SpendingFacts(Opening(Open(start), turn.before), turn.after);
    if turn.before == [] && turn.after != [] && AllSane(turn.after) {
      assert Opening(Open(start), turn.before) == Open(start);
      SaneSpending(Open(start), turn.after);
    }
  }
}
