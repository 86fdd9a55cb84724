/**
 * Consuming a worker's message stream under two watchdogs: one from the call to the opening of the stream, one from
 * there to the first content block. Times are milliseconds since the call.
 */
module StreamWatchdog {
  import opened Prelude

  datatype Block = Text(text: string) | ToolUse | OtherBlock

  datatype Message =
    | Init(session: string)
    | Assistant(content: seq<Block>)
    | Result(success: bool, cost: Option<real>)
    | Other

  /**
   * When something happens. At the millisecond a timer is due the timer may run before or after it: `late` says that
   * the timers due at `ms` have run already.
   */
  datatype Moment = Moment(ms: int, late: bool) {
    predicate NotAfter(m: Moment) { ms < m.ms || (ms == m.ms && (late ==> m.late)) }
  }

  const START := Moment(0, false)

  datatype Timed = Timed(at: Moment, message: Message)

  /** How the stream ends; `aborted` says that the caller's own signal fired. */
  datatype Ending = Ended(at: Moment) | Threw(at: Moment, aborted: bool)

  datatype StopReason = EndTurn | Timeout | ToolError | FirstTokenTimeout

  datatype Outcome = Outcome(
    stopReason: StopReason,
    session: string,
    costUsd: real,
    msToFirstToken: Option<int>,
    finalMessage: string,
    streamOpened: bool)

  datatype Timer = Off | Armed(deadline: int) | Spent

  // ---- What a message is ------------------------------------------------------------------

  predicate HasContent(m: Message) {
    m.Assistant? && exists k | 0 <= k < |m.content| :: m.content[k].Text? || m.content[k].ToolUse?
  }

  predicate Opens(m: Message) { m.Init? || HasContent(m) }

  function TextOf(blocks: seq<Block>): string {
    if blocks == [] then "" else (if blocks[0].Text? then blocks[0].text else "") + TextOf(blocks[1..])
  }

  predicate Ordered(events: seq<Timed>, ending: Ending) {
    && (forall i, j | 0 <= i < j < |events| :: events[i].at.NotAfter(events[j].at))
    && (forall i | 0 <= i < |events| :: START.NotAfter(events[i].at) && events[i].at.NotAfter(ending.at))
    && START.NotAfter(ending.at)
  }

  /** The options' seconds as a window; nothing or zero switches the watchdog off. */
  function Window(seconds: Option<int>): int {
    if seconds.Some? && seconds.value > 0 then seconds.value * 1000 else 0
  }

  // ---- When the deadlines pass ------------------------------------------------------------

  /** A timer set for `deadline` has run by `now`. */
  predicate Due(deadline: int, now: Moment) { deadline < now.ms || (now.late && deadline == now.ms) }

  predicate FirstInit(events: seq<Timed>, f: int) {
    0 <= f < |events| && events[f].message.Init? && forall j | 0 <= j < f :: !events[j].message.Init?
  }

  /** The stream-open deadline passes while the stream runs, with no init and no content block before it. */
  predicate NeverOpened(events: seq<Timed>, now: Moment, window: int) {
    window > 0 && Due(window, now) && forall j | 0 <= j < |events| && Opens(events[j].message) :: Due(window, events[j].at)
  }

  /** The deadline set by the init at `f` passes while the stream runs, with no content block before it. */
  predicate Silent(events: seq<Timed>, f: int, now: Moment, window: int)
    requires 0 <= f < |events|
  {
    && Due(events[f].at.ms + window, now)
    && forall j | 0 <= j < |events| && HasContent(events[j].message) :: Due(events[f].at.ms + window, events[j].at)
  }

  predicate NoFirstToken(events: seq<Timed>, now: Moment, window: int) {
    window > 0 && exists f | 0 <= f < |events| :: FirstInit(events, f) && Silent(events, f, now, window)
  }

  predicate TimesOut(events: seq<Timed>, now: Moment, openWindow: int, tokenWindow: int) {
    NeverOpened(events, now, openWindow) || NoFirstToken(events, now, tokenWindow)
  }

  // ---- What the stream leaves behind ------------------------------------------------------

  function FirstContentAt(events: seq<Timed>): Option<int> {
    if events == [] then None
    else if FirstContentAt(events[..|events| - 1]).Some? then FirstContentAt(events[..|events| - 1])
    else if HasContent(events[|events| - 1].message) then Some(events[|events| - 1].at.ms) else None
  }

  /** The last result message, if any. */
  function LastResult(events: seq<Timed>): Option<Message> {
    if events == [] then None
    else if events[|events| - 1].message.Result? then Some(events[|events| - 1].message)
    else LastResult(events[..|events| - 1])
  }

  function LastSession(events: seq<Timed>): string {
    if events == [] then ""
    else match events[|events| - 1].message
      case Init(session) => session
      case Assistant(_) => LastSession(events[..|events| - 1])
      case Result(_, _) => LastSession(events[..|events| - 1])
      case Other => LastSession(events[..|events| - 1])
  }

  function LastText(events: seq<Timed>): string {
    if events == [] then ""
    else
      var m := events[|events| - 1].message;
      if m.Assistant? && !Blank(TextOf(m.content)) then TextOf(m.content) else LastText(events[..|events| - 1])
  }

  function ResultCost(r: Option<Message>): real {
    if r.Some? && r.value.Result? then r.value.cost.GetOr(0.0) else 0.0
  }

  function ResultReason(r: Option<Message>): StopReason {
    if r.Some? && r.value.Result? && !r.value.success then ToolError else EndTurn
  }

  // ---- The two timers ---------------------------------------------------------------------

  /** A message that arrives now, after the timers have run, changes nothing about them. */
  lemma ArrivalKeeps(events: seq<Timed>, now: Moment, m: Message, openWindow: int, tokenWindow: int)
    ensures TimesOut(events + [Timed(now, m)], now, openWindow, tokenWindow) <==> TimesOut(events, now, openWindow, tokenWindow)
  {
    var more := events + [Timed(now, m)];
    assert more[|events|] == Timed(now, m);
    assert forall j | 0 <= j < |events| :: more[j] == events[j];
    forall f | 0 <= f < |events|
      ensures FirstInit(more, f) <==> FirstInit(events, f)
      ensures Silent(more, f, now, tokenWindow) <==> Silent(events, f, now, tokenWindow)
    {
      if Silent(more, f, now, tokenWindow) {
        forall j | 0 <= j < |events| && HasContent(events[j].message) ensures Due(events[f].at.ms + tokenWindow, events[j].at) {
          assert HasContent(more[j].message);
        }
      }
    }
    if NeverOpened(more, now, openWindow) {
      forall j | 0 <= j < |events| && Opens(events[j].message) ensures Due(openWindow, events[j].at) {
        assert Opens(more[j].message);
      }
    }
  }

  class Watchdogs {
    const openWindow: int
    const tokenWindow: int
    var streamOpened: bool
    var firstTokenSeen: bool
    var timedOut: bool
    var openTimer: Timer
    var tokenTimer: Timer
    ghost var seen: seq<Timed>
    ghost var now: Moment
    ghost var first: int

    ghost predicate Valid()
      reads this
    {
      && (streamOpened ==> FirstInit(seen, first))
      && (!streamOpened ==> forall j | 0 <= j < |seen| :: !seen[j].message.Init?)
      && (firstTokenSeen <==> exists j | 0 <= j < |seen| :: HasContent(seen[j].message))
      && (openTimer.Armed? ==> openWindow > 0 && openTimer.deadline == openWindow && !streamOpened && !firstTokenSeen)
      && (openWindow > 0 && !streamOpened && !firstTokenSeen && !timedOut ==> openTimer.Armed?)
      && (tokenTimer.Armed? ==> streamOpened && tokenWindow > 0 && tokenTimer.deadline == seen[first].at.ms + tokenWindow)
      && (tokenTimer == Spent ==> streamOpened)
      && (streamOpened && tokenWindow > 0 && !firstTokenSeen && !timedOut ==> tokenTimer.Armed?)
      && (forall j | 0 <= j < |seen| :: seen[j].at.NotAfter(now))
      && (timedOut <==> TimesOut(seen, now, openWindow, tokenWindow))
      && START.NotAfter(now)
    }

    /** At call initiation: only the stream-open timer is set. */
    constructor (openWindow: int, tokenWindow: int)
      ensures Valid() && seen == [] && now == START
      ensures this.openWindow == openWindow && this.tokenWindow == tokenWindow
    {
      this.openWindow, this.tokenWindow := openWindow, tokenWindow;
      streamOpened, firstTokenSeen, timedOut := false, false, false;
      openTimer := if openWindow > 0 then Armed(openWindow) else Off;
      tokenTimer := Off;
      seen, now, first := [], START, 0;
    }

    /** Time passes: timers whose deadline has come run. */
    method Run(at: Moment)
      requires Valid() && now.NotAfter(at)
      modifies this
      ensures Valid() && now == at && seen == old(seen)
    {
      if openTimer.Armed? && Due(openTimer.deadline, at) {
        openTimer := Spent;
        if !streamOpened { timedOut := true; }
      }
      if tokenTimer.Armed? && Due(tokenTimer.deadline, at) {
        tokenTimer := Spent;
        if !firstTokenSeen { timedOut := true; }
      }
      now := at;
    }

    /** A message arrives. */
    method Note(at: Moment, message: Message)
      requires Valid() && at == now
      modifies this
      ensures Valid() && now == old(now) && seen == old(seen) + [Timed(now, message)]
      {
      ArrivalKeeps(seen, now, message, openWindow, tokenWindow);
      if message.Init? && !streamOpened {
        streamOpened, first := true, |seen|;
        openTimer := Off;
        if tokenWindow > 0 && tokenTimer == Off { tokenTimer := Armed(at.ms + tokenWindow); }
      }
      if HasContent(message) && !firstTokenSeen {
        firstTokenSeen := true;
        openTimer, tokenTimer := Off, Off;
      }
      seen := seen + [Timed(now, message)];
      assert seen[|seen| - 1].message == message;
      assert forall j | 0 <= j < |old(seen)| :: seen[j] == old(seen)[j];
    }

    method Feed(event: Timed)
      requires Valid() && now.NotAfter(event.at)
      modifies this
      ensures Valid() && now == event.at && seen == old(seen) + [event]
    {
      Run(event.at);
      Note(event.at, event.message);
    }

    /** The stream is over: what the watchdogs have to say. */
    method Finish(at: Moment) returns (expired: bool)
      requires Valid() && now.NotAfter(at)
      modifies this
      ensures expired <==> TimesOut(old(seen), at, openWindow, tokenWindow)
    {
      Run(at);
      expired := timedOut;
    }
  }

  // ---- The consumer -----------------------------------------------------------------------

  predicate Opened(events: seq<Timed>) { exists i | 0 <= i < |events| :: events[i].message.Init? }

  lemma OpenedNext(events: seq<Timed>, event: Timed)
    ensures Opened(events + [event]) <==> Opened(events) || event.message.Init?
  {
    var more := events + [event];
    assert more[|events|] == event && forall i | 0 <= i < |events| :: more[i] == events[i];
  }

  /** What the messages alone leave in the outcome. */
  function Left(events: seq<Timed>): Outcome {
    var r := LastResult(events);
    Outcome(ResultReason(r), LastSession(events), ResultCost(r), FirstContentAt(events), LastText(events), Opened(events))
  }

  method Record(ghost before: seq<Timed>, event: Timed, was: Outcome) returns (out: Outcome)
    requires was == Left(before)
    ensures out == Left(before + [event])
  {
    assert (before + [event])[..|before|] == before;
    OpenedNext(before, event);
    out := was;
    var message := event.message;
    if message.Init? {
      out := out.(session := message.session, streamOpened := true);
    }
    if message.Assistant? {
      if out.msToFirstToken.None? && HasContent(message) {
        out := out.(msToFirstToken := Some(event.at.ms));
      }
      if !Blank(TextOf(message.content)) {
        out := out.(finalMessage := TextOf(message.content));
      }
    }
    if message.Result? {
      out := out.(stopReason := if message.success then EndTurn else ToolError, costUsd := message.cost.GetOr(0.0));
    }
  }

  /** The loop over the stream. */
  method FeedAll(dogs: Watchdogs, events: seq<Timed>, ghost end: Moment) returns (out: Outcome)
    requires dogs.Valid() && dogs.seen == [] && dogs.now == START
    requires START.NotAfter(end) && forall i | 0 <= i < |events| :: START.NotAfter(events[i].at) && events[i].at.NotAfter(end)
    requires forall i, j | 0 <= i < j < |events| :: events[i].at.NotAfter(events[j].at)
    modifies dogs
    ensures dogs.Valid() && dogs.seen == events && dogs.now.NotAfter(end)
    ensures out == Left(events)
  {
    out := Outcome(EndTurn, "", 0.0, None, "", false);
    for i := 0 to |events|
      invariant dogs.Valid() && dogs.seen == events[..i] && dogs.now == if i > 0 then events[i - 1].at else START
      invariant out == Left(events[..i])
    {
      var event := events[i];
      dogs.Feed(event);
      out := Record(events[..i], event, out);
      assert events[..i + 1] == events[..i] + [event];
    }
    assert events[..|events|] == events;
  }

  /**
   * The whole stream. It is classed as first_token_timeout exactly when a watchdog's deadline passes first; otherwise
   * by its last result message when it ends, and by the abort signal when it throws.
   */
  method Consume(events: seq<Timed>, ending: Ending, streamOpenSeconds: Option<int>, firstTokenSeconds: Option<int>)
      returns (out: Outcome)
    requires Ordered(events, ending)
    ensures out.stopReason == FirstTokenTimeout <==>
            TimesOut(events, ending.at, Window(streamOpenSeconds), Window(firstTokenSeconds))
    ensures out.stopReason != FirstTokenTimeout ==>
            out.stopReason == match ending
              case Ended(_) => ResultReason(LastResult(events))
              case Threw(_, aborted) => if aborted then Timeout else ToolError
    ensures out == Left(events).(stopReason := out.stopReason)
  {
    var dogs := new Watchdogs(Window(streamOpenSeconds), Window(firstTokenSeconds));
    out := FeedAll(dogs, events, ending.at);
    var expired := dogs.Finish(ending.at);
    var stopReason := match ending
      case Ended(_) => out.stopReason
      case Threw(_, aborted) => if aborted then Timeout else ToolError;
    out := out.(stopReason := if expired then FirstTokenTimeout else stopReason);
  }

  // ---- What the outcome reports -----------------------------------------------------------

  lemma {:induction false} LastResultIs(events: seq<Timed>, i: nat)
    requires i < |events| && events[i].message.Result? && forall j | i < j < |events| :: !events[j].message.Result?
    ensures LastResult(events) == Some(events[i].message)
  {
    if i < |events| - 1 {
      LastResultIs(events[..|events| - 1], i);
    }
  }

  lemma {:induction false} NoResultAtAll(events: seq<Timed>)
    requires forall j | 0 <= j < |events| :: !events[j].message.Result?
    ensures LastResult(events).None?
  {
    if events != [] {
      NoResultAtAll(events[..|events| - 1]);
    }
  }

  /** The last result message sets the cost and, for a stream that ends, the stop reason. */
  lemma ResultDecides(events: seq<Timed>, i: nat)
    requires i < |events| && events[i].message.Result? && forall j | i < j < |events| :: !events[j].message.Result?
    ensures Left(events).costUsd == match events[i].message.cost
      case None => 0.0
      case Some(usd) => usd
    ensures Left(events).stopReason == if events[i].message.success then EndTurn else ToolError
  {
    LastResultIs(events, i);
  }

  lemma NothingDecides(events: seq<Timed>)
    requires forall j | 0 <= j < |events| :: !events[j].message.Result?
    ensures Left(events).costUsd == 0.0 && Left(events).stopReason == EndTurn
  {
    NoResultAtAll(events);
  }

  /** The session is the one the last init names. */
  lemma {:induction false} SessionOfLastInit(events: seq<Timed>, i: nat)
    requires i < |events| && events[i].message.Init? && forall j | i < j < |events| :: !events[j].message.Init?
    ensures Left(events).session == events[i].message.session
  {
    if i < |events| - 1 {
      SessionOfLastInit(events[..|events| - 1], i);
    }
  }

  /** The time to the first token is that of the first content block, and absent without one. */
  lemma {:induction false} FirstTokenTime(events: seq<Timed>, i: nat)
    requires i <= |events| && forall j | 0 <= j < i :: !HasContent(events[j].message)
    requires i < |events| ==> HasContent(events[i].message)
    ensures Left(events).msToFirstToken == if i < |events| then Some(events[i].at.ms) else None
    decreases |events|
  {
    if events != [] {
      FirstTokenTime(events[..|events| - 1], if i < |events| then i else |events| - 1);
    }
  }

  predicate Speaks(m: Message) { m.Assistant? && !Blank(TextOf(m.content)) }

  /** The final message is the text of the last assistant message that has any. */
  lemma {:induction false} FinalMessageIs(events: seq<Timed>, i: nat)
    requires i < |events| && Speaks(events[i].message) && forall j | i < j < |events| :: !Speaks(events[j].message)
    ensures Left(events).finalMessage == TextOf(events[i].message.content)
  {
    if i < |events| - 1 {
      FinalMessageIs(events[..|events| - 1], i);
    }
  }

  /** A message's text is its text blocks one after another. */
  lemma {:induction false} TextOfParts(a: seq<Block>, b: seq<Block>, text: string)
    ensures TextOf(a + b) == TextOf(a) + TextOf(b)
    ensures TextOf([Text(text)]) == text && TextOf([ToolUse]) == TextOf([OtherBlock]) == ""
  {
    if a == [] {
      assert a + b == b;
    } else {
      assert (a + b)[1..] == a[1..] + b;
      TextOfParts(a[1..], b, text);
    }
  }

  /** A watchdog can only fire once its seconds have passed, and never when it is not configured. */
  lemma NoEarlyTimeout(events: seq<Timed>, end: Moment, streamOpenSeconds: Option<int>, firstTokenSeconds: Option<int>)
    requires forall i | 0 <= i < |events| :: START.NotAfter(events[i].at)
    requires TimesOut(events, end, Window(streamOpenSeconds), Window(firstTokenSeconds))
    ensures (streamOpenSeconds.Some? && 0 < streamOpenSeconds.value && 1000 * streamOpenSeconds.value <= end.ms)
            || (firstTokenSeconds.Some? && 0 < firstTokenSeconds.value && 1000 * firstTokenSeconds.value <= end.ms)
  {
  }

  /** A stream that says nothing for longer than a configured time is timed out. */
  lemma SilenceTimesOut(events: seq<Timed>, end: Moment, seconds: int, other: Option<int>)
    requires 0 < seconds && 1000 * seconds < end.ms && forall i | 0 <= i < |events| :: !Opens(events[i].message)
    ensures TimesOut(events, end, Window(Some(seconds)), Window(other))
  {
  }

  // ---- A late init ------------------------------------------------------------------------

  /** Once a content block has come before any init, and before the stream-open deadline if there is one, nothing can time out. */
  lemma LateInitIsHarmless(events: seq<Timed>, ending: Ending, c: int, openWindow: int, tokenWindow: int)
    requires Ordered(events, ending) && 0 <= c < |events| && HasContent(events[c].message)
    requires openWindow > 0 ==> !Due(openWindow, events[c].at)
    requires forall j | 0 <= j < c :: !events[j].message.Init?
    ensures !TimesOut(events, ending.at, openWindow, tokenWindow)
  {
    forall f | FirstInit(events, f) && tokenWindow > 0 ensures !Silent(events, f, ending.at, tokenWindow) {
      assert HasContent(events[c].message) && events[c].at.NotAfter(events[f].at);
    }
  }

  /** A stream that opened and then stays without content times out once the first-token window has passed. */
  lemma SilenceAfterInitTimesOut(events: seq<Timed>, f: nat, end: Moment, seconds: int, other: Option<int>)
    requires f < |events| && events[f].message.Init? && forall j | 0 <= j < f :: !events[j].message.Init?
    requires 0 < seconds && events[f].at.ms + 1000 * seconds < end.ms
    requires forall i | 0 <= i < |events| :: !HasContent(events[i].message)
    ensures TimesOut(events, end, Window(other), Window(Some(seconds)))
  {
    assert FirstInit(events, f) && Silent(events, f, end, 1000 * seconds);
  }

  /** A stream with content before either window has passed never times out. */
  lemma ContentInTime(events: seq<Timed>, i: nat, end: Moment, openSeconds: int, tokenSeconds: int)
    requires forall j | 0 <= j < |events| :: START.NotAfter(events[j].at)
    requires i < |events| && HasContent(events[i].message)
    requires events[i].at.ms < 1000 * openSeconds && events[i].at.ms < 1000 * tokenSeconds
    ensures !TimesOut(events, end, Window(Some(openSeconds)), Window(Some(tokenSeconds)))
  {
    assert Opens(events[i].message) && !Due(1000 * openSeconds, events[i].at);
    forall f | 0 <= f < |events| ensures !Silent(events, f, end, 1000 * tokenSeconds) {
      assert START.NotAfter(events[f].at) && !Due(events[f].at.ms + 1000 * tokenSeconds, events[i].at);
    }
  }
}
