/**
 * The JSON-RPC 2.0 peer: requests awaiting responses, requests from the agent awaiting replies, and the
 * handlers that close the connection.
 */
module AcpConnection {
  import opened Prelude

  /** JSON-RPC ids are arbitrary JSON; only numbers can match an id this side issued. */
  datatype JsonId = Number(n: int) | Other(text: string)

  datatype Message = Message(
    id: Option<JsonId>,
    name: string,                         // the method, empty when there is none
    result: Option<string>,
    error: Option<Option<string>>)        // an error object, with or without a message

  datatype Promise = Waiting | Resolved(value: string) | Rejected(reason: string)

  /** An inbound request: its handler still running, or finished and answered or not. */
  datatype Handler = Running(id: JsonId) | Finished(id: JsonId, answered: bool)

  datatype Reply = Reply(handler: nat, id: JsonId, ok: bool, body: string)

  datatype State = State(
    nextId: int,
    pending: map<int, nat>,               // request id -> promise
    closed: bool,
    spawnError: Option<string>,
    closeError: Option<string>,
    promises: seq<Promise>,
    settlements: seq<nat>,                // every resolve or reject call so far
    requests: seq<int>,                   // ids of the requests written
    handlers: seq<Handler>,
    replies: seq<Reply>,
    notified: seq<string>)

  const INITIAL := State(1, map[], false, None, None, [], [], [], [], [], [])
  const NOT_STARTED := "acp agent could not be started: "
  const RPC_ERROR := "acp rpc error"
  const NOT_OPEN := "acp agent connection is closed"

  datatype Event =
    | Request
    | Receive(msg: Message)
    | Handled(handler: nat, ok: bool, body: string)
    | SpawnFailed(reason: string)
    | Exited(reason: string)

  predicate Enabled(s: State, e: Event) {
    e.Handled? ==> e.handler < |s.handlers| && s.handlers[e.handler].Running?
  }

  function AfterRequest(s: State): State {
    if s.closed then
      s.(promises := s.promises + [Rejected(s.closeError.GetOr(NOT_OPEN))], settlements := s.settlements + [|s.promises|])
    else
      s.(nextId := s.nextId + 1, pending := s.pending[s.nextId := |s.promises|],
         promises := s.promises + [Waiting], requests := s.requests + [s.nextId])
  }

  predicate IsResponse(msg: Message) { msg.id.Some? && (msg.result.Some? || msg.error.Some?) }

  predicate Matches(s: State, msg: Message) {
    IsResponse(msg) && msg.id.value.Number? && msg.id.value.n in s.pending
  }

  function Outcome(msg: Message): Promise {
    if msg.error.Some? then Rejected(msg.error.value.GetOr(RPC_ERROR)) else Resolved(msg.result.GetOr(""))
  }

  function AfterReceive(s: State, msg: Message): State {
    if IsResponse(msg) then
      if Matches(s, msg) && s.pending[msg.id.value.n] < |s.promises| then
        var p := s.pending[msg.id.value.n];
        s.(pending := s.pending - {msg.id.value.n}, promises := s.promises[p := Outcome(msg)],
           settlements := s.settlements + [p])
      else s
    else if msg.name == "" then s
    else if msg.id.Some? then s.(handlers := s.handlers + [Running(msg.id.value)])
    else s.(notified := s.notified + [msg.name])
  }

  function AfterHandled(s: State, h: nat, ok: bool, body: string): State
    requires h < |s.handlers|
  {
    var id := s.handlers[h].id;
    s.(handlers := s.handlers[h := Finished(id, !s.closed)],
       replies := s.replies + (if s.closed then [] else [Reply(h, id, ok, body)]))
  }

  /** The promises of the pending requests with ids from `lo`, in the order the requests were made. */
  function PendingFrom(pending: map<int, nat>, nextId: int, lo: int): seq<nat>
    decreases nextId - lo
  {
    if lo >= nextId then []
    else (if lo in pending then [pending[lo]] else []) + PendingFrom(pending, nextId, lo + 1)
  }

  function RejectAll(promises: seq<Promise>, doomed: seq<nat>, reason: string): (r: seq<Promise>)
    ensures |r| == |promises|
    ensures forall p: nat | p < |promises| :: r[p] == if p in doomed then Rejected(reason) else promises[p]
  {
    seq(|promises|, p requires 0 <= p < |promises| => if p in doomed then Rejected(reason) else promises[p])
  }

  lemma RejectOneMore(promises: seq<Promise>, doomed: seq<nat>, p: nat, reason: string)
    requires p < |promises|
    ensures RejectAll(promises, doomed, reason)[p := Rejected(reason)] == RejectAll(promises, doomed + [p], reason)
  {
  }

  function AfterClose(s: State, reason: string, spawnError: Option<string>): State {
    var doomed := PendingFrom(s.pending, s.nextId, 1);
    s.(closed := true, spawnError := spawnError, closeError := Some(reason), pending := map[],
       promises := RejectAll(s.promises, doomed, reason), settlements := s.settlements + doomed)
  }

  function CloseReason(s: State, reason: string): string {
    if s.spawnError.Some? then NOT_STARTED + s.spawnError.value else reason
  }

  function Apply(s: State, e: Event): State
    requires Enabled(s, e)
  {
    match e
    case Request => AfterRequest(s)
    case Receive(msg) => AfterReceive(s, msg)
    case Handled(h, ok, body) => AfterHandled(s, h, ok, body)
    case SpawnFailed(reason) => AfterClose(s, NOT_STARTED + reason, Some(reason))
    case Exited(reason) => AfterClose(s, CloseReason(s, reason), s.spawnError)
  }

  // ---- What every interleaving keeps ------------------------------------------------------

  function CountReplies(replies: seq<Reply>, h: nat): nat {
    if replies == [] then 0
    else CountReplies(replies[..|replies| - 1], h) + (if replies[|replies| - 1].handler == h then 1 else 0)
  }

  /** Ids count up from one, so none is used twice. */
  predicate IdsFresh(s: State) {
    s.nextId == |s.requests| + 1 && forall i | 0 <= i < |s.requests| :: s.requests[i] == i + 1
  }

  predicate Awaited(pending: map<int, nat>, p: nat) { exists id :: id in pending && pending[id] == p }

  /** The pending table holds exactly the waiting promises, each under one issued id. */
  predicate PendingExact(s: State) {
    && (forall id | id in s.pending :: 1 <= id < s.nextId && s.pending[id] < |s.promises| && s.promises[s.pending[id]].Waiting?)
    && (forall a, b | a in s.pending && b in s.pending && a != b :: s.pending[a] != s.pending[b])
    && (forall p: nat | p < |s.promises| && s.promises[p].Waiting? :: Awaited(s.pending, p))
    && (s.closed ==> s.pending == map[])
  }

  /** Every settled promise was settled by exactly one call, and no waiting one by any. */
  predicate SettledOnce(s: State) {
    && (forall p: nat | p < |s.promises| :: multiset(s.settlements)[p] == if s.promises[p].Waiting? then 0 else 1)
    && (forall p | p in s.settlements :: p < |s.promises|)
  }

  /** Each inbound request has one reply, with its id, when its handler finished on an open connection. */
  predicate RepliedOnce(s: State) {
    && (forall h | 0 <= h < |s.handlers| ::
          CountReplies(s.replies, h) == if s.handlers[h].Finished? && s.handlers[h].answered then 1 else 0)
    && (forall i | 0 <= i < |s.replies| ::
          s.replies[i].handler < |s.handlers| && s.replies[i].id == s.handlers[s.replies[i].handler].id)
  }

  predicate Sound(s: State) { IdsFresh(s) && PendingExact(s) && SettledOnce(s) && RepliedOnce(s) }

  lemma CountAppend(a: seq<nat>, b: seq<nat>, p: nat)
    ensures multiset(a + b)[p] == multiset(a)[p] + multiset(b)[p]
  {
  }

  /** Draining visits every pending promise. */
  lemma {:induction false} PendingFromMembers(pending: map<int, nat>, nextId: int, lo: int, p: nat)
    requires forall id | id in pending :: id < nextId
    ensures p in PendingFrom(pending, nextId, lo) <==> exists id | id in pending :: id >= lo && pending[id] == p
    decreases nextId - lo
  {
    if lo < nextId {
      PendingFromMembers(pending, nextId, lo + 1, p);
    }
  }

  /** Draining visits no promise twice. */
  lemma {:induction false} PendingFromDistinct(pending: map<int, nat>, nextId: int, lo: int, p: nat)
    requires forall id | id in pending :: id < nextId
    requires forall a, b | a in pending && b in pending && a != b :: pending[a] != pending[b]
    ensures multiset(PendingFrom(pending, nextId, lo))[p] <= 1
    decreases nextId - lo
  {
    if lo < nextId {
      PendingFromDistinct(pending, nextId, lo + 1, p);
      PendingFromMembers(pending, nextId, lo + 1, p);
      CountAppend(if lo in pending then [pending[lo]] else [], PendingFrom(pending, nextId, lo + 1), p);
    }
  }

  lemma DrainExact(s: State, p: nat)
    requires PendingExact(s)
    ensures p in PendingFrom(s.pending, s.nextId, 1) <==> p < |s.promises| && s.promises[p].Waiting?
    ensures multiset(PendingFrom(s.pending, s.nextId, 1))[p] ==
      if p < |s.promises| && s.promises[p].Waiting? then 1 else 0
  {
    PendingFromMembers(s.pending, s.nextId, 1, p);
    PendingFromDistinct(s.pending, s.nextId, 1, p);
    if p < |s.promises| && s.promises[p].Waiting? {
      var id :| id in s.pending && s.pending[id] == p;
    }
  }

  lemma CloseSound(s: State, reason: string, spawnError: Option<string>)
    requires Sound(s)
    ensures Sound(AfterClose(s, reason, spawnError))
    ensures forall p: nat | p < |s.promises| ::
      AfterClose(s, reason, spawnError).promises[p] == if s.promises[p].Waiting? then Rejected(reason) else s.promises[p]
  {
    var s', doomed := AfterClose(s, reason, spawnError), PendingFrom(s.pending, s.nextId, 1);
    forall p: nat | p < |s.promises|
      ensures multiset(s'.settlements)[p] == 1 && !s'.promises[p].Waiting?
      ensures s'.promises[p] == if s.promises[p].Waiting? then Rejected(reason) else s.promises[p]
    {
      DrainExact(s, p);
      CountAppend(s.settlements, doomed, p);
    }
    forall p | p in s'.settlements ensures p < |s'.promises| {
      if p in doomed { DrainExact(s, p); }
    }
  }

  lemma RequestSound(s: State)
    requires Sound(s)
    ensures Sound(AfterRequest(s))
  {
    var s' := AfterRequest(s);
    forall p: nat | p < |s'.promises|
      ensures multiset(s'.settlements)[p] == if s'.promises[p].Waiting? then 0 else 1
    {
      if p == |s.promises| { assert p !in s.settlements; }
    }
    forall p: nat | p < |s'.promises| && s'.promises[p].Waiting? ensures Awaited(s'.pending, p) {
      if p == |s.promises| {
        assert s'.pending[s.nextId] == p;
      } else {
        var id :| id in s.pending && s.pending[id] == p;
        assert s'.pending[id] == p;
      }
    }
  }

  lemma ResponseSound(s: State, msg: Message)
    requires Sound(s) && Matches(s, msg)
    ensures Sound(AfterReceive(s, msg))
  {
    var s' := AfterReceive(s, msg);
    var id := msg.id.value.n;
    forall p: nat | p < |s'.promises| && s'.promises[p].Waiting? ensures Awaited(s'.pending, p) {
      var other :| other in s.pending && s.pending[other] == p;
      assert s'.pending[other] == p;
    }
    forall p: nat | p < |s'.promises|
      ensures multiset(s'.settlements)[p] == if s'.promises[p].Waiting? then 0 else 1
    {
      CountAppend(s.settlements, [s.pending[id]], p);
    }
  }

  lemma HandledSound(s: State, h: nat, ok: bool, body: string)
    requires Sound(s) && h < |s.handlers| && s.handlers[h].Running?
    ensures Sound(AfterHandled(s, h, ok, body))
  {
    var s' := AfterHandled(s, h, ok, body);
    if !s.closed {
      assert s'.replies[..|s'.replies| - 1] == s.replies;
    } else {
      assert s'.replies == s.replies;
    }
  }

  lemma InboundSound(s: State, id: JsonId)
    requires Sound(s)
    ensures Sound(s.(handlers := s.handlers + [Running(id)]))
  {
    NoEarlyReply(s.replies, |s.handlers|);
  }

  lemma {:induction false} NoEarlyReply(replies: seq<Reply>, h: nat)
    requires forall i | 0 <= i < |replies| :: replies[i].handler < h
    ensures CountReplies(replies, h) == 0
  {
    if replies != [] {
      NoEarlyReply(replies[..|replies| - 1], h);
    }
  }

  lemma StepSound(s: State, e: Event)
    requires Sound(s) && Enabled(s, e)
    ensures Sound(Apply(s, e))
    ensures s.closed ==> Apply(s, e).closed && Apply(s, e).requests == s.requests
    // A settled promise never changes, and an answered request is never answered again.
    ensures |s.promises| <= |Apply(s, e).promises|
            && forall p: nat | p < |s.promises| && !s.promises[p].Waiting? :: Apply(s, e).promises[p] == s.promises[p]
    ensures s.replies <= Apply(s, e).replies && s.requests <= Apply(s, e).requests
  {
    match e
    case Request => RequestSound(s);
    case Receive(msg) =>
      if Matches(s, msg) {
        ResponseSound(s, msg);
      } else if !IsResponse(msg) && msg.name != "" && msg.id.Some? {
        InboundSound(s, msg.id.value);
      }
    case Handled(h, ok, body) => HandledSound(s, h, ok, body);
    case SpawnFailed(reason) => CloseSound(s, NOT_STARTED + reason, Some(reason));
    case Exited(reason) => CloseSound(s, CloseReason(s, reason), s.spawnError);
  }

  ghost predicate Run(ss: seq<State>, es: seq<Event>) {
    && |ss| == |es| + 1 && ss[0] == INITIAL
    && forall k | 0 <= k < |es| :: Enabled(ss[k], es[k]) && ss[k + 1] == Apply(ss[k], es[k])
  }

  /**
   * At every point of every interleaving: ids are fresh, each promise is settled at most once, and on a closed
   * connection nothing is pending and no promise is still waiting.
   */
  lemma {:induction false} EveryInterleaving(ss: seq<State>, es: seq<Event>, k: nat)
    requires Run(ss, es) && k <= |es|
    ensures Sound(ss[k])
    ensures ss[k].closed ==> ss[k].pending == map[] && forall p: nat | p < |ss[k].promises| :: !ss[k].promises[p].Waiting?
  {
    if k > 0 {
      EveryInterleaving(ss, es, k - 1);
      StepSound(ss[k - 1], es[k - 1]);
    }
  }

  // ---- What settles a promise, and what a reply says --------------------------------------

  /** The event is a response to the request that waits on this promise. */
  predicate Answers(s: State, e: Event, p: nat) {
    e.Receive? && IsResponse(e.msg) && e.msg.id.value.Number? && e.msg.id.value.n in s.pending && s.pending[e.msg.id.value.n] == p
  }

  /** The promise settles with this event in this way. */
  predicate SettledBy(s: State, e: Event, p: nat, promise: Promise) {
    match promise
    case Waiting => false
    case Resolved(value) => Answers(s, e, p) && e.msg.error.None? && e.msg.result == Some(value)
    case Rejected(reason) =>
      || (Answers(s, e, p) && e.msg.error.Some? && reason == e.msg.error.value.GetOr("acp rpc error"))
      || (e.SpawnFailed? && reason == "acp agent could not be started: " + e.reason)
      || (e.Exited? && reason == if s.spawnError.Some? then "acp agent could not be started: " + s.spawnError.value else e.reason)
      || (e.Request? && s.closed && p == |s.promises| && reason == s.closeError.GetOr("acp agent connection is closed"))
  }

  lemma StepSettles(s: State, e: Event, p: nat)
    requires Sound(s) && Enabled(s, e) && p < |Apply(s, e).promises|
    ensures (p < |s.promises| && Apply(s, e).promises[p] == s.promises[p])
            || Apply(s, e).promises[p].Waiting? || SettledBy(s, e, p, Apply(s, e).promises[p])
  {
    if e.SpawnFailed? { CloseSound(s, NOT_STARTED + e.reason, Some(e.reason)); }
    if e.Exited? { CloseSound(s, CloseReason(s, e.reason), s.spawnError); }
  }

  /**
   * At every point of every interleaving, a settled promise was settled by the response to its own request, by its
   * result or by its error, or by the connection's end, or by being made after it.
   */
  lemma {:induction false} SettledByItsAnswer(ss: seq<State>, es: seq<Event>, k: nat, p: nat)
    requires Run(ss, es) && k <= |es| && p < |ss[k].promises| && !ss[k].promises[p].Waiting?
    ensures exists j | 0 <= j < k :: SettledBy(ss[j], es[j], p, ss[k].promises[p])
  {
    if k > 0 {
      EveryInterleaving(ss, es, k - 1);
      StepSettles(ss[k - 1], es[k - 1], p);
      if p < |ss[k - 1].promises| && ss[k].promises[p] == ss[k - 1].promises[p] {
        SettledByItsAnswer(ss, es, k - 1, p);
      } else {
        assert SettledBy(ss[k - 1], es[k - 1], p, ss[k].promises[p]);
      }
    }
  }

  /** Every reply carries what its handler finished with, while the connection was open. */
  lemma {:induction false} RepliesSayWhatFinished(ss: seq<State>, es: seq<Event>, k: nat, i: nat)
    requires Run(ss, es) && k <= |es| && i < |ss[k].replies|
    ensures var r := ss[k].replies[i];
      exists j | 0 <= j < k :: es[j] == Handled(r.handler, r.ok, r.body) && !ss[j].closed && r.handler < |ss[j].handlers|
                               && r.id == ss[j].handlers[r.handler].id
  {
    if k > 0 {
      var before, e := ss[k - 1], es[k - 1];
      if i < |before.replies| {
        assert ss[k].replies[i] == before.replies[i];
        RepliesSayWhatFinished(ss, es, k - 1, i);
      } else {
        assert e.Handled? && e == Handled(ss[k].replies[i].handler, ss[k].replies[i].ok, ss[k].replies[i].body);
      }
    }
  }

  // ---- The peer itself --------------------------------------------------------------------

  /** Every promise that waited is rejected with the reason, and no other changes. */
  predicate EndsWith(before: seq<Promise>, after: seq<Promise>, reason: string) {
    |after| == |before| && forall p | 0 <= p < |before| :: after[p] == if before[p].Waiting? then Rejected(reason) else before[p]
  }

  class Connection {
    var nextId: int
    var pending: map<int, nat>
    var closed: bool
    var spawnError: Option<string>
    var closeError: Option<string>
    var promises: seq<Promise>
    var settlements: seq<nat>
    var requests: seq<int>
    var handlers: seq<Handler>
    var replies: seq<Reply>
    var notified: seq<string>

    function View(): State
      reads this
    {
      State(nextId, pending, closed, spawnError, closeError, promises, settlements, requests, handlers, replies, notified)
    }

    constructor ()
      ensures View() == INITIAL && Sound(View())
    {
      nextId, pending, closed, spawnError, closeError := 1, map[], false, None, None;
      promises, settlements, requests, handlers, replies, notified := [], [], [], [], [], [];
    }

    method Request() returns (promise: nat)
      requires Sound(View())
      modifies this
      ensures View() == AfterRequest(old(View())) && Sound(View())
      ensures promise == |old(promises)| && (promises[promise].Waiting? <==> !old(closed))
      // Closed: nothing is sent and the caller is told why. Open: the next id goes out and waits.
      ensures closed ==> promises == old(promises) + [Rejected(closeError.GetOr("acp agent connection is closed"))] && requests == old(requests)
      ensures !closed ==> requests == old(requests) + [old(nextId)] && pending == old(pending)[old(nextId) := promise]
    {
      RequestSound(View());
      promise := |promises|;
      if closed {
        promises, settlements := promises + [Rejected(closeError.GetOr(NOT_OPEN))], settlements + [promise];
        return;
      }
      var id := nextId;
      nextId := nextId + 1;
      promises := promises + [Waiting];
      pending := pending[id := promise];
      requests := requests + [id];
    }

    /** Route one parsed message: a response, a request to be handled, or a notification. */
    method Dispatch(msg: Message)
      requires Sound(View())
      modifies this
      ensures View() == AfterReceive(old(View()), msg) && Sound(View())
      // A response settles the promise that waits under its id, by its error if it has one, and nothing else.
      ensures forall n | msg.id == Some(Number(n)) && n in old(pending) && msg.error.Some? ::
                promises == old(promises)[old(pending)[n] := Rejected(msg.error.value.GetOr("acp rpc error"))]
                && pending == old(pending) - {n}
      ensures forall n | msg.id == Some(Number(n)) && n in old(pending) && msg.error.None? && msg.result.Some? ::
                promises == old(promises)[old(pending)[n] := Resolved(msg.result.value)] && pending == old(pending) - {n}
      ensures (msg.result.None? && msg.error.None?) || (forall n | msg.id == Some(Number(n)) :: n !in old(pending)) ==>
                promises == old(promises) && pending == old(pending)
      // Anything else with a method is a request when it has an id, and a notification when it has none.
      ensures handlers == old(handlers) +
                if msg.id.Some? && msg.result.None? && msg.error.None? && msg.name != "" then [Running(msg.id.value)] else []
      ensures notified == old(notified) + if msg.id.None? && msg.name != "" then [msg.name] else []
      ensures replies == old(replies) && requests == old(requests) && closed == old(closed)
    {
      StepSound(View(), Receive(msg));
      if msg.id.Some? && (msg.result.Some? || msg.error.Some?) {
        if msg.id.value.Other? || msg.id.value.n !in pending {
          return;
        }
        var p := pending[msg.id.value.n];
        pending := pending - {msg.id.value.n};
        promises := promises[p := if msg.error.Some? then Rejected(msg.error.value.GetOr(RPC_ERROR)) else Resolved(msg.result.GetOr(""))];
        settlements := settlements + [p];
        return;
      }
      if msg.name == "" {
        return;
      }
      if msg.id.Some? {
        handlers := handlers + [Running(msg.id.value)];
        return;
      }
      notified := notified + [msg.name];
    }

    /** A handler returned or threw: answer, unless the connection has closed. */
    method FinishHandler(h: nat, ok: bool, body: string)
      requires Sound(View()) && h < |handlers| && handlers[h].Running?
      modifies this
      ensures View() == AfterHandled(old(View()), h, ok, body) && Sound(View())
      ensures replies == old(replies) + if closed then [] else [Reply(h, old(handlers)[h].id, ok, body)]
      ensures handlers == old(handlers)[h := Finished(old(handlers)[h].id, !closed)]
      ensures promises == old(promises) && pending == old(pending) && closed == old(closed)
    {
      HandledSound(View(), h, ok, body);
      var id := handlers[h].id;
      handlers := handlers[h := Finished(id, !closed)];
      if !closed {
        replies := replies + [Reply(h, id, ok, body)];
      }
    }

    method OnError(reason: string)
      requires Sound(View())
      modifies this
      ensures View() == Apply(old(View()), SpawnFailed(reason)) && Sound(View())
      ensures closed && spawnError == Some(reason) && closeError == Some("acp agent could not be started: " + reason)
      ensures EndsWith(old(promises), promises, "acp agent could not be started: " + reason)
    {
      spawnError := Some(reason);
      RejectPending(NOT_STARTED + reason);
    }

    method OnExit(reason: string)
      requires Sound(View())
      modifies this
      ensures View() == Apply(old(View()), Exited(reason)) && Sound(View())
      ensures closed && spawnError == old(spawnError)
      ensures spawnError.None? ==> closeError == Some(reason) && EndsWith(old(promises), promises, reason)
      ensures spawnError.Some? ==> closeError == Some("acp agent could not be started: " + spawnError.value)
      ensures spawnError.Some? ==> EndsWith(old(promises), promises, "acp agent could not be started: " + spawnError.value)
    {
      RejectPending(if spawnError.Some? then NOT_STARTED + spawnError.value else reason);
    }

    method RejectPending(reason: string)
      requires Sound(View())
      modifies this
      ensures View() == AfterClose(old(View()), reason, old(spawnError)) && Sound(View())
      ensures EndsWith(old(promises), promises, reason)
    {
      CloseSound(View(), reason, spawnError);
      closed, closeError := true, Some(reason);
      Drain(reason);
      pending := map[];
    }

    method Drain(reason: string)
      requires forall id | id in pending :: pending[id] < |promises|
      modifies this`promises, this`settlements
      ensures promises == RejectAll(old(promises), PendingFrom(pending, nextId, 1), reason)
      ensures settlements == old(settlements) + PendingFrom(pending, nextId, 1)
    {
      ghost var drained: seq<nat> := [];
      assert promises == RejectAll(promises, [], reason);
      var id := 1;
      while id < nextId
        invariant drained + PendingFrom(pending, nextId, id) == PendingFrom(pending, nextId, 1)
        invariant settlements == old(settlements) + drained
        invariant promises == RejectAll(old(promises), drained, reason)
      {
        if id in pending {
          var p := pending[id];
          RejectOneMore(old(promises), drained, p, reason);
          promises := promises[p := Rejected(reason)];
          settlements := settlements + [p];
          drained := drained + [p];
        }
        id := id + 1;
      }
    }
  }
}
