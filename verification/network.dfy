/** The UDP control plane: requests correlated with replies by request id. */
module Network {
  import opened Wrappers

  type Address = string

  datatype Type =
    | PING | PONG
    | TASK_ROUTE_REQUEST | ROUTE_CANDIDATE_RESPONSE | ROUTE_DECISION
    | HEARTBEAT | HEARTBEAT_ACK
    | OtherType(name: string)

  /** The payload fields that the handlers look at; a missing one is None. */
  datatype Payload = Payload(
    taskId: Option<string>,
    sourceNode: Option<string>,
    candidateNode: Option<string>,
    cpuLoad: Option<real>,
    ramPercent: Option<real>)

  const NO_PAYLOAD := Payload(None, None, None, None, None)

  datatype Message = Message(kind: Type, sender: string, requestId: Option<string>, payload: Payload)

  datatype Future = Waiting | Resolved(reply: Message) | Failed | Cancelled

  /** Why a request ends without a reply. */
  datatype Reason = TimedOut | Aborted | Disconnected

  /** The coroutine of one send_request call. */
  datatype Task = Running | Interrupted(reason: Reason) | Returned(reply: Message) | Raised(reason: Reason)

  /** One send_request call: its message, where it goes, its future and its coroutine. */
  datatype Call = Call(id: string, request: Message, dest: Address, future: Future, task: Task)

  /** One endpoint. Futures are named by the position of their call; pending maps request ids to them. */
  datatype Endpoint = Endpoint(
    nodeId: string,
    connected: bool,
    pending: map<string, nat>,
    calls: seq<Call>,
    lastSeen: map<string, real>,
    cpuLoad: real,
    ramPercent: real)

  /** A message handed to the transport, and where to. */
  datatype Outgoing = Outgoing(message: Message, to: Address)

  predicate Done(f: Future) {
    !f.Waiting?
  }

  predicate Ended(t: Task) {
    t.Returned? || t.Raised?
  }

  // ---------------------------------------------------------------------------
  // Steps of one endpoint
  // ---------------------------------------------------------------------------

  /** The first part of send_request: register the future and send, or fail at once. */
  function Start(p: Endpoint, id: string, kind: Type, payload: Payload, dest: Address): (Endpoint, seq<Outgoing>) {
    if kind == OtherType("") || p.nodeId == "" then (p, [])
    else
      var request := Message(kind, p.nodeId, Some(id), payload);
      var call := Call(id, request, dest, Waiting, Running);
      if p.connected then
        (p.(calls := p.calls + [call], pending := p.pending[id := |p.calls|]), [Outgoing(request, dest)])
      else
        (p.(calls := p.calls + [call.(task := Raised(Disconnected))], pending := p.pending - {id}), [])
  }

  /** A handler's reply; without a transport or an own id the handler raises and nothing is sent. */
  function Reply(p: Endpoint, kind: Type, m: Message, payload: Payload, to: Address): seq<Outgoing> {
    if p.connected && p.nodeId != "" then [Outgoing(Message(kind, p.nodeId, m.requestId, payload), to)] else []
  }

  predicate NonEmpty(s: Option<string>) {
    s.Some? && s.value != ""
  }

  function Touch(p: Endpoint, payload: Payload): Endpoint {
    p.(cpuLoad := if payload.cpuLoad.Some? then payload.cpuLoad.value else p.cpuLoad,
       ramPercent := if payload.ramPercent.Some? then payload.ramPercent.value else p.ramPercent)
  }

  /** The handlers; application callbacks are taken to send nothing. */
  function Dispatch(p: Endpoint, m: Message, from: Address): (Endpoint, seq<Outgoing>) {
    match m.kind
    case PING => (p, Reply(p, PONG, m, NO_PAYLOAD, from))
    case HEARTBEAT =>
      var q := Touch(p, m.payload);
      (q, Reply(q, HEARTBEAT_ACK, m, NO_PAYLOAD.(cpuLoad := Some(q.cpuLoad), ramPercent := Some(q.ramPercent)), from))
    case TASK_ROUTE_REQUEST =>
      if !NonEmpty(m.payload.taskId) || !NonEmpty(m.payload.sourceNode) then (p, [])
      else
        var load := if m.payload.cpuLoad.None? then Some(p.cpuLoad) else m.payload.cpuLoad;
        (p, Reply(p, ROUTE_CANDIDATE_RESPONSE, m,
                  Payload(m.payload.taskId, m.payload.sourceNode, Some(p.nodeId), load, None), from))
    case _ => (p, [])
  }

  /** Decoding rejects a message without a type or a sender. */
  predicate Decodes(m: Message) {
    m.kind != OtherType("") && m.sender != ""
  }

  /** A datagram: resolve the pending future of its id, or dispatch it; ignore it if it does not decode. */
  function Receive(p: Endpoint, m: Message, from: Address, now: real): (Endpoint, seq<Outgoing>) {
    var q := p.(lastSeen := p.lastSeen[m.sender := now]);
    if !Decodes(m) then (p, [])
    else if NonEmpty(m.requestId) && m.requestId.value in q.pending then
      (q.(pending := q.pending - {m.requestId.value}, calls := Resolve(q.calls, q.pending[m.requestId.value], m)), [])
    else Dispatch(q, m, from)
  }

  function Resolve(calls: seq<Call>, i: nat, m: Message): seq<Call> {
    if i < |calls| && calls[i].future.Waiting? then calls[i := calls[i].(future := Resolved(m))] else calls
  }

  /** The timer fires or the caller cancels: the future is cancelled, the coroutine wakes up later. Library
      versions that let a result which is already there win are the runs in which this does not happen. */
  function Interrupt(p: Endpoint, i: nat, reason: Reason): Endpoint {
    if i < |p.calls| && p.calls[i].task.Running? then
      var c := p.calls[i];
      p.(calls := p.calls[i := c.(future := if Done(c.future) then c.future else Cancelled, task := Interrupted(reason))])
    else p
  }

  /** The coroutine wakes up: it returns the reply, or drops its id and raises. */
  function Wake(p: Endpoint, i: nat): Endpoint {
    if i >= |p.calls| then p
    else
      var c := p.calls[i];
      match (c.task, c.future)
      case (Interrupted(reason), _) => Finish(p, i, Raised(reason))
      case (Running, Resolved(m)) => p.(calls := p.calls[i := c.(task := Returned(m))])
      case (Running, Failed) => Finish(p, i, Raised(Disconnected))
      case (Running, Cancelled) => Finish(p, i, Raised(Aborted))
      case _ => p
  }

  function Finish(p: Endpoint, i: nat, task: Task): Endpoint
    requires i < |p.calls|
  {
    p.(calls := p.calls[i := p.calls[i].(task := task)], pending := p.pending - {p.calls[i].id})
  }

  function Lost(p: Endpoint): Endpoint {
    p.(calls := FailAll(p.calls, p.pending.Values), pending := map[], connected := false)
  }

  function FailAll(calls: seq<Call>, which: set<nat>): seq<Call> {
    seq(|calls|, i requires 0 <= i < |calls| =>
      if i in which && calls[i].future.Waiting? then calls[i].(future := Failed) else calls[i])
  }

  function Made(p: Endpoint): Endpoint {
    p.(connected := true)
  }

  // ---------------------------------------------------------------------------
  // Runs of one endpoint against an arbitrary network
  // ---------------------------------------------------------------------------

  datatype Event =
    | DoStart(id: string, kind: Type, payload: Payload, dest: Address)
    | DoReceive(m: Message, from: Address, now: real)
    | DoInterrupt(i: nat, reason: Reason)
    | DoWake(i: nat)
    | DoLost
    | DoMade

  function Happen(p: Endpoint, e: Event): Endpoint {
    match e
    case DoStart(id, kind, payload, dest) => Start(p, id, kind, payload, dest).0
    case DoReceive(m, from, now) => Receive(p, m, from, now).0
    case DoInterrupt(i, reason) => Interrupt(p, i, reason)
    case DoWake(i) => Wake(p, i)
    case DoLost => Lost(p)
    case DoMade => Made(p)
  }

  function RunEvents(p: Endpoint, es: seq<Event>): Endpoint {
    if es == [] then p else Happen(RunEvents(p, es[..|es| - 1]), es[|es| - 1])
  }

  /** A pending id belongs to an unfinished call with that id whose future holds no result. */
  ghost predicate PendingOk(p: Endpoint, id: string)
    requires id in p.pending
  {
    var i := p.pending[id];
    i < |p.calls| && p.calls[i].id == id && Open(p.calls[i])
  }

  ghost predicate Open(c: Call) {
    !Ended(c.task) && !c.future.Resolved? && !c.future.Failed?
  }

  /** A result carries the id of its request, and what a coroutine returns is its future's result. */
  ghost predicate CallOk(c: Call) {
    && (c.future.Resolved? ==> c.future.reply.requestId == Some(c.id))
    && (c.task.Returned? ==> c.future == Resolved(c.task.reply))
  }

  ghost predicate EndpointOk(p: Endpoint) {
    && (forall id :: id in p.pending ==> PendingOk(p, id))
    && (forall i :: 0 <= i < |p.calls| ==> CallOk(p.calls[i]))
  }

  /** A call keeps its request; a future that is done and a coroutine that has ended stay as they are. */
  ghost predicate Settled(c: Call, d: Call) {
    && d.id == c.id && d.request == c.request && d.dest == c.dest
    && (Done(c.future) ==> d.future == c.future)
    && (Ended(c.task) ==> d.task == c.task)
  }

  ghost predicate AllSettled(p: Endpoint, q: Endpoint) {
    |p.calls| <= |q.calls| && forall i :: 0 <= i < |p.calls| ==> Settled(p.calls[i], q.calls[i])
  }

  /** A step that changes one call, settles no more than it may, and adds nothing to pending. */
  lemma OneCallKeeps(p: Endpoint, q: Endpoint, i: nat, c: Call)
    requires EndpointOk(p) && i < |p.calls|
    requires q.calls == p.calls[i := c] && Settled(p.calls[i], c) && CallOk(c)
    requires forall id :: id in q.pending ==> id in p.pending && q.pending[id] == p.pending[id]
    requires forall id :: id in q.pending && q.pending[id] == i ==> Open(c)
    ensures EndpointOk(q) && AllSettled(p, q)
  {
    forall id | id in q.pending
      ensures PendingOk(q, id)
    {
      assert PendingOk(p, id);
    }
  }

  lemma StartKeeps(p: Endpoint, id: string, kind: Type, payload: Payload, dest: Address)
    requires EndpointOk(p)
    ensures EndpointOk(Start(p, id, kind, payload, dest).0)
    ensures AllSettled(p, Start(p, id, kind, payload, dest).0)
  {
    var q := Start(p, id, kind, payload, dest).0;
    assert forall i :: 0 <= i < |p.calls| ==> q.calls[i] == p.calls[i];
    forall x | x in q.pending
      ensures PendingOk(q, x)
    {
      assert x in p.pending ==> PendingOk(p, x);
    }
  }

  lemma ReceiveKeeps(p: Endpoint, m: Message, from: Address, now: real)
    requires EndpointOk(p)
    ensures EndpointOk(Receive(p, m, from, now).0)
    ensures AllSettled(p, Receive(p, m, from, now).0)
  {
    var q := Receive(p, m, from, now).0;
    if Decodes(m) && NonEmpty(m.requestId) && m.requestId.value in p.pending {
      var i := p.pending[m.requestId.value];
      assert PendingOk(p, m.requestId.value);
      OneCallKeeps(p, q, i, q.calls[i]);
    } else {
      assert q.calls == p.calls && q.pending == p.pending;
      assert forall id :: id in q.pending ==> PendingOk(p, id) && PendingOk(q, id);
    }
  }

  lemma InterruptKeeps(p: Endpoint, i: nat, reason: Reason)
    requires EndpointOk(p)
    ensures EndpointOk(Interrupt(p, i, reason)) && AllSettled(p, Interrupt(p, i, reason))
  {
    if i < |p.calls| && p.calls[i].task.Running? {
      var q := Interrupt(p, i, reason);
      assert CallOk(p.calls[i]);
      assert forall id :: id in p.pending ==> PendingOk(p, id);
      OneCallKeeps(p, q, i, q.calls[i]);
    }
  }

  lemma WakeKeeps(p: Endpoint, i: nat)
    requires EndpointOk(p)
    ensures EndpointOk(Wake(p, i)) && AllSettled(p, Wake(p, i))
  {
    if i < |p.calls| {
      var q := Wake(p, i);
      assert CallOk(p.calls[i]);
      assert forall id :: id in p.pending ==> PendingOk(p, id);
      OneCallKeeps(p, q, i, q.calls[i]);
    }
  }

  lemma LostKeeps(p: Endpoint)
    requires EndpointOk(p)
    ensures EndpointOk(Lost(p)) && AllSettled(p, Lost(p))
  {
    forall i | 0 <= i < |p.calls|
      ensures CallOk(Lost(p).calls[i]) && Settled(p.calls[i], Lost(p).calls[i])
    {
      assert CallOk(p.calls[i]);
    }
  }

  lemma HappenKeeps(p: Endpoint, e: Event)
    requires EndpointOk(p)
    ensures EndpointOk(Happen(p, e)) && AllSettled(p, Happen(p, e))
  {
    match e
    case DoStart(id, kind, payload, dest) => StartKeeps(p, id, kind, payload, dest);
    case DoReceive(m, from, now) => ReceiveKeeps(p, m, from, now);
    case DoInterrupt(i, reason) => InterruptKeeps(p, i, reason);
    case DoWake(i) => WakeKeeps(p, i);
    case DoLost => LostKeeps(p);
    case DoMade => assert forall id :: id in p.pending ==> PendingOk(p, id) && PendingOk(Made(p), id);
  }

  lemma {:induction false} RunEventsKeeps(p: Endpoint, es: seq<Event>)
    requires EndpointOk(p)
    ensures EndpointOk(RunEvents(p, es))
    ensures AllSettled(p, RunEvents(p, es))
  {
    if es != [] {
      var q := RunEvents(p, es[..|es| - 1]);
      RunEventsKeeps(p, es[..|es| - 1]);
      HappenKeeps(q, es[|es| - 1]);
      forall i | 0 <= i < |p.calls|
        ensures Settled(p.calls[i], RunEvents(p, es).calls[i])
      {
        assert Settled(p.calls[i], q.calls[i]);
      }
    }
  }

  ghost predicate DistinctCalls(p: Endpoint) {
    forall i, j :: 0 <= i < j < |p.calls| ==> p.calls[i].id != p.calls[j].id
  }

  /** Against any peers, in any interleaving of sends, datagrams, timeouts, cancellations and lost
      connections: every future is settled at most once and for good; a reply that is delivered
      carries the id of its request; a call that has ended is no longer pending, and neither is its
      id as long as ids are not reused. */
  lemma CallsAreCorrelated(p: Endpoint, before: seq<Event>, after: seq<Event>)
    requires p.calls == [] && p.pending == map[]
    ensures var q := RunEvents(p, before);
            var r := RunEvents(q, after);
            && AllSettled(q, r)
            && (forall i :: 0 <= i < |r.calls| && r.calls[i].task.Returned? ==>
                  r.calls[i].task.reply.requestId == Some(r.calls[i].id))
            && (forall i :: 0 <= i < |r.calls| && Ended(r.calls[i].task) ==> i !in r.pending.Values)
            && (DistinctCalls(r) ==>
                  forall i :: 0 <= i < |r.calls| && Ended(r.calls[i].task) ==> r.calls[i].id !in r.pending)
  {
    RunEventsKeeps(p, before);
    RunEventsKeeps(RunEvents(p, before), after);
    EndedIsNotPending(RunEvents(RunEvents(p, before), after));
  }

  lemma EndedIsNotPending(r: Endpoint)
    requires EndpointOk(r)
    ensures forall i :: 0 <= i < |r.calls| && r.calls[i].task.Returned? ==>
                          r.calls[i].task.reply.requestId == Some(r.calls[i].id)
    ensures forall i :: 0 <= i < |r.calls| && Ended(r.calls[i].task) ==> i !in r.pending.Values
    ensures DistinctCalls(r) ==>
              forall i :: 0 <= i < |r.calls| && Ended(r.calls[i].task) ==> r.calls[i].id !in r.pending
  {
    assert forall id :: id in r.pending ==> PendingOk(r, id);
    assert forall i :: 0 <= i < |r.calls| ==> CallOk(r.calls[i]);
  }

  predicate Waits(c: Call) {
    c.task.Running? && c.future.Waiting?
  }

  /** Call i is the one that its id is pending for. */
  ghost predicate IsPending(p: Endpoint, i: nat)
    requires i < |p.calls|
  {
    p.calls[i].id in p.pending && p.pending[p.calls[i].id] == i
  }

  /** An event that takes an id away from call i: another call starts with it, or another call that has
      it gives up. */
  predicate Disturbs(p: Endpoint, e: Event, i: nat)
    requires i < |p.calls|
  {
    match e
    case DoStart(id, kind, _, _) => id == p.calls[i].id && kind != OtherType("") && p.nodeId != ""
    case DoWake(j) =>
      && j < |p.calls| && j != i && p.calls[j].id == p.calls[i].id
      && (p.calls[j].task.Interrupted? || (p.calls[j].task.Running? && (p.calls[j].future.Failed? || p.calls[j].future.Cancelled?)))
    case _ => false
  }

  predicate Undisturbed(p: Endpoint, es: seq<Event>, i: nat)
    requires i < |p.calls| && EndpointOk(p)
  {
    es == [] ||
    (RunEventsKeeps(p, es[..|es| - 1]);
     Undisturbed(p, es[..|es| - 1], i) && !Disturbs(RunEvents(p, es[..|es| - 1]), es[|es| - 1], i))
  }

  /** A call that waits after an event waited before it, and is still pending exactly if it was and the
      event did not take its id. */
  ghost predicate PassesOn(p: Endpoint, e: Event, q: Endpoint, i: nat)
    requires i < |p.calls|
  {
    && i < |q.calls| && q.calls[i].id == p.calls[i].id
    && (Waits(q.calls[i]) ==> Waits(p.calls[i]) && (IsPending(q, i) <==> IsPending(p, i) && !Disturbs(p, e, i)))
  }

  lemma StartPassesOn(p: Endpoint, id: string, kind: Type, payload: Payload, dest: Address, i: nat)
    requires EndpointOk(p) && i < |p.calls|
    ensures PassesOn(p, DoStart(id, kind, payload, dest), Start(p, id, kind, payload, dest).0, i)
  {
  }

  lemma ReceivePassesOn(p: Endpoint, m: Message, from: Address, now: real, i: nat)
    requires EndpointOk(p) && i < |p.calls|
    ensures PassesOn(p, DoReceive(m, from, now), Receive(p, m, from, now).0, i)
  {
    ReceiveShape(p, m, from, now);
    assert p.calls[i].id in p.pending ==> PendingOk(p, p.calls[i].id);
  }

  lemma WakePassesOn(p: Endpoint, j: nat, i: nat)
    requires EndpointOk(p) && i < |p.calls|
    ensures PassesOn(p, DoWake(j), Wake(p, j), i)
  {
  }

  lemma LostPassesOn(p: Endpoint, i: nat)
    requires EndpointOk(p) && i < |p.calls|
    ensures PassesOn(p, DoLost, Lost(p), i)
  {
  }

  lemma HappenPassesOn(p: Endpoint, e: Event, i: nat)
    requires EndpointOk(p) && i < |p.calls|
    ensures PassesOn(p, e, Happen(p, e), i)
  {
    match e
    case DoStart(id, kind, payload, dest) => StartPassesOn(p, id, kind, payload, dest, i);
    case DoReceive(m, from, now) => ReceivePassesOn(p, m, from, now, i);
    case DoInterrupt(j, reason) =>
    case DoWake(j) => WakePassesOn(p, j, i);
    case DoLost => LostPassesOn(p, i);
    case DoMade =>
  }

  /** From the moment a call is pending, as long as it waits it is still pending exactly if no later event
      took its id. */
  lemma {:induction false} WaitingCallIsPendingIff(p: Endpoint, es: seq<Event>, i: nat)
    requires EndpointOk(p) && i < |p.calls| && IsPending(p, i)
    ensures var q := RunEvents(p, es);
            i < |q.calls| && (Waits(q.calls[i]) ==> (IsPending(q, i) <==> Undisturbed(p, es, i)))
  {
    if es != [] {
      var front := es[..|es| - 1];
      WaitingCallIsPendingIff(p, front, i);
      RunEventsKeeps(p, front);
      HappenPassesOn(RunEvents(p, front), es[|es| - 1], i);
    }
  }

  lemma DistinctIsUndisturbed(p: Endpoint, e: Event, i: nat)
    requires EndpointOk(p) && i < |p.calls| && DistinctCalls(Happen(p, e))
    ensures !Disturbs(p, e, i)
  {
    var q := Happen(p, e);
    HappenKeeps(p, e);
    assert Settled(p.calls[i], q.calls[i]);
    match e
    case DoStart(id, kind, _, _) =>
      if kind != OtherType("") && p.nodeId != "" {
        assert q.calls[|p.calls|].id == id;
      }
    case DoWake(j) =>
      if j < |p.calls| {
        assert Settled(p.calls[j], q.calls[j]);
      }
    case _ =>
  }

  lemma HappenKeepsWaiting(p: Endpoint, e: Event)
    requires EndpointOk(p) && DistinctCalls(Happen(p, e))
    requires forall i :: 0 <= i < |p.calls| && Waits(p.calls[i]) ==> IsPending(p, i)
    ensures var q := Happen(p, e);
            forall i :: 0 <= i < |q.calls| && Waits(q.calls[i]) ==> IsPending(q, i)
  {
    var q := Happen(p, e);
    HappenKeeps(p, e);
    forall i | 0 <= i < |q.calls| && Waits(q.calls[i])
      ensures IsPending(q, i)
    {
      if i < |p.calls| {
        HappenPassesOn(p, e, i);
        DistinctIsUndisturbed(p, e, i);
      }
    }
  }

  /** On every run in which no id is used twice, every call that waits is pending under its id, ... */
  lemma {:induction false} WaitingCallsArePending(p: Endpoint, es: seq<Event>)
    requires p.calls == [] && p.pending == map[]
    ensures var q := RunEvents(p, es);
            DistinctCalls(q) ==> forall i :: 0 <= i < |q.calls| && Waits(q.calls[i]) ==> IsPending(q, i)
  {
    if es != [] {
      var front, e := es[..|es| - 1], es[|es| - 1];
      var m := RunEvents(p, front);
      WaitingCallsArePending(p, front);
      RunEventsKeeps(p, front);
      HappenKeeps(m, e);
      if DistinctCalls(Happen(m, e)) {
        assert forall i :: 0 <= i < |m.calls| ==> Settled(m.calls[i], Happen(m, e).calls[i]);
        HappenKeepsWaiting(m, e);
      }
    }
  }

  /** ... so no reply to a waiting call is lost: a message with its id resolves that call and no other,
      and sends nothing. */
  lemma ReplyReachesWaitingCall(p: Endpoint, es: seq<Event>, i: nat, m: Message, from: Address, now: real)
    requires p.calls == [] && p.pending == map[]
    requires DistinctCalls(RunEvents(p, es)) && i < |RunEvents(p, es).calls| && Waits(RunEvents(p, es).calls[i])
    requires Decodes(m) && NonEmpty(m.requestId) && m.requestId.value == RunEvents(p, es).calls[i].id
    ensures var q := RunEvents(p, es);
            var (r, out) := Receive(q, m, from, now);
            r.calls == q.calls[i := q.calls[i].(future := Resolved(m))] && out == []
  {
    WaitingCallsArePending(p, es);
  }

  /** With one id used twice, the end of the first call takes the second off the pending list. */
  lemma ReusedIdLosesItsCall(p: Endpoint, id: string, dest: Address)
    requires p.calls == [] && p.pending == map[] && p.connected && p.nodeId != ""
    ensures var q := RunEvents(p, [DoStart(id, PING, NO_PAYLOAD, dest), DoStart(id, PING, NO_PAYLOAD, dest),
                                   DoInterrupt(0, TimedOut), DoWake(0)]);
            |q.calls| == 2 && q.calls[1].future == Waiting && q.calls[1].task == Running && id !in q.pending
  {
    var a, b, c, d := DoStart(id, PING, NO_PAYLOAD, dest), DoStart(id, PING, NO_PAYLOAD, dest), DoInterrupt(0, TimedOut), DoWake(0);
    var es := [a, b, c, d];
    assert es[..3] == [a, b, c] && [a, b, c][..2] == [a, b] && [a, b][..1] == [a] && [a][..0] == [];
    assert RunEvents(p, [a]) == Happen(p, a);
    assert RunEvents(p, [a, b]) == Happen(Happen(p, a), b);
  }

  // ---------------------------------------------------------------------------
  // What each message is answered with
  // ---------------------------------------------------------------------------

  /** A message that decodes and whose id no call of the endpoint waits for. */
  predicate Unclaimed(p: Endpoint, m: Message) {
    && m.kind != OtherType("") && m.sender != ""
    && (m.requestId == None || m.requestId == Some("") || m.requestId.value !in p.pending)
  }

  /** An unclaimed PING is noted and answered with a PONG, ... */
  lemma PingReceived(p: Endpoint, m: Message, from: Address, now: real)
    requires Unclaimed(p, m) && m.kind == PING
    ensures Receive(p, m, from, now) ==
            (p.(lastSeen := p.lastSeen[m.sender := now]),
             if p.connected && p.nodeId != ""
             then [Outgoing(Message(PONG, p.nodeId, m.requestId, Payload(None, None, None, None, None)), from)]
             else [])
  {
  }

  /** ... a HEARTBEAT sets the loads it carries and is answered with the loads then on file, ... */
  lemma HeartbeatReceived(p: Endpoint, m: Message, from: Address, now: real)
    requires Unclaimed(p, m) && m.kind == HEARTBEAT
    ensures var cpu := if m.payload.cpuLoad == None then p.cpuLoad else m.payload.cpuLoad.value;
            var ram := if m.payload.ramPercent == None then p.ramPercent else m.payload.ramPercent.value;
            Receive(p, m, from, now) ==
            (p.(lastSeen := p.lastSeen[m.sender := now], cpuLoad := cpu, ramPercent := ram),
             if p.connected && p.nodeId != ""
             then [Outgoing(Message(HEARTBEAT_ACK, p.nodeId, m.requestId, Payload(None, None, None, Some(cpu), Some(ram))), from)]
             else [])
  {
  }

  /** ... a route request that names its task and its source with an offer of the own node, ... */
  lemma RouteRequestReceived(p: Endpoint, m: Message, from: Address, now: real)
    requires Unclaimed(p, m) && m.kind == TASK_ROUTE_REQUEST
    ensures var task, source := m.payload.taskId, m.payload.sourceNode;
            var load := if m.payload.cpuLoad == None then p.cpuLoad else m.payload.cpuLoad.value;
            Receive(p, m, from, now) ==
            (p.(lastSeen := p.lastSeen[m.sender := now]),
             if p.connected && p.nodeId != "" && task.Some? && task.value != "" && source.Some? && source.value != ""
             then [Outgoing(Message(ROUTE_CANDIDATE_RESPONSE, p.nodeId, m.requestId,
                                    Payload(task, source, Some(p.nodeId), Some(load), None)), from)]
             else [])
  {
  }

  /** ... and any other message with nothing; one without a type or a sender leaves no trace. */
  lemma OthersReceived(p: Endpoint, m: Message, from: Address, now: real)
    ensures Unclaimed(p, m) && m.kind !in {PING, HEARTBEAT, TASK_ROUTE_REQUEST} ==>
              Receive(p, m, from, now) == (p.(lastSeen := p.lastSeen[m.sender := now]), [])
    ensures m.kind == OtherType("") || m.sender == "" ==> Receive(p, m, from, now) == (p, [])
  {
  }

  /** When a sender was last heard, read off the events alone. */
  function LastHeard(es: seq<Event>, sender: string): Option<real> {
    if es == [] then None
    else
      match es[|es| - 1]
      case DoReceive(m, _, now) =>
        if m.sender == sender && m.kind != OtherType("") then Some(now) else LastHeard(es[..|es| - 1], sender)
      case _ => LastHeard(es[..|es| - 1], sender)
  }

  /** On every run the endpoint knows exactly the senders it has heard, each with its latest time. */
  lemma {:induction false} LastSeenIsLastHeard(p: Endpoint, es: seq<Event>, sender: string)
    requires p.lastSeen == map[] && sender != ""
    ensures var q := RunEvents(p, es);
            LastHeard(es, sender) == if sender in q.lastSeen then Some(q.lastSeen[sender]) else None
  {
    if es != [] {
      LastSeenIsLastHeard(p, es[..|es| - 1], sender);
      HappenLastSeen(RunEvents(p, es[..|es| - 1]), es[|es| - 1]);
    }
  }

  lemma HappenLastSeen(p: Endpoint, e: Event)
    ensures Happen(p, e).lastSeen ==
            if e.DoReceive? && e.m.kind != OtherType("") && e.m.sender != "" then p.lastSeen[e.m.sender := e.now]
            else p.lastSeen
  {
  }

  /** A request without a transport raises at once and its id is not pending; nothing is sent. */
  lemma RequestNeedsTransport(p: Endpoint, id: string, kind: Type, payload: Payload, dest: Address)
    requires !p.connected && kind != OtherType("") && p.nodeId != ""
    ensures var (q, out) := Start(p, id, kind, payload, dest);
            && out == [] && id !in q.pending
            && |q.calls| == |p.calls| + 1 && q.calls[..|p.calls|] == p.calls
            && q.calls[|p.calls|].task == Raised(Disconnected)
  {
  }

  /** Once a connection is made, a request goes out as given and its id leads to its waiting call. */
  lemma ConnectedRequestGoesOut(p: Endpoint, id: string, kind: Type, payload: Payload, dest: Address)
    requires kind != OtherType("") && p.nodeId != ""
    ensures var request := Message(kind, p.nodeId, Some(id), payload);
            var (q, out) := Start(Made(p), id, kind, payload, dest);
            && out == [Outgoing(request, dest)]
            && q.calls == p.calls + [Call(id, request, dest, Waiting, Running)]
            && q.pending == p.pending[id := |p.calls|]
  {
  }

  /** A call that is interrupted and wakes up raises the reason; its id is given up, other calls and
      ids stay as they are. */
  lemma InterruptedCallRaises(p: Endpoint, i: nat, reason: Reason)
    requires i < |p.calls| && p.calls[i].task == Running
    ensures var q := Wake(Interrupt(p, i, reason), i);
            && |q.calls| == |p.calls|
            && q.calls[i].task == Raised(reason)
            && q.calls[i].future == (if p.calls[i].future == Waiting then Cancelled else p.calls[i].future)
            && (forall j :: 0 <= j < |p.calls| && j != i ==> q.calls[j] == p.calls[j])
            && q.pending == map id | id in p.pending && id != p.calls[i].id :: p.pending[id]
  {
  }

  /** A lost connection fails exactly the waiting calls that are pending, and these raise when they wake
      up; no id stays pending. */
  lemma LostCallsRaise(p: Endpoint, i: nat)
    requires i < |p.calls|
    ensures var q := Lost(p);
            && !q.connected && q.pending == map[] && |q.calls| == |p.calls|
            && (if p.calls[i].future == Waiting && i in p.pending.Values
                then q.calls[i] == p.calls[i].(future := Failed)
                else q.calls[i] == p.calls[i])
            && (q.calls[i].future == Failed && q.calls[i].task == Running ==>
                  Wake(q, i).calls[i].task == Raised(Disconnected))
  {
  }

  // ---------------------------------------------------------------------------
  // A network of honest endpoints
  // ---------------------------------------------------------------------------

  datatype Datagram = Datagram(src: Address, dst: Address, message: Message)

  /** Which call of which endpoint. */
  datatype Origin = Origin(at: Address, index: nat)

  /** wire holds every datagram ever sent: it may be delivered late, repeatedly, in any order or never.
      issued records which call used which request id. */
  datatype World = World(nodes: map<Address, Endpoint>, wire: set<Datagram>, issued: map<string, Origin>)

  datatype Move =
    | Request(at: Address, id: string, kind: Type, payload: Payload, dest: Address)
    | Deliver(d: Datagram, now: real)
    | Local(at: Address, event: Event)

  /** Request ids are fresh, datagrams were sent, and local moves are those that involve no message. */
  predicate Enabled(w: World, move: Move) {
    match move
    case Request(at, id, kind, _, _) =>
      at in w.nodes && id != "" && id !in w.issued && kind != OtherType("") && w.nodes[at].nodeId != ""
    case Deliver(d, _) => d in w.wire && d.dst in w.nodes
    case Local(at, e) => at in w.nodes && !e.DoStart? && !e.DoReceive?
  }

  function Post(at: Address, out: seq<Outgoing>): set<Datagram> {
    set o | o in out :: Datagram(at, o.to, o.message)
  }

  function Step(w: World, move: Move): World {
    if !Enabled(w, move) then w
    else
      match move
      case Request(at, id, kind, payload, dest) =>
        var (p, out) := Start(w.nodes[at], id, kind, payload, dest);
        World(w.nodes[at := p], w.wire + Post(at, out), w.issued[id := Origin(at, |w.nodes[at].calls|)])
      case Deliver(d, now) =>
        var (p, out) := Receive(w.nodes[d.dst], d.message, d.src, now);
        World(w.nodes[d.dst := p], w.wire + Post(d.dst, out), w.issued)
      case Local(at, e) =>
        World(w.nodes[at := Happen(w.nodes[at], e)], w.wire, w.issued)
  }

  function RunMoves(w: World, moves: seq<Move>): World {
    if moves == [] then w else Step(RunMoves(w, moves[..|moves| - 1]), moves[|moves| - 1])
  }

  /** The reply that the protocol promises for a request. */
  predicate Answers(request: Message, m: Message) {
    && m.requestId == request.requestId
    && match request.kind
       case PING => m.kind == PONG
       case HEARTBEAT => m.kind == HEARTBEAT_ACK
       case TASK_ROUTE_REQUEST =>
         m.kind == ROUTE_CANDIDATE_RESPONSE && NonEmpty(m.payload.taskId) && m.payload.taskId == request.payload.taskId
       case _ => false
  }

  /** What a delivered message may be: the promised reply, or, for a call that an endpoint addressed to
      itself, the request come back. */
  predicate Explains(at: Address, c: Call, m: Message) {
    if c.dest == at then m == c.request else Answers(c.request, m)
  }

  /** A call is on record under its id, and what its future holds is explained. */
  ghost predicate CallExplained(issued: map<string, Origin>, at: Address, i: nat, c: Call) {
    && c.id != "" && c.id in issued && issued[c.id] == Origin(at, i)
    && c.request.requestId == Some(c.id)
    && (c.future.Resolved? ==> Explains(at, c, c.future.reply))
  }

  ghost predicate NodeOk(issued: map<string, Origin>, at: Address, p: Endpoint) {
    && EndpointOk(p)
    && forall i :: 0 <= i < |p.calls| ==> CallExplained(issued, at, i, p.calls[i])
  }

  ghost predicate OnRecord(nodes: map<Address, Endpoint>, id: string, o: Origin) {
    o.at in nodes && o.index < |nodes[o.at].calls| && nodes[o.at].calls[o.index].id == id
  }

  /** A datagram is the request of a call, or a promised reply to one on its way back; a reply to a
      request that an endpoint sent to itself comes too late. */
  ghost predicate Belongs(d: Datagram, at: Address, c: Call, pending: map<string, nat>) {
    || d == Datagram(at, c.dest, c.request)
    || (d.src == c.dest && d.dst == at && Answers(c.request, d.message) && (c.dest == at ==> c.id !in pending))
  }

  ghost predicate DatagramOk(w: World, d: Datagram) {
    && d.message.requestId.Some?
    && var id := d.message.requestId.value;
       && id in w.issued && OnRecord(w.nodes, id, w.issued[id])
       && var o := w.issued[id];
          Belongs(d, o.at, w.nodes[o.at].calls[o.index], w.nodes[o.at].pending)
  }

  ghost predicate WorldOk(w: World) {
    && (forall at :: at in w.nodes ==> NodeOk(w.issued, at, w.nodes[at]))
    && (forall id :: id in w.issued ==> OnRecord(w.nodes, id, w.issued[id]))
    && (forall d :: d in w.wire ==> DatagramOk(w, d))
  }

  /** The node at a changes from p to q without losing a call or gaining an old pending id. */
  ghost predicate Evolves(p: Endpoint, q: Endpoint, issued: map<string, Origin>) {
    AllSettled(p, q) && forall id :: id in q.pending && id in issued ==> id in p.pending
  }

  lemma DatagramStays(w: World, v: World, a: Address, d: Datagram)
    requires DatagramOk(w, d) && a in w.nodes && a in v.nodes
    requires v.nodes == w.nodes[a := v.nodes[a]] && Evolves(w.nodes[a], v.nodes[a], w.issued)
    requires forall id :: id in w.issued ==> id in v.issued && v.issued[id] == w.issued[id]
    ensures DatagramOk(v, d)
  {
    var o := w.issued[d.message.requestId.value];
    if o.at == a {
      assert Settled(w.nodes[a].calls[o.index], v.nodes[a].calls[o.index]);
    }
  }

  /** A change of one node keeps the world in order if the node and the new datagrams are. */
  lemma EvolveKeeps(w: World, v: World, a: Address)
    requires WorldOk(w) && a in w.nodes && a in v.nodes
    requires v.nodes == w.nodes[a := v.nodes[a]] && Evolves(w.nodes[a], v.nodes[a], w.issued)
    requires forall id :: id in w.issued ==> id in v.issued && v.issued[id] == w.issued[id]
    requires NodeOk(v.issued, a, v.nodes[a])
    requires forall id :: id in v.issued && id !in w.issued ==> OnRecord(v.nodes, id, v.issued[id])
    requires forall d :: d in v.wire && d !in w.wire ==> DatagramOk(v, d)
    ensures WorldOk(v)
  {
    forall at | at in v.nodes && at != a
      ensures NodeOk(v.issued, at, v.nodes[at])
    {
      assert NodeOk(w.issued, at, w.nodes[at]);
    }
    forall id | id in w.issued
      ensures OnRecord(v.nodes, id, v.issued[id])
    {
      assert OnRecord(w.nodes, id, w.issued[id]);
      if w.issued[id].at == a {
        assert Settled(w.nodes[a].calls[w.issued[id].index], v.nodes[a].calls[w.issued[id].index]);
      }
    }
    forall d | d in w.wire
      ensures DatagramOk(v, d)
    {
      DatagramStays(w, v, a, d);
    }
  }

  lemma RequestKeeps(w: World, at: Address, id: string, kind: Type, payload: Payload, dest: Address)
    requires WorldOk(w) && Enabled(w, Request(at, id, kind, payload, dest))
    ensures WorldOk(Step(w, Request(at, id, kind, payload, dest)))
  {
    var v := Step(w, Request(at, id, kind, payload, dest));
    var p, q := w.nodes[at], v.nodes[at];
    assert NodeOk(w.issued, at, p);
    StartKeeps(p, id, kind, payload, dest);
    forall i | 0 <= i < |q.calls|
      ensures CallExplained(v.issued, at, i, q.calls[i])
    {
      if i < |p.calls| {
        assert q.calls[i] == p.calls[i] && CallExplained(w.issued, at, i, p.calls[i]);
      }
    }
    EvolveKeeps(w, v, at);
  }

  /** A move without a message starts no call, adds nothing to pending and resolves nothing. */
  lemma LocalShape(p: Endpoint, e: Event)
    requires !e.DoStart? && !e.DoReceive?
    ensures var q := Happen(p, e);
            && |q.calls| == |p.calls|
            && (forall id :: id in q.pending ==> id in p.pending)
            && (forall i :: 0 <= i < |q.calls| && q.calls[i].future.Resolved? ==> p.calls[i].future == q.calls[i].future)
  {
  }

  lemma LocalKeeps(w: World, at: Address, e: Event)
    requires WorldOk(w) && Enabled(w, Local(at, e))
    ensures WorldOk(Step(w, Local(at, e)))
  {
    LocalNode(w, at, e);
    EvolveKeeps(w, Step(w, Local(at, e)), at);
  }

  lemma LocalNode(w: World, at: Address, e: Event)
    requires WorldOk(w) && Enabled(w, Local(at, e))
    ensures NodeOk(w.issued, at, Happen(w.nodes[at], e))
    ensures Evolves(w.nodes[at], Happen(w.nodes[at], e), w.issued)
  {
    var p, q := w.nodes[at], Happen(w.nodes[at], e);
    assert NodeOk(w.issued, at, p);
    HappenKeeps(p, e);
    LocalShape(p, e);
    forall i | 0 <= i < |q.calls|
      ensures CallExplained(w.issued, at, i, q.calls[i])
    {
      assert CallExplained(w.issued, at, i, p.calls[i]) && Settled(p.calls[i], q.calls[i]);
    }
  }

  /** What the handlers send is the promised reply, back to where the message came from. */
  lemma DispatchAnswers(p: Endpoint, m: Message, from: Address, o: Outgoing)
    requires o in Dispatch(p, m, from).1
    ensures o.to == from && Answers(m, o.message)
  {
  }

  /** A datagram that finds its id pending resolves the call with an explained message. */
  lemma ResolutionExplained(w: World, d: Datagram)
    requires WorldOk(w) && d in w.wire && d.dst in w.nodes
    requires NonEmpty(d.message.requestId) && d.message.requestId.value in w.nodes[d.dst].pending
    ensures var p := w.nodes[d.dst];
            var i := p.pending[d.message.requestId.value];
            i < |p.calls| && Explains(d.dst, p.calls[i], d.message)
  {
    var p, id := w.nodes[d.dst], d.message.requestId.value;
    assert NodeOk(w.issued, d.dst, p) && PendingOk(p, id);
    assert CallExplained(w.issued, d.dst, p.pending[id], p.calls[p.pending[id]]);
    assert DatagramOk(w, d);
  }

  /** A datagram touches no call but the one it resolves, and adds nothing to pending. */
  lemma ReceiveShape(p: Endpoint, m: Message, from: Address, now: real)
    ensures var q := Receive(p, m, from, now).0;
            && |q.calls| == |p.calls|
            && (forall id :: id in q.pending ==> id in p.pending)
            && (forall i :: 0 <= i < |q.calls| ==>
                  || q.calls[i] == p.calls[i]
                  || (NonEmpty(m.requestId) && m.requestId.value in p.pending && p.pending[m.requestId.value] == i
                      && q.calls[i] == p.calls[i].(future := Resolved(m))))
  {
  }

  lemma DeliverNode(w: World, d: Datagram, now: real)
    requires WorldOk(w) && d in w.wire && d.dst in w.nodes
    ensures NodeOk(w.issued, d.dst, Receive(w.nodes[d.dst], d.message, d.src, now).0)
    ensures Evolves(w.nodes[d.dst], Receive(w.nodes[d.dst], d.message, d.src, now).0, w.issued)
  {
    var p := w.nodes[d.dst];
    var q := Receive(p, d.message, d.src, now).0;
    assert NodeOk(w.issued, d.dst, p);
    ReceiveKeeps(p, d.message, d.src, now);
    ReceiveShape(p, d.message, d.src, now);
    forall i | 0 <= i < |q.calls|
      ensures CallExplained(w.issued, d.dst, i, q.calls[i])
    {
      assert CallExplained(w.issued, d.dst, i, p.calls[i]);
      if q.calls[i] != p.calls[i] {
        ResolutionExplained(w, d);
      }
    }
  }

  /** A reply to an honest datagram belongs to the same call. */
  lemma DeliverReply(w: World, d: Datagram, now: real, o: Outgoing)
    requires WorldOk(w) && d in w.wire && d.dst in w.nodes
    requires o in Receive(w.nodes[d.dst], d.message, d.src, now).1
    ensures DatagramOk(w, Datagram(d.dst, o.to, o.message))
  {
    var p, m := w.nodes[d.dst], d.message;
    DispatchAnswers(p.(lastSeen := p.lastSeen[m.sender := now]), m, d.src, o);
    assert DatagramOk(w, d);
    var origin := w.issued[m.requestId.value];
    assert NodeOk(w.issued, origin.at, w.nodes[origin.at]);
    assert CallExplained(w.issued, origin.at, origin.index, w.nodes[origin.at].calls[origin.index]);
  }

  lemma DeliverKeeps(w: World, d: Datagram, now: real)
    requires WorldOk(w) && Enabled(w, Deliver(d, now))
    ensures WorldOk(Step(w, Deliver(d, now)))
  {
    var v := Step(w, Deliver(d, now));
    DeliverNode(w, d, now);
    forall e | e in v.wire && e !in w.wire
      ensures DatagramOk(v, e)
    {
      var o :| o in Receive(w.nodes[d.dst], d.message, d.src, now).1 && e == Datagram(d.dst, o.to, o.message);
      DeliverReply(w, d, now, o);
      DatagramStays(w, v, d.dst, e);
    }
    EvolveKeeps(w, v, d.dst);
  }

  lemma {:induction false} RunMovesKeeps(w: World, moves: seq<Move>)
    requires WorldOk(w)
    ensures WorldOk(RunMoves(w, moves))
  {
    if moves != [] {
      var v, move := RunMoves(w, moves[..|moves| - 1]), moves[|moves| - 1];
      RunMovesKeeps(w, moves[..|moves| - 1]);
      if Enabled(v, move) {
        match move
        case Request(at, id, kind, payload, dest) => RequestKeeps(v, at, id, kind, payload, dest);
        case Deliver(d, now) => DeliverKeeps(v, d, now);
        case Local(at, e) => LocalKeeps(v, at, e);
      }
    }
  }

  /** Among honest endpoints whose datagrams may be lost, repeated, delayed and reordered, every request
      that completes and was sent to another endpoint returns the reply of its kind, with the same
      request id and, for a route request, the same task id; other kinds never complete. A request
      that an endpoint sends to itself completes only with itself. */
  lemma CompletedRequestsGetTheirReply(w: World, moves: seq<Move>, at: Address, i: nat)
    requires w.wire == {} && w.issued == map[]
    requires forall a :: a in w.nodes ==> w.nodes[a].calls == [] && w.nodes[a].pending == map[]
    requires at in RunMoves(w, moves).nodes && i < |RunMoves(w, moves).nodes[at].calls|
    requires RunMoves(w, moves).nodes[at].calls[i].task.Returned?
    ensures var c := RunMoves(w, moves).nodes[at].calls[i];
            && (c.dest != at ==> Answers(c.request, c.task.reply))
            && (c.dest == at ==> c.task.reply == c.request)
            && (c.request.kind.PING? ==> (c.task.reply.kind.PONG? <==> c.dest != at))
  {
    RunMovesKeeps(w, moves);
    var v := RunMoves(w, moves);
    assert NodeOk(v.issued, at, v.nodes[at]);
    assert CallExplained(v.issued, at, i, v.nodes[at].calls[i]) && CallOk(v.nodes[at].calls[i]);
  }

  /** A PING that an endpoint addresses to itself completes, with the PING. */
  lemma SelfPingCompletes(at: Address, id: string, now: real)
    requires at != "" && id != ""
    ensures var p := Endpoint(at, true, map[], [], map[], 0.0, 0.0);
            var ping := Message(PING, at, Some(id), NO_PAYLOAD);
            var w := RunMoves(World(map[at := p], {}, map[]),
                              [] + [Request(at, id, PING, NO_PAYLOAD, at)] + [Deliver(Datagram(at, at, ping), now)]
                              + [Local(at, DoWake(0))]);
            at in w.nodes && |w.nodes[at].calls| == 1 && w.nodes[at].calls[0].task == Returned(ping)
  {
    var p := Endpoint(at, true, map[], [], map[], 0.0, 0.0);
    var ping := Message(PING, at, Some(id), NO_PAYLOAD);
    var w := World(map[at := p], {}, map[]);
    var a, b, c := Request(at, id, PING, NO_PAYLOAD, at), Deliver(Datagram(at, at, ping), now), Local(at, DoWake(0));
    RunMovesAppend(w, [], a);
    RunMovesAppend(w, [] + [a], b);
    RunMovesAppend(w, [] + [a] + [b], c);
    var call := Call(id, ping, at, Waiting, Running);
    var w1 := Step(w, a);
    assert w1.nodes[at].calls == [call] && w1.nodes[at].pending == map[id := 0];
    assert Outgoing(ping, at) in Start(p, id, PING, NO_PAYLOAD, at).1;
    assert Datagram(at, at, ping) in w1.wire;
    var w2 := Step(w1, b);
    assert w2.nodes[at].calls == [call.(future := Resolved(ping))];
  }

  lemma RunMovesAppend(w: World, moves: seq<Move>, move: Move)
    ensures RunMoves(w, moves + [move]) == Step(RunMoves(w, moves), move)
  {
    assert (moves + [move])[..|moves|] == moves;
  }

  /** The reply in full that a connected endpoint owes a request. */
  function Promised(p: Endpoint, request: Message): Message {
    var cpu := if request.payload.cpuLoad == None then p.cpuLoad else request.payload.cpuLoad.value;
    var ram := if request.payload.ramPercent == None then p.ramPercent else request.payload.ramPercent.value;
    match request.kind
    case PING => Message(PONG, p.nodeId, request.requestId, Payload(None, None, None, None, None))
    case HEARTBEAT =>
      Message(HEARTBEAT_ACK, p.nodeId, request.requestId, Payload(None, None, None, Some(cpu), Some(ram)))
    case _ =>
      Message(ROUTE_CANDIDATE_RESPONSE, p.nodeId, request.requestId,
              Payload(request.payload.taskId, request.payload.sourceNode, Some(p.nodeId), Some(cpu), None))
  }

  /** The requests that are answered: a route request must name its task and its source. */
  predicate Answerable(kind: Type, payload: Payload) {
    || kind == PING
    || kind == HEARTBEAT
    || (kind == TASK_ROUTE_REQUEST && payload.taskId.Some? && payload.taskId.value != ""
        && payload.sourceNode.Some? && payload.sourceNode.value != "")
  }

  lemma PromiseIsKept(p: Endpoint, m: Message, from: Address, now: real)
    requires Unclaimed(p, m) && p.connected && p.nodeId != "" && Answerable(m.kind, m.payload)
    ensures Receive(p, m, from, now).1 == [Outgoing(Promised(p, m), from)]
  {
    match m.kind
    case PING => PingReceived(p, m, from, now);
    case HEARTBEAT => HeartbeatReceived(p, m, from, now);
    case _ => RouteRequestReceived(p, m, from, now);
  }

  lemma PendingIsIssued(w: World, at: Address)
    requires WorldOk(w) && at in w.nodes
    ensures w.nodes[at].pending.Keys <= w.issued.Keys
  {
    var p := w.nodes[at];
    assert NodeOk(w.issued, at, p);
    forall id | id in p.pending
      ensures id in w.issued
    {
      assert PendingOk(p, id);
      assert CallExplained(w.issued, at, p.pending[id], p.calls[p.pending[id]]);
    }
  }

  /** The request goes out and waits, ... */
  lemma RequestStep(w: World, at: Address, id: string, kind: Type, payload: Payload, dest: Address)
    requires at in w.nodes && w.nodes[at].connected && w.nodes[at].nodeId != ""
    requires id != "" && id !in w.issued && kind != OtherType("")
    ensures var p, v := w.nodes[at], Step(w, Request(at, id, kind, payload, dest));
            var request := Message(kind, p.nodeId, Some(id), payload);
            && Datagram(at, dest, request) in v.wire
            && v.nodes == w.nodes[at := p.(calls := p.calls + [Call(id, request, dest, Waiting, Running)],
                                           pending := p.pending[id := |p.calls|])]
  {
    var p := w.nodes[at];
    var o := Outgoing(Message(kind, p.nodeId, Some(id), payload), dest);
    assert o in Start(p, id, kind, payload, dest).1;
  }

  /** ... its delivery elsewhere puts the reply on the wire, ... */
  lemma AnswerStep(w: World, a: Address, b: Address, request: Message, now: real)
    requires a != b && a in w.nodes && b in w.nodes && Datagram(a, b, request) in w.wire
    requires Unclaimed(w.nodes[b], request) && w.nodes[b].connected && w.nodes[b].nodeId != ""
    requires Answerable(request.kind, request.payload)
    ensures var v := Step(w, Deliver(Datagram(a, b, request), now));
            && a in v.nodes && v.nodes[a] == w.nodes[a]
            && Datagram(b, a, Promised(w.nodes[b], request)) in v.wire
  {
    PromiseIsKept(w.nodes[b], request, a, now);
    assert Outgoing(Promised(w.nodes[b], request), a) in Receive(w.nodes[b], request, a, now).1;
  }

  /** ... and the delivery of the reply and the wake-up of the caller return it. */
  lemma ReturnSteps(w: World, a: Address, b: Address, i: nat, reply: Message, now: real)
    requires a in w.nodes && i < |w.nodes[a].calls| && Waits(w.nodes[a].calls[i])
    requires Datagram(b, a, reply) in w.wire && reply.sender != "" && reply.kind != OtherType("")
    requires reply.requestId.Some? && reply.requestId.value != ""
    requires reply.requestId.value in w.nodes[a].pending && w.nodes[a].pending[reply.requestId.value] == i
    ensures var v := Step(Step(w, Deliver(Datagram(b, a, reply), now)), Local(a, DoWake(i)));
            && a in v.nodes
            && v.nodes[a].calls == w.nodes[a].calls[i := w.nodes[a].calls[i].(future := Resolved(reply), task := Returned(reply))]
            && v.nodes[a].pending == w.nodes[a].pending - {reply.requestId.value}
  {
    var p := w.nodes[a];
    var v1 := Step(w, Deliver(Datagram(b, a, reply), now));
    assert v1.nodes[a].calls == p.calls[i := p.calls[i].(future := Resolved(reply))];
    assert v1.nodes[a].pending == p.pending - {reply.requestId.value};
  }

  /** In every reachable world, a PING, a HEARTBEAT or a complete route request from one connected endpoint
      to another completes once it, and then its reply, is delivered: the call returns the promised reply
      in full, and all other calls and pending ids of the caller are as before. */
  lemma RequestCompletes(w: World, moves: seq<Move>, a: Address, b: Address, id: string, kind: Type, payload: Payload,
                         t1: real, t2: real)
    requires w.wire == {} && w.issued == map[]
    requires forall x :: x in w.nodes ==> w.nodes[x].calls == [] && w.nodes[x].pending == map[]
    requires var v := RunMoves(w, moves);
             && a != b && a in v.nodes && b in v.nodes
             && v.nodes[a].connected && v.nodes[a].nodeId != "" && v.nodes[b].connected && v.nodes[b].nodeId != ""
             && id != "" && id !in v.issued
    requires Answerable(kind, payload)
    ensures var v := RunMoves(w, moves);
            var request := Message(kind, v.nodes[a].nodeId, Some(id), payload);
            var reply := Promised(v.nodes[b], request);
            var u := RunMoves(w, moves + [Request(a, id, kind, payload, b)] + [Deliver(Datagram(a, b, request), t1)]
                                 + [Deliver(Datagram(b, a, reply), t2)] + [Local(a, DoWake(|v.nodes[a].calls|))]);
            && a in u.nodes
            && u.nodes[a].calls == v.nodes[a].calls + [Call(id, request, b, Resolved(reply), Returned(reply))]
            && u.nodes[a].pending == v.nodes[a].pending
  {
    var v := RunMoves(w, moves);
    var n, request := |v.nodes[a].calls|, Message(kind, v.nodes[a].nodeId, Some(id), payload);
    var reply := Promised(v.nodes[b], request);
    var m1, m2 := Request(a, id, kind, payload, b), Deliver(Datagram(a, b, request), t1);
    var m3, m4 := Deliver(Datagram(b, a, reply), t2), Local(a, DoWake(n));
    FourMoves(w, moves, m1, m2, m3, m4);
    ReachablePending(w, moves, a);
    ReachablePending(w, moves, b);
    ExchangeCompletes(v, a, b, id, kind, payload, t1, t2);
  }

  lemma FourMoves(w: World, moves: seq<Move>, a: Move, b: Move, c: Move, d: Move)
    ensures RunMoves(w, moves + [a] + [b] + [c] + [d]) == Step(Step(Step(Step(RunMoves(w, moves), a), b), c), d)
  {
    RunMovesAppend(w, moves, a);
    RunMovesAppend(w, moves + [a], b);
    RunMovesAppend(w, moves + [a] + [b], c);
    RunMovesAppend(w, moves + [a] + [b] + [c], d);
  }

  lemma ReachablePending(w: World, moves: seq<Move>, at: Address)
    requires w.wire == {} && w.issued == map[]
    requires forall x :: x in w.nodes ==> w.nodes[x].calls == [] && w.nodes[x].pending == map[]
    ensures at in RunMoves(w, moves).nodes ==> RunMoves(w, moves).nodes[at].pending.Keys <= RunMoves(w, moves).issued.Keys
  {
    RunMovesKeeps(w, moves);
    if at in RunMoves(w, moves).nodes {
      PendingIsIssued(RunMoves(w, moves), at);
    }
  }

  lemma ExchangeCompletes(v: World, a: Address, b: Address, id: string, kind: Type, payload: Payload, t1: real, t2: real)
    requires a != b && a in v.nodes && b in v.nodes && id !in v.nodes[a].pending && id !in v.nodes[b].pending
    requires v.nodes[a].connected && v.nodes[a].nodeId != "" && v.nodes[b].connected && v.nodes[b].nodeId != ""
    requires id != "" && id !in v.issued && Answerable(kind, payload)
    ensures var p, request := v.nodes[a], Message(kind, v.nodes[a].nodeId, Some(id), payload);
            var reply := Promised(v.nodes[b], request);
            var v2 := Step(Step(v, Request(a, id, kind, payload, b)), Deliver(Datagram(a, b, request), t1));
            var u := Step(Step(v2, Deliver(Datagram(b, a, reply), t2)), Local(a, DoWake(|p.calls|)));
            && a in u.nodes
            && u.nodes[a].calls == p.calls + [Call(id, request, b, Resolved(reply), Returned(reply))]
            && u.nodes[a].pending == p.pending
  {
    var p, request := v.nodes[a], Message(kind, v.nodes[a].nodeId, Some(id), payload);
    var v1 := Step(v, Request(a, id, kind, payload, b));
    RequestStep(v, a, id, kind, payload, b);
    AnswerStep(v1, a, b, request, t1);
    ReturnSteps(Step(v1, Deliver(Datagram(a, b, request), t1)), a, b, |p.calls|, Promised(v.nodes[b], request), t2);
    assert p.pending[id := |p.calls|] - {id} == p.pending;
  }

  /** Whatever a message makes an endpoint send makes no endpoint send anything further. */
  lemma RepliesAreFinal(p: Endpoint, m: Message, from: Address, now: real, o: Outgoing,
                        q: Endpoint, from': Address, now': real)
    requires o in Receive(p, m, from, now).1
    ensures Receive(q, o.message, from', now').1 == []
  {
  }

  // ---------------------------------------------------------------------------
  // The protocol object
  // ---------------------------------------------------------------------------

  class NetworkProtocol {
    const nodeId: string
    var connected: bool
    var pending: map<string, nat>
    var calls: seq<Call>
    var lastSeen: map<string, real>
    var cpuLoad: real
    var ramPercent: real
    /** What has been handed to the transport, in order. */
    var sent: seq<Outgoing>

    constructor (nodeId: string)
      ensures State() == Endpoint(nodeId, false, map[], [], map[], 0.0, 0.0) && sent == []
    {
      this.nodeId := nodeId;
      connected := false;
      pending := map[];
      calls := [];
      lastSeen := map[];
      cpuLoad := 0.0;
      ramPercent := 0.0;
      sent := [];
    }

    ghost function State(): Endpoint
      reads this
    {
      Endpoint(nodeId, connected, pending, calls, lastSeen, cpuLoad, ramPercent)
    }

    method ConnectionMade()
      modifies this
      ensures State() == Made(old(State())) && sent == old(sent)
    {
      connected := true;
    }

    /** _send: false when there is no transport. */
    method Send(message: Message, to: Address) returns (ok: bool)
      modifies this`sent
      ensures ok == connected
      ensures sent == old(sent) + if ok then [Outgoing(message, to)] else []
    {
      if connected {
        sent := sent + [Outgoing(message, to)];
      }
      ok := connected;
    }

    /** datagram_received; None stands for bytes that are not a message at all. */
    method DatagramReceived(message: Option<Message>, from: Address, now: real)
      modifies this
      ensures message.None? ==> State() == old(State()) && sent == old(sent)
      ensures message.Some? ==>
                var (q, out) := Receive(old(State()), message.value, from, now);
                State() == q && sent == old(sent) + out
    {
      if message.None? || !Decodes(message.value) {
        return;
      }
      var m := message.value;
      lastSeen := lastSeen[m.sender := now];
      if NonEmpty(m.requestId) && m.requestId.value in pending {
        var i := pending[m.requestId.value];
        pending := pending - {m.requestId.value};
        if i < |calls| && !Done(calls[i].future) {
          calls := calls[i := calls[i].(future := Resolved(m))];
        }
        return;
      }
      DispatchMessage(m, from);
    }

    /** create_message and _send together, as the handlers use them: false when one of them raises. */
    method SendReply(kind: Type, m: Message, payload: Payload, to: Address) returns (ok: bool)
      modifies this`sent
      ensures ok <==> connected && nodeId != ""
      ensures sent == old(sent) + Reply(State(), kind, m, payload, to)
    {
      if nodeId == "" {
        return false;
      }
      ok := Send(Message(kind, nodeId, m.requestId, payload), to);
    }

    method DispatchMessage(m: Message, from: Address)
      modifies this
      ensures var (q, out) := Dispatch(old(State()), m, from);
              State() == q && sent == old(sent) + out
    {
      match m.kind {
        case PING =>
          var ok := SendReply(PONG, m, NO_PAYLOAD, from);
        case HEARTBEAT =>
          if m.payload.cpuLoad.Some? {
            cpuLoad := m.payload.cpuLoad.value;
          }
          if m.payload.ramPercent.Some? {
            ramPercent := m.payload.ramPercent.value;
          }
          var load := NO_PAYLOAD.(cpuLoad := Some(cpuLoad), ramPercent := Some(ramPercent));
          var ok := SendReply(HEARTBEAT_ACK, m, load, from);
        case TASK_ROUTE_REQUEST =>
          if !NonEmpty(m.payload.taskId) || !NonEmpty(m.payload.sourceNode) {
            return;
          }
          var load := if m.payload.cpuLoad.None? then Some(cpuLoad) else m.payload.cpuLoad;
          var offer := Payload(m.payload.taskId, m.payload.sourceNode, Some(nodeId), load, None);
          var ok := SendReply(ROUTE_CANDIDATE_RESPONSE, m, offer, from);
        case _ =>
      }
    }

    /** send_request up to its await. */
    method BeginRequest(id: string, kind: Type, payload: Payload, dest: Address) returns (r: Result<()>)
      modifies this
      ensures r == if kind == OtherType("") || nodeId == "" then Err(ValueError)
                   else if !old(connected) then Err(ConnectionError)
                   else Ok(())
      ensures var (q, out) := Start(old(State()), id, kind, payload, dest);
              State() == q && sent == old(sent) + out
    {
      if kind == OtherType("") || nodeId == "" {
        return Err(ValueError);
      }
      var request := Message(kind, nodeId, Some(id), payload);
      var i := |calls|;
      calls := calls + [Call(id, request, dest, Waiting, Running)];
      pending := pending[id := i];
      var ok := Send(request, dest);
      if !ok {
        pending := pending - {id};
        calls := calls[i := calls[i].(task := Raised(Disconnected))];
        return Err(ConnectionError);
      }
      return Ok(());
    }

    /** The timeout or cancellation that reaches a waiting send_request. */
    method InterruptRequest(i: nat, reason: Reason)
      modifies this
      ensures State() == Interrupt(old(State()), i, reason) && sent == old(sent)
    {
      if i < |calls| && calls[i].task.Running? {
        if !Done(calls[i].future) {
          calls := calls[i := calls[i].(future := Cancelled)];
        }
        calls := calls[i := calls[i].(task := Interrupted(reason))];
      }
    }

    /** send_request after its await. */
    method ResumeRequest(i: nat)
      modifies this
      ensures State() == Wake(old(State()), i) && sent == old(sent)
    {
      if i >= |calls| || Ended(calls[i].task) || (calls[i].task.Running? && calls[i].future.Waiting?) {
        return;
      }
      var c := calls[i];
      if c.task.Running? && c.future.Resolved? {
        calls := calls[i := c.(task := Returned(c.future.reply))];
        return;
      }
      var reason := if c.task.Interrupted? then c.task.reason else if c.future.Failed? then Disconnected else Aborted;
      pending := pending - {c.id};
      calls := calls[i := c.(task := Raised(reason))];
    }

    method ConnectionLost()
      modifies this
      ensures State() == Lost(old(State())) && sent == old(sent)
    {
      var ids := pending.Keys;
      ghost var done: set<nat> := {};
      assert FailAll(calls, done) == calls;
      while ids != {}
        invariant ids <= pending.Keys
        invariant done == set id | id in pending && id !in ids :: pending[id]
        invariant calls == FailAll(old(calls), done)
        invariant State() == old(State()).(calls := calls) && sent == old(sent)
        decreases ids
      {
        var id :| id in ids;
        var i := pending[id];
        if i < |calls| && !Done(calls[i].future) {
          calls := calls[i := calls[i].(future := Failed)];
        }
        ids := ids - {id};
        done := done + {i};
      }
      assert done == pending.Values;
      pending := map[];
      connected := false;
    }
  }
}
