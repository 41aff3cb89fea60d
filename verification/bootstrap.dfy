/** Joining the overlay through a bootstrap peer. */
module Bootstrap {
  import opened Wrappers
  import opened NodeIds
  import opened RoutingTables
  import opened PeerStores
  import opened Rpc

  /** The configuration of a BootstrapClient; the three ids are meant to agree but nothing checks it. */
  datatype Client = Client(localHex: string, pingHex: string, handler: Handler)

  /** Stores the contacts one after the other and lists the accepted ones. */
  function StoreAll(s: Store, clock: Clock, cs: seq<Contact>): (r: (Store, seq<Contact>))
    requires |s.table.buckets| == ID_BITS
    ensures |r.0.table.buckets| == ID_BITS
  {
    if cs == [] then (s, [])
    else
      var (s1, kept) := StoreAll(s, clock, cs[..|cs| - 1]);
      var c := cs[|cs| - 1];
      var (s2, accepted) := StoreAdd(s1, clock, c.id, c.host, c.port);
      (s2, if accepted == Ok(true) then kept + [c] else kept)
  }

  /** The bootstrap peer itself, when its id is given. */
  function StoreBootstrap(s: Store, clock: Clock, id: Option<Bytes>, host: string, port: int): (r: (Store, seq<Contact>))
    requires |s.table.buckets| == ID_BITS
    ensures |r.0.table.buckets| == ID_BITS
  {
    if id.None? then (s, [])
    else
      var (s1, accepted) := StoreAdd(s, clock, id.value, host, port);
      (s1, if accepted == Ok(true) then [MakeContact(id.value, host, port).value] else [])
  }

  /** The two exchanges with the bootstrap peer: a PING, then FIND_NODE for the own id. */
  function Exchange(client: Client, token: string, peer: Peer): Result<seq<Contact>> {
    if !PingSucceeds(client.pingHex, token, peer) then Err(BootstrapError)
    else
      var request := BuildFindNode(client.handler, client.localHex);
      if request.Err? then Err(BootstrapError)
      else
        var contacts := ParseFoundNodes(client.handler, peer(request.value), client.localHex);
        if contacts.Err? then Err(BootstrapError) else contacts
  }

  function JoinStore(s: Store, clock: Clock, client: Client, host: string, port: int, peer: Peer,
                id: Option<Bytes>, token: string): (Store, Result<seq<Contact>>)
    requires |s.table.buckets| == ID_BITS
  {
    var contacts := Exchange(client, token, peer);
    if contacts.Err? then (s, Err(BootstrapError))
    else
      var (s1, first) := StoreBootstrap(s, clock, id, host, port);
      var (s2, rest) := StoreAll(s1, clock, contacts.value);
      (s2, Ok(first + rest))
  }

  // ---------------------------------------------------------------------------
  // What a join stores and returns
  // ---------------------------------------------------------------------------

  function IdSet(cs: seq<Contact>): set<NodeId> {
    set c | c in cs :: c.id
  }

  lemma IdSetConcat(a: seq<Contact>, b: seq<Contact>)
    ensures IdSet(a + b) == IdSet(a) + IdSet(b)
  {
    forall id
      ensures id in IdSet(a + b) <==> id in IdSet(a) || id in IdSet(b)
    {
      if id in IdSet(a + b) {
        var c :| c in a + b && c.id == id;
        assert c in a || c in b;
      }
      if id in IdSet(a) {
        var c :| c in a && c.id == id;
        assert c in a + b;
      }
      if id in IdSet(b) {
        var c :| c in b && c.id == id;
        assert c in a + b;
      }
    }
  }

  lemma IdSetAppend(a: seq<Contact>, c: Contact)
    ensures IdSet(a + [c]) == IdSet(a) + {c.id}
  {
    IdSetConcat(a, [c]);
    assert IdSet([c]) == {c.id};
  }

  /** What every addition keeps, kept by a whole list. */
  lemma {:induction false} StoreAllKeeps(s: Store, clock: Clock, cs: seq<Contact>)
    requires StoreOk(s)
    ensures var s' := StoreAll(s, clock, cs).0;
            && StoreOk(s') && Grows(s, s')
            && (NonDecreasing(clock) && AgeOk(s, clock) ==> AgeOk(s', clock))
  {
    if cs != [] {
      var front, c := cs[..|cs| - 1], cs[|cs| - 1];
      var s1 := StoreAll(s, clock, front).0;
      StoreAllKeeps(s, clock, front);
      AddOrUpdateKeeps(s1, clock, c.id, c.host, c.port);
      GrowsTransitive(s, s1, StoreAll(s, clock, cs).0);
    }
  }

  /** The accepted ids are those of the list that end up stored, and they are all that is new. */
  lemma {:induction false} StoreAllExact(s: Store, clock: Clock, cs: seq<Contact>)
    requires StoreOk(s)
    ensures var (s', kept) := StoreAll(s, clock, cs);
            && IdSet(kept) == IdSet(cs) * s'.records.Keys
            && s'.records.Keys == s.records.Keys + IdSet(kept)
  {
    if cs != [] {
      var front, c := cs[..|cs| - 1], cs[|cs| - 1];
      var (s1, kept1) := StoreAll(s, clock, front);
      var (s2, kept) := StoreAll(s, clock, cs);
      assert cs == front + [c];
      IdSetAppend(front, c);
      IdSetAppend(kept1, c);
      StoreAllExact(s, clock, front);
      StoreAllKeeps(s, clock, front);
      AddOrUpdateKeys(s1, clock, c.id, c.host, c.port);
      KeptIds(s.records.Keys, s1.records.Keys, IdSet(front), IdSet(kept1), c.id, s2.records.Keys, IdSet(kept));
    }
  }

  /** One more id x, taken or not. */
  lemma KeptIds(keys0: set<NodeId>, keys1: set<NodeId>, front: set<NodeId>, kept1: set<NodeId>, x: NodeId,
                keys2: set<NodeId>, kept2: set<NodeId>)
    requires kept1 == front * keys1 && keys1 == keys0 + kept1
    requires (keys2 == keys1 + {x} && kept2 == kept1 + {x}) || (keys2 == keys1 && kept2 == kept1 && x !in keys1)
    ensures kept2 == (front + {x}) * keys2 && keys2 == keys0 + kept2
  {
  }

  /** The bootstrap id counts when it could become a contact. */
  function BootstrapIds(id: Option<Bytes>, port: int): set<NodeId> {
    if id.Some? && |id.value| == ID_BYTES && 0 < port <= 65535 then {id.value} else {}
  }

  lemma StoreBootstrapKeeps(s: Store, clock: Clock, id: Option<Bytes>, host: string, port: int)
    requires StoreOk(s)
    ensures var s' := StoreBootstrap(s, clock, id, host, port).0;
            && StoreOk(s') && Grows(s, s')
            && (NonDecreasing(clock) && AgeOk(s, clock) ==> AgeOk(s', clock))
  {
    if id.Some? {
      AddOrUpdateKeeps(s, clock, id.value, host, port);
    }
  }

  lemma StoreBootstrapExact(s: Store, clock: Clock, id: Option<Bytes>, host: string, port: int)
    requires StoreOk(s)
    ensures var (s', first) := StoreBootstrap(s, clock, id, host, port);
            && IdSet(first) == BootstrapIds(id, port) * s'.records.Keys
            && s'.records.Keys == s.records.Keys + IdSet(first)
  {
    var (s', first) := StoreBootstrap(s, clock, id, host, port);
    if id.Some? {
      var ok := StoreAdd(s, clock, id.value, host, port).1 == Ok(true);
      assert IdSet(first) == if ok then {id.value} else {};
      AddOrUpdateKeys(s, clock, id.value, host, port);
    }
  }

  /** The contacts whose id is among the keys, in order. */
  function OnFile(cs: seq<Contact>, keys: set<NodeId>): seq<Contact> {
    if cs == [] then []
    else
      var front, c := OnFile(cs[..|cs| - 1], keys), cs[|cs| - 1];
      if c.id in keys then front + [c] else front
  }

  lemma {:induction false} OnFileSame(cs: seq<Contact>, a: set<NodeId>, b: set<NodeId>)
    requires IdSet(cs) * a == IdSet(cs) * b
    ensures OnFile(cs, a) == OnFile(cs, b)
  {
    if cs != [] {
      var front, c := cs[..|cs| - 1], cs[|cs| - 1];
      assert cs == front + [c];
      IdSetAppend(front, c);
      assert c.id in IdSet(cs) * a <==> c.id in a;
      assert c.id in IdSet(cs) * b <==> c.id in b;
      assert IdSet(front) * a == IdSet(front) * (IdSet(cs) * a);
      assert IdSet(front) * b == IdSet(front) * (IdSet(cs) * b);
      OnFileSame(front, a, b);
    }
  }

  /** A contact whose id has been dealt with before adds no id. */
  lemma SecondTryAddsNothing(s: Store, clock: Clock, c: Contact)
    requires StoreOk(s) && Held(s, c.id)
    ensures StoreAdd(s, clock, c.id, c.host, c.port).0.records.Keys == s.records.Keys
  {
    AddAddsNewId(s, clock, c);
  }

  lemma ListedIsHeld(s: Store, clock: Clock, cs: seq<Contact>, id: NodeId)
    requires StoreOk(s) && id in IdSet(cs)
    ensures Held(StoreAll(s, clock, cs).0, id)
  {
    var c :| c in cs && c.id == id;
    var i :| 0 <= i < |cs| && cs[i] == c;
    StoreAllHolds(s, clock, cs, i);
  }

  lemma LaterKeepsListed(s: Store, clock: Clock, front: seq<Contact>, c: Contact)
    requires StoreOk(s)
    ensures var s1 := StoreAll(s, clock, front).0;
            var s2 := StoreAdd(s1, clock, c.id, c.host, c.port).0;
            IdSet(front) * s2.records.Keys == IdSet(front) * s1.records.Keys
  {
    var s1 := StoreAll(s, clock, front).0;
    StoreAllStaysOk(s, clock, front);
    AddOrUpdateKeys(s1, clock, c.id, c.host, c.port);
    if c.id in IdSet(front) {
      ListedIsHeld(s, clock, front, c.id);
      SecondTryAddsNothing(s1, clock, c);
    }
  }

  /** The accepted contacts are those of the list whose id is on record at the end, in their order. */
  lemma {:induction false} StoreAllReturns(s: Store, clock: Clock, cs: seq<Contact>)
    requires StoreOk(s)
    ensures var (s', kept) := StoreAll(s, clock, cs);
            kept == OnFile(cs, s'.records.Keys)
  {
    if cs != [] {
      var front, c := cs[..|cs| - 1], cs[|cs| - 1];
      var s1, s2 := StoreAll(s, clock, front).0, StoreAll(s, clock, cs).0;
      StoreAllReturns(s, clock, front);
      StoreAllStaysOk(s, clock, front);
      LaterKeepsListed(s, clock, front, c);
      OnFileSame(front, s1.records.Keys, s2.records.Keys);
      AddOrUpdateKeys(s1, clock, c.id, c.host, c.port);
    }
  }

  /** A join keeps agreement and age order and evicts nobody, whatever the peer replies. */
  lemma JoinKeeps(s: Store, clock: Clock, client: Client, host: string, port: int, peer: Peer,
                  id: Option<Bytes>, token: string)
    requires StoreOk(s)
    ensures var s' := JoinStore(s, clock, client, host, port, peer, id, token).0;
            && StoreOk(s') && Grows(s, s')
            && (NonDecreasing(clock) && AgeOk(s, clock) ==> AgeOk(s', clock))
  {
    var reply := Exchange(client, token, peer);
    if reply.Ok? {
      var s1 := StoreBootstrap(s, clock, id, host, port).0;
      StoreBootstrapKeeps(s, clock, id, host, port);
      StoreAllKeeps(s1, clock, reply.value);
      GrowsTransitive(s, s1, StoreAll(s1, clock, reply.value).0);
    }
  }

  /** A join fails exactly if the PING cannot be built or brings no PONG with its token back from anyone, or
      the FIND_NODE for the own id cannot be built or brings no good reply back. */
  lemma JoinFailsIff(s: Store, clock: Clock, client: Client, host: string, port: int, peer: Peer,
                     id: Option<Bytes>, token: string)
    requires |s.table.buckets| == ID_BITS
    ensures var pong := peer(Message(PING, client.pingHex, Some(token), None, None));
            var found := peer(Message(FIND_NODE, client.handler.localHex, None, Some(client.localHex), None));
            JoinStore(s, clock, client, host, port, peer, id, token).1 == Err(BootstrapError) <==>
            !(&& client.pingHex != "" && token != ""
              && pong.Decoded? && pong.message.kind == PONG && pong.message.sender != "" && pong.message.token == Some(token)
              && client.handler.localHex != "" && client.localHex != "" && GoodReply(found, client.localHex))
  {
    PingSucceedsIff(client.pingHex, token, peer);
    ParseOkIff(client.handler, peer(Message(FIND_NODE, client.handler.localHex, None, Some(client.localHex), None)), client.localHex);
  }

  lemma StoreAllStaysOk(s: Store, clock: Clock, cs: seq<Contact>)
    requires StoreOk(s)
    ensures StoreOk(StoreAll(s, clock, cs).0)
  {
    StoreAllKeeps(s, clock, cs);
  }

  lemma EarlierHeld(s: Store, clock: Clock, front: seq<Contact>, c: Contact, id: NodeId)
    requires StoreOk(s) && Held(StoreAll(s, clock, front).0, id)
    ensures Held(StoreAdd(StoreAll(s, clock, front).0, clock, c.id, c.host, c.port).0, id)
  {
    StoreAllStaysOk(s, clock, front);
    AddKeepsHeld(StoreAll(s, clock, front).0, clock, c, id);
  }

  lemma LastHeld(s: Store, clock: Clock, front: seq<Contact>, c: Contact)
    requires StoreOk(s)
    ensures Held(StoreAdd(StoreAll(s, clock, front).0, clock, c.id, c.host, c.port).0, c.id)
  {
    StoreAllStaysOk(s, clock, front);
    AddHolds(StoreAll(s, clock, front).0, clock, c);
  }

  /** Every listed id is dealt with, ... */
  lemma {:induction false} StoreAllHolds(s: Store, clock: Clock, cs: seq<Contact>, i: nat)
    requires StoreOk(s) && i < |cs|
    ensures Held(StoreAll(s, clock, cs).0, cs[i].id)
  {
    var front, c := cs[..|cs| - 1], cs[|cs| - 1];
    if i < |front| {
      StoreAllHolds(s, clock, front, i);
      EarlierHeld(s, clock, front, c, front[i].id);
    } else {
      LastHeld(s, clock, front, c);
    }
  }

  /** Where the id is on record, it is with this contact. */
  ghost predicate AsGiven(s: Store, c: Contact) {
    c.id in s.records ==> s.records[c.id].contact == c
  }

  lemma EarlierAsGiven(s: Store, clock: Clock, front: seq<Contact>, c: Contact, d: Contact)
    requires StoreOk(s) && c.id != d.id && AsGiven(StoreAll(s, clock, front).0, d)
    ensures AsGiven(StoreAdd(StoreAll(s, clock, front).0, clock, c.id, c.host, c.port).0, d)
  {
    StoreAllStaysOk(s, clock, front);
    AddOther(StoreAll(s, clock, front).0, clock, c, d.id);
  }

  lemma LastAsGiven(s: Store, clock: Clock, front: seq<Contact>, c: Contact)
    requires StoreOk(s)
    ensures AsGiven(StoreAdd(StoreAll(s, clock, front).0, clock, c.id, c.host, c.port).0, c)
  {
    StoreAllStaysOk(s, clock, front);
    AddOwn(StoreAll(s, clock, front).0, clock, c);
  }

  /** ... and where it is on record, it is so as it was listed last. */
  lemma {:induction false} StoreAllLast(s: Store, clock: Clock, cs: seq<Contact>, i: nat)
    requires StoreOk(s) && i < |cs| && forall j :: i < j < |cs| ==> cs[j].id != cs[i].id
    ensures AsGiven(StoreAll(s, clock, cs).0, cs[i])
  {
    var front, c := cs[..|cs| - 1], cs[|cs| - 1];
    if i < |front| {
      StoreAllLast(s, clock, front, i);
      EarlierAsGiven(s, clock, front, c, front[i]);
    } else {
      LastAsGiven(s, clock, front, c);
    }
  }

  lemma {:induction false} StoreAllOther(s: Store, clock: Clock, cs: seq<Contact>, id: NodeId)
    requires StoreOk(s) && id !in IdSet(cs)
    ensures var s' := StoreAll(s, clock, cs).0;
            (id in s'.records <==> id in s.records) && (id in s.records ==> s'.records[id] == s.records[id])
  {
    if cs != [] {
      var front, c := cs[..|cs| - 1], cs[|cs| - 1];
      assert cs == front + [c];
      IdSetAppend(front, c);
      StoreAllStaysOk(s, clock, front);
      StoreAllOther(s, clock, front, id);
      AddOther(StoreAll(s, clock, front).0, clock, c, id);
    }
  }

  lemma AddOther(s: Store, clock: Clock, c: Contact, id: NodeId)
    requires StoreOk(s) && id != c.id
    ensures var s' := StoreAdd(s, clock, c.id, c.host, c.port).0;
            (id in s'.records <==> id in s.records) && (id in s.records ==> s'.records[id] == s.records[id])
  {
    var s' := StoreAdd(s, clock, c.id, c.host, c.port).0;
    AddOrUpdateEffect(s, clock, c.id, c.host, c.port);
    assert id in s.records <==> id in s.records - {c.id};
    assert id in s'.records <==> id in s'.records - {c.id};
  }

  lemma AddOwn(s: Store, clock: Clock, c: Contact)
    requires StoreOk(s)
    ensures AsGiven(StoreAdd(s, clock, c.id, c.host, c.port).0, c)
  {
    AddOrUpdateEffect(s, clock, c.id, c.host, c.port);
    AddOrUpdateKeys(s, clock, c.id, c.host, c.port);
  }

  lemma {:induction false} StoreAllPrefix(s: Store, clock: Clock, cs: seq<Contact>, n: nat)
    requires StoreOk(s) && n <= |cs|
    ensures Grows(StoreAll(s, clock, cs[..n]).0, StoreAll(s, clock, cs).0)
    decreases |cs|
  {
    StoreAllStaysOk(s, clock, cs[..n]);
    if n == |cs| {
      assert cs[..n] == cs;
      GrowsSelf(StoreAll(s, clock, cs).0);
    } else {
      var front, c := cs[..|cs| - 1], cs[|cs| - 1];
      assert front[..n] == cs[..n];
      StoreAllPrefix(s, clock, front, n);
      StoreAllStaysOk(s, clock, front);
      AddOrUpdateKeeps(StoreAll(s, clock, front).0, clock, c.id, c.host, c.port);
      GrowsTransitive(StoreAll(s, clock, cs[..n]).0, StoreAll(s, clock, front).0, StoreAll(s, clock, cs).0);
    }
  }

  /** First come, first served: when a contact is left out, every id of its bucket that is on record was
      there before or came earlier in the list. */
  lemma FirstComeFirstServed(s: Store, clock: Clock, cs: seq<Contact>, i: nat, x: NodeId)
    requires StoreOk(s) && i < |cs| && cs[i].id != s.table.local && x != s.table.local
    requires Slot(s.table.local, cs[i].id) == Slot(s.table.local, x)
    ensures var s' := StoreAll(s, clock, cs).0;
            cs[i].id !in s'.records && x in s'.records ==> x in s.records || x in IdSet(cs[..i])
  {
    LeftOutCloses(s, clock, cs, i, x);
    PrefixAddsListed(s, clock, cs, i);
  }

  lemma LeftOutCloses(s: Store, clock: Clock, cs: seq<Contact>, i: nat, x: NodeId)
    requires StoreOk(s) && i < |cs| && cs[i].id != s.table.local && x != s.table.local
    requires Slot(s.table.local, cs[i].id) == Slot(s.table.local, x)
    ensures var s' := StoreAll(s, clock, cs).0;
            cs[i].id !in s'.records && x in s'.records ==> x in StoreAll(s, clock, cs[..i + 1]).0.records
  {
    var some, s' := cs[..i + 1], StoreAll(s, clock, cs).0;
    StoreAllKeeps(s, clock, some);
    StoreAllStaysOk(s, clock, cs);
    StoreAllPrefix(s, clock, cs, i + 1);
    StoreAllHolds(s, clock, some, i);
    if cs[i].id !in s'.records {
      FullStaysClosed(StoreAll(s, clock, some).0, s', cs[i].id, x);
    }
  }

  lemma PrefixAddsListed(s: Store, clock: Clock, cs: seq<Contact>, i: nat)
    requires StoreOk(s) && i < |cs|
    ensures StoreAll(s, clock, cs[..i + 1]).0.records.Keys <= s.records.Keys + IdSet(cs[..i]) + {cs[i].id}
  {
    assert cs[..i + 1] == cs[..i] + [cs[i]];
    IdSetAppend(cs[..i], cs[i]);
    StoreAllExact(s, clock, cs[..i + 1]);
  }

  /** After a join every contact of the reply is on record as the reply gave it last, unless it is the local
      node or its bucket is full; ... */
  lemma JoinStoresReply(s: Store, clock: Clock, client: Client, host: string, port: int, peer: Peer,
                        id: Option<Bytes>, token: string, i: nat)
    requires StoreOk(s)
    ensures var (s', r) := JoinStore(s, clock, client, host, port, peer, id, token);
            var reply := Exchange(client, token, peer);
            && (r.Ok? <==> reply.Ok?)
            && (r.Ok? && i < |reply.value| ==>
                  var c := reply.value[i];
                  && |s'.table.buckets| == ID_BITS && Held(s', c.id)
                  && ((forall j :: i < j < |reply.value| ==> reply.value[j].id != c.id) ==> AsGiven(s', c)))
  {
    var reply := Exchange(client, token, peer);
    if reply.Ok? && i < |reply.value| {
      var s1 := StoreBootstrap(s, clock, id, host, port).0;
      StoreBootstrapKeeps(s, clock, id, host, port);
      StoreAllHolds(s1, clock, reply.value, i);
      if forall j :: i < j < |reply.value| ==> reply.value[j].id != reply.value[i].id {
        StoreAllLast(s1, clock, reply.value, i);
      }
    }
  }

  /** ... and so is the bootstrap peer, if it was named with its id and a port, as it was named unless the
      reply says otherwise. */
  lemma JoinStoresBootstrap(s: Store, clock: Clock, client: Client, host: string, port: int, peer: Peer,
                            id: NodeId, token: string)
    requires StoreOk(s) && 0 < port <= 65535
    ensures var (s', r) := JoinStore(s, clock, client, host, port, peer, Some(id), token);
            var reply := Exchange(client, token, peer);
            r.Ok? ==>
              && reply.Ok? && |s'.table.buckets| == ID_BITS && Held(s', id)
              && (id !in IdSet(reply.value) ==> AsGiven(s', Contact(id, host, port)))
  {
    var reply := Exchange(client, token, peer);
    if reply.Ok? {
      var c := Contact(id, host, port);
      var s1 := StoreAdd(s, clock, id, host, port).0;
      AddOrUpdateKeeps(s, clock, id, host, port);
      AddHolds(s, clock, c);
      AddOwn(s, clock, c);
      StoreAllKeeps(s1, clock, reply.value);
      HeldStays(s1, StoreAll(s1, clock, reply.value).0, id);
      if id !in IdSet(reply.value) {
        StoreAllOther(s1, clock, reply.value, id);
      }
    }
  }

  /** A join returns the bootstrap peer as it was named, if it was named with its id and a port and is on
      record at the end, and then the contacts of the reply whose id is, in the order of the reply. */
  lemma JoinReturns(s: Store, clock: Clock, client: Client, host: string, port: int, peer: Peer,
                    id: Option<Bytes>, token: string)
    requires StoreOk(s)
    ensures var (s', r) := JoinStore(s, clock, client, host, port, peer, id, token);
            var reply := Exchange(client, token, peer);
            r.Ok? ==>
              && reply.Ok?
              && r.value == OnFile(if BootstrapIds(id, port) == {} then [] else [Contact(id.value, host, port)], s'.records.Keys)
                            + OnFile(reply.value, s'.records.Keys)
  {
    var reply := Exchange(client, token, peer);
    if reply.Ok? {
      var s1 := StoreBootstrap(s, clock, id, host, port).0;
      StoreBootstrapKeeps(s, clock, id, host, port);
      StoreAllReturns(s1, clock, reply.value);
      BootstrapReturns(s, clock, id, host, port, reply.value);
    }
  }

  lemma BootstrapReturns(s: Store, clock: Clock, id: Option<Bytes>, host: string, port: int, cs: seq<Contact>)
    requires StoreOk(s)
    ensures var (s1, first) := StoreBootstrap(s, clock, id, host, port);
            first == OnFile(if BootstrapIds(id, port) == {} then [] else [Contact(id.value, host, port)],
                            StoreAll(s1, clock, cs).0.records.Keys)
  {
    var (s1, first) := StoreBootstrap(s, clock, id, host, port);
    StoreBootstrapKeeps(s, clock, id, host, port);
    StoreAllKeeps(s1, clock, cs);
    if BootstrapIds(id, port) != {} {
      var c := Contact(id.value, host, port);
      assert [c][..0] == [];
      AddOrUpdateKeys(s, clock, id.value, host, port);
      AddHolds(s, clock, c);
      if id.value !in s1.records {
        HeldStaysOut(s1, clock, cs, id.value);
      }
    }
  }

  /** An id that was refused stays out. */
  lemma {:induction false} HeldStaysOut(s: Store, clock: Clock, cs: seq<Contact>, id: NodeId)
    requires StoreOk(s) && Held(s, id) && id !in s.records
    ensures id !in StoreAll(s, clock, cs).0.records
  {
    if cs != [] {
      var front, c := cs[..|cs| - 1], cs[|cs| - 1];
      var s1 := StoreAll(s, clock, front).0;
      HeldStaysOut(s, clock, front, id);
      StoreAllKeeps(s, clock, front);
      HeldStays(s, s1, id);
      if c.id == id {
        SecondTryAddsNothing(s1, clock, c);
      } else {
        AddOther(s1, clock, c, id);
      }
    }
  }

  /** A failed join leaves the store alone. A join that succeeds returns the ids of the reply and of
      the bootstrap peer that are stored at the end, no others; and these are all it added. */
  lemma JoinExact(s: Store, clock: Clock, client: Client, host: string, port: int, peer: Peer,
                  id: Option<Bytes>, token: string)
    requires StoreOk(s)
    ensures var (s', r) := JoinStore(s, clock, client, host, port, peer, id, token);
            var reply := Exchange(client, token, peer);
            && (r.Err? <==> reply.Err?)
            && (r.Err? ==> r.error == BootstrapError && s' == s)
            && (r.Ok? ==> IdSet(r.value) == (IdSet(reply.value) + BootstrapIds(id, port)) * s'.records.Keys)
            && (r.Ok? ==> s'.records.Keys == s.records.Keys + IdSet(r.value))
  {
    var reply := Exchange(client, token, peer);
    if reply.Ok? {
      var (s1, first) := StoreBootstrap(s, clock, id, host, port);
      var (s2, rest) := StoreAll(s1, clock, reply.value);
      IdSetConcat(first, rest);
      StoreBootstrapKeeps(s, clock, id, host, port);
      StoreBootstrapExact(s, clock, id, host, port);
      StoreAllExact(s1, clock, reply.value);
      JoinedIds(s.records.Keys, s1.records.Keys, s2.records.Keys, BootstrapIds(id, port), IdSet(first),
                IdSet(reply.value), IdSet(rest));
    }
  }

  /** Two batches of ids, one after the other. */
  lemma JoinedIds(keys0: set<NodeId>, keys1: set<NodeId>, keys2: set<NodeId>, a: set<NodeId>, first: set<NodeId>,
                  b: set<NodeId>, rest: set<NodeId>)
    requires first == a * keys1 && keys1 == keys0 + first
    requires rest == b * keys2 && keys2 == keys1 + rest
    ensures first + rest == (b + a) * keys2 && keys2 == keys0 + (first + rest)
  {
  }

  /** The returned ids are those of the reply and of the given bootstrap id that are stored at the
      end, except exactly when a bootstrap peer that was known before is named with a bad port and
      does not occur in the reply: it is stored but not returned. */
  lemma JoinReturnsBootstrapExactlyWhen(s: Store, clock: Clock, client: Client, host: string, port: int, peer: Peer,
                                        id: NodeId, token: string)
    requires StoreOk(s)
    ensures var (s', r) := JoinStore(s, clock, client, host, port, peer, Some(id), token);
            var reply := Exchange(client, token, peer);
            r.Ok? ==>
              (IdSet(r.value) == (IdSet(reply.value) + {id}) * s'.records.Keys
               <==> (0 < port <= 65535 || id !in s.records || id in IdSet(reply.value)))
  {
    JoinExact(s, clock, client, host, port, peer, Some(id), token);
    var (s', r) := JoinStore(s, clock, client, host, port, peer, Some(id), token);
    if r.Ok? {
      ReturnedIds(s.records.Keys, s'.records.Keys, IdSet(Exchange(client, token, peer).value),
                  IdSet(r.value), BootstrapIds(Some(id), port), id);
    }
  }

  /** A join that succeeds, with a known peer, port 0 and an empty reply: the peer stays stored and is not
      returned. */
  lemma JoinForgetsKnownPeer(local: NodeId, id: NodeId, k: nat, clock: Clock, host: string)
    requires id != local && k >= 1
    ensures var s := StoreAdd(EmptyStore(local, k, 0), clock, id, host, 1).0;
            var client := Client(ToHex(local), ToHex(local), Handler(ToHex(local), 1));
            var peer := Answer(Handler("b", 1), EmptyTable(id, 0));
            var (s', r) := JoinStore(s, clock, client, host, 0, peer, Some(id), "t");
            r == Ok([]) && s' == s && id in s'.records
  {
    var client := Client(ToHex(local), ToHex(local), Handler(ToHex(local), 1));
    EmptyExchange(local, id);
    OneKnownPeer(local, id, k, clock, host);
    JoinWithBadPort(StoreAdd(EmptyStore(local, k, 0), clock, id, host, 1).0, clock, client, host,
                    Answer(Handler("b", 1), EmptyTable(id, 0)), id, "t");
  }

  lemma OneKnownPeer(local: NodeId, id: NodeId, k: nat, clock: Clock, host: string)
    requires id != local && k >= 1
    ensures id in StoreAdd(EmptyStore(local, k, 0), clock, id, host, 1).0.records
  {
    EmptyStoreOk(local, k, 0);
    AddOrUpdateEffect(EmptyStore(local, k, 0), clock, id, host, 1);
  }

  /** An empty reply and a port that makes no contact leave the store as it is. */
  lemma JoinWithBadPort(s: Store, clock: Clock, client: Client, host: string, peer: Peer, id: NodeId, token: string)
    requires |s.table.buckets| == ID_BITS && Exchange(client, token, peer) == Ok([])
    ensures JoinStore(s, clock, client, host, 0, peer, Some(id), token) == (s, Ok([]))
  {
    var none: seq<Contact> := [];
    assert none + none == none;
    assert StoreAdd(s, clock, id, host, 0) == (s, Err(ValueError));
    assert StoreBootstrap(s, clock, Some(id), host, 0) == (s, none);
    assert StoreAll(s, clock, none) == (s, none);
  }

  /** The exchange of a joining node with a peer that knows nobody. */
  lemma EmptyExchange(local: NodeId, id: NodeId)
    ensures var client := Client(ToHex(local), ToHex(local), Handler(ToHex(local), 1));
            Exchange(client, "t", Answer(Handler("b", 1), EmptyTable(id, 0))) == Ok([])
  {
    var h := Handler(ToHex(local), 1);
    HexRoundTrip(local);
    EmptyTableHasNone(id);
    HonestPing(h.localHex, "t", Handler("b", 1), EmptyTable(id, 0));
    RemoteLookupIsLocal(h, Handler("b", 1), EmptyTable(id, 0), h.localHex, local);
  }

  lemma EmptyTableHasNone(id: NodeId)
    ensures AllContacts(EmptyTable(id, 0)) == []
  {
    NoContacts(EmptyTable(id, 0).buckets, ID_BITS);
  }

  lemma ReturnedIds(before: set<NodeId>, after: set<NodeId>, reply: set<NodeId>, returned: set<NodeId>,
                    bootstrap: set<NodeId>, id: NodeId)
    requires returned == (reply + bootstrap) * after && after == before + returned
    requires bootstrap == {} || bootstrap == {id}
    ensures returned == (reply + {id}) * after <==> (bootstrap == {id} || id !in before || id in reply)
  {
    assert id in returned <==> id in reply + bootstrap && id in after;
    assert id in (reply + {id}) * after <==> id in after;
  }

  // ---------------------------------------------------------------------------
  // The client object
  // ---------------------------------------------------------------------------

  class BootstrapClient {
    const client: Client
    const store: PeerStore

    constructor (client: Client, store: PeerStore)
      ensures this.client == client && this.store == store
    {
      this.client := client;
      this.store := store;
    }

    /** The checked construction: an empty local id is an error. */
    static method Create(client: Client, store: PeerStore) returns (r: Result<BootstrapClient>)
      ensures r.Ok? <==> client.localHex != ""
      ensures r.Ok? ==> r.value.client == client && r.value.store == store
    {
      if client.localHex == "" {
        return Err(ValueError);
      }
      var made := new BootstrapClient(client, store);
      return Ok(made);
    }

    method Join(host: string, port: int, peer: Peer, id: Option<Bytes>, token: string)
      returns (r: Result<seq<Contact>>)
      requires store.Valid() && StoreOk(store.State())
      modifies store, store.time, store.table.buckets, store.records.Values
      ensures store.Valid()
      ensures (store.State(), r) == JoinStore(old(store.State()), store.time.reading, client, host, port, peer, id, token)
    {
      if !PingSucceeds(client.pingHex, token, peer) {
        return Err(BootstrapError);
      }
      var request := BuildFindNode(client.handler, client.localHex);
      if request.Err? {
        return Err(BootstrapError);
      }
      var contacts := ParseFoundNodes(client.handler, peer(request.value), client.localHex);
      if contacts.Err? {
        return Err(BootstrapError);
      }
      var first := StorePeer(id, host, port);
      var rest := StoreReply(contacts.value);
      return Ok(first + rest);
    }

    /** Step 3: the bootstrap peer, returned as the table now holds it. */
    method StorePeer(id: Option<Bytes>, host: string, port: int) returns (stored: seq<Contact>)
      requires store.Valid() && StoreOk(store.State())
      modifies store, store.time, store.table.buckets, store.records.Values
      ensures store.Valid() && store.table == old(store.table)
      ensures forall x :: x in store.records.Values ==> x in old(store.records.Values) || fresh(x)
      ensures (store.State(), stored) == StoreBootstrap(old(store.State()), store.time.reading, id, host, port)
    {
      stored := [];
      if id.Some? {
        AddedIsFound(store.State(), store.time.reading, id.value, host, port);
        var accepted := store.AddOrUpdate(id.value, host, port);
        if accepted == Ok(true) {
          var found := store.table.GetContact(id.value);
          stored := [found.value];
        }
      }
    }

    /** Step 4: the contacts of the reply. */
    method StoreReply(cs: seq<Contact>) returns (stored: seq<Contact>)
      requires store.Valid()
      modifies store, store.time, store.table.buckets, store.records.Values
      ensures store.Valid()
      ensures (store.State(), stored) == StoreAll(old(store.State()), store.time.reading, cs)
    {
      stored := [];
      for i := 0 to |cs|
        invariant store.Valid() && store.table == old(store.table)
        invariant forall x :: x in store.records.Values ==> x in old(store.records.Values) || fresh(x)
        invariant (store.State(), stored) == StoreAll(old(store.State()), store.time.reading, cs[..i])
      {
        assert cs[..i + 1][..i] == cs[..i];
        var accepted := store.AddOrUpdate(cs[i].id, cs[i].host, cs[i].port);
        if accepted == Ok(true) {
          stored := stored + [cs[i]];
        }
      }
      assert cs[..|cs|] == cs;
    }
  }
}
