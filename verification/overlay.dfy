/** Whole runs: one store under any sequence of operations, and a network of honest nodes. */
module Overlay {
  import opened Wrappers
  import opened NodeIds
  import opened RoutingTables
  import opened Lookups
  import opened PeerStores
  import opened Rpc
  import opened Bootstrap
  import opened Discovery

  // ---------------------------------------------------------------------------
  // Runs of one store
  // ---------------------------------------------------------------------------

  datatype Op =
    | OpAdd(id: Bytes, host: string, port: int)
    | OpRemove(id: Bytes)
    | OpClear
    | OpJoin(client: Client, host: string, port: int, peer: Peer, bootstrap: Option<Bytes>, token: string)
    | OpDiscover(localHex: string, handler: Handler, seeds: seq<Seed>)

  function Apply(s: Store, clock: Clock, op: Op): (s': Store)
    requires |s.table.buckets| == ID_BITS
    ensures |s'.table.buckets| == ID_BITS
  {
    match op
    case OpAdd(id, host, port) => StoreAdd(s, clock, id, host, port).0
    case OpRemove(id) => StoreRemove(s, id).0
    case OpClear => StoreClear(s)
    case OpJoin(client, host, port, peer, bootstrap, token) =>
      JoinStore(s, clock, client, host, port, peer, bootstrap, token).0
    case OpDiscover(localHex, handler, seeds) => DiscoverStore(s, clock, localHex, handler, seeds).store
  }

  function Run(s: Store, clock: Clock, ops: seq<Op>): (s': Store)
    requires |s.table.buckets| == ID_BITS
    ensures |s'.table.buckets| == ID_BITS
  {
    if ops == [] then s else Apply(Run(s, clock, ops[..|ops| - 1]), clock, ops[|ops| - 1])
  }

  lemma ApplyKeeps(s: Store, clock: Clock, op: Op)
    requires StoreOk(s)
    ensures var s' := Apply(s, clock, op);
            && StoreOk(s')
            && s'.table.local == s.table.local && s'.table.k == s.table.k
            && (NonDecreasing(clock) && AgeOk(s, clock) ==> AgeOk(s', clock))
            && (!op.OpRemove? && !op.OpClear? ==> Grows(s, s'))
  {
    match op
    case OpAdd(id, host, port) =>
      AddOrUpdateKeeps(s, clock, id, host, port);
    case OpRemove(id) =>
      RemoveEffect(s, id);
      RemoveKeepsAge(s, clock, id);
    case OpClear =>
      EmptyStoreOk(s.table.local, s.table.k, s.tick);
    case OpJoin(client, host, port, peer, bootstrap, token) =>
      JoinKeeps(s, clock, client, host, port, peer, bootstrap, token);
    case OpDiscover(localHex, handler, seeds) =>
      DiscoverKeeps(s, clock, localHex, handler, seeds);
  }

  lemma {:induction false} RunKeeps(s: Store, clock: Clock, ops: seq<Op>)
    requires StoreOk(s)
    ensures var s' := Run(s, clock, ops);
            && StoreOk(s')
            && s'.table.local == s.table.local && s'.table.k == s.table.k
            && (NonDecreasing(clock) && AgeOk(s, clock) ==> AgeOk(s', clock))
  {
    if ops != [] {
      RunKeeps(s, clock, ops[..|ops| - 1]);
      ApplyKeeps(Run(s, clock, ops[..|ops| - 1]), clock, ops[|ops| - 1]);
    }
  }

  /** On every run from an empty store, whatever the peers reply and the clock shows: the contacts
      in the buckets are exactly those of the records, each id once, each in its own bucket, no
      bucket over its size, the local id never; and refreshing a known peer is never refused. */
  lemma ReachableStoreAgrees(local: NodeId, k: int, clock: Clock, ops: seq<Op>)
    ensures var s := Run(EmptyStore(local, k, 0), clock, ops);
            && (forall c :: c in AllContacts(s.table) <==> c.id in s.records && s.records[c.id].contact == c)
            && DistinctIds(AllContacts(s.table))
            && |AllContacts(s.table)| == |s.records|
            && (forall j :: 0 <= j < ID_BITS ==> |s.table.buckets[j]| <= Max(k, 0))
            && (forall j, c :: 0 <= j < ID_BITS && c in s.table.buckets[j] ==> c.id != local && Slot(local, c.id) == j)
            && local !in s.records
            && (forall c: Contact :: c.id in s.records ==> TableAdd(s.table, c).1 == Ok(true))
  {
    var s := Run(EmptyStore(local, k, 0), clock, ops);
    EmptyStoreOk(local, k, 0);
    RunKeeps(EmptyStore(local, k, 0), clock, ops);
    assert forall j :: 0 <= j < ID_BITS ==> BucketOk(local, k, j, s.table.buckets[j]);
    forall c
      ensures c in AllContacts(s.table) <==> c.id in s.records && s.records[c.id].contact == c
    {
      AllContactsMember(s.table, c);
    }
    FlattenDistinct(s.table, ID_BITS);
    CountContacts(AllContacts(s.table), s.records);
    forall c: Contact | c.id in s.records
      ensures c.id != local && TableAdd(s.table, c).1 == Ok(true)
    {
      KnownIsAccepted(s, c);
    }
    assert forall id :: id in s.records ==> Stored(s.table, s.records[id].contact);
  }

  lemma CountContacts(cs: seq<Contact>, records: map<NodeId, Record>)
    requires DistinctIds(cs)
    requires forall c :: c in cs <==> c.id in records && records[c.id].contact == c
    requires forall id :: id in records ==> records[id].contact.id == id
    ensures |cs| == |records|
  {
    CountIds(cs);
    forall id
      ensures id in IdSet(cs) <==> id in records.Keys
    {
      if id in records {
        assert records[id].contact in cs;
      }
    }
    assert IdSet(cs) == records.Keys;
  }

  lemma {:induction false} CountIds(cs: seq<Contact>)
    requires DistinctIds(cs)
    ensures |IdSet(cs)| == |cs|
  {
    if cs != [] {
      var front, c := cs[..|cs| - 1], cs[|cs| - 1];
      assert cs == front + [c];
      IdSetAppend(front, c);
      CountIds(front);
    }
  }

  /** With a clock that never goes back, every bucket of every reachable store lists its peers in the
      order they were last seen, so the head is a least recently seen one. */
  lemma ReachableStoreInAgeOrder(local: NodeId, k: int, clock: Clock, ops: seq<Op>, j: nat)
    requires NonDecreasing(clock) && j < ID_BITS
    ensures var s := Run(EmptyStore(local, k, 0), clock, ops);
            var b := s.table.buckets[j];
            && RisesAlong(b, s.records)
            && HeadIsOldest(b, s.records)
            && (forall id :: id in s.records ==> s.records[id].firstSeen <= s.records[id].lastSeen)
  {
    var s := Run(EmptyStore(local, k, 0), clock, ops);
    EmptyStoreOk(local, k, 0);
    EmptyStoreAge(local, k, 0, clock);
    RunKeeps(EmptyStore(local, k, 0), clock, ops);
    assert AgeOk(s, clock);
    RisingHeadIsOldest(s.table.buckets[j], s.records);
  }

  ghost predicate HeadIsOldest(b: seq<Contact>, records: map<NodeId, Record>) {
    forall c :: c in b ==>
                  && b[0].id in records && c.id in records
                  && records[b[0].id].lastSeen <= records[c.id].lastSeen
  }

  lemma RisingHeadIsOldest(b: seq<Contact>, records: map<NodeId, Record>)
    requires RisesAlong(b, records)
    ensures HeadIsOldest(b, records)
  {
  }

  /** Without a removal or a clear, no peer that was ever admitted is lost, its first-seen time stands,
      and a full bucket keeps exactly its members. */
  lemma {:induction false} NoEviction(s: Store, clock: Clock, ops: seq<Op>)
    requires StoreOk(s)
    requires forall i :: 0 <= i < |ops| ==> !ops[i].OpRemove? && !ops[i].OpClear?
    ensures Grows(s, Run(s, clock, ops))
  {
    if ops != [] {
      var front := ops[..|ops| - 1];
      NoEviction(s, clock, front);
      RunKeeps(s, clock, front);
      ApplyKeeps(Run(s, clock, front), clock, ops[|ops| - 1]);
      GrowsTransitive(s, Run(s, clock, front), Run(s, clock, ops));
    }
  }

  /** What a requester makes of a reachable responder's answer: the min(k, n) peers on record nearest to
      the target, nearest first, with their recorded addresses; every other peer is farther. */
  lemma RemoteLookupFindsNearest(local: NodeId, k: int, clock: Clock, ops: seq<Op>,
                                 requester: Handler, responder: Handler, targetHex: string, target: NodeId)
    requires requester.Valid() && responder.Valid() && NodeIdFromHex(targetHex) == Ok(target)
    ensures var s := Run(EmptyStore(local, k, 0), clock, ops);
            var r := Ask(targetHex, requester, Answer(responder, s.table));
            var limit := if requester.k <= responder.k then requester.k else responder.k;
            && r.Ok?
            && |r.value| == (if limit <= |s.records| then limit else |s.records|)
            && (forall c :: c in r.value ==> c.id in s.records && s.records[c.id].contact == c)
            && (forall i, j :: 0 <= i < j < |r.value| ==> Distance(r.value[i].id, target) < Distance(r.value[j].id, target))
            && (forall id, c :: id in s.records && s.records[id].contact !in r.value && c in r.value ==>
                                  Distance(c.id, target) < Distance(id, target))
  {
    var s := Run(EmptyStore(local, k, 0), clock, ops);
    EmptyStoreOk(local, k, 0);
    RunKeeps(EmptyStore(local, k, 0), clock, ops);
    ReachableStoreAgrees(local, k, clock, ops);
    RemoteLookupIsLocal(requester, responder, s.table, targetHex, target);
    FindClosestIsNearest(s.table, if requester.k <= responder.k then requester.k else responder.k, target);
    assert forall id :: id in s.records ==> s.records[id].contact in AllContacts(s.table);
  }

  // ---------------------------------------------------------------------------
  // A network of honest nodes
  // ---------------------------------------------------------------------------

  datatype Node = Node(handler: Handler, store: Store)

  type Net = map<string, Node>

  /** What a caller can do at a node; `via` names the node that a transport reaches, if any. */
  datatype Step =
    | Introduce(at: string, id: Bytes, host: string, port: int)
    | JoinVia(at: string, client: Client, host: string, port: int, bootstrap: Option<Bytes>, token: string, via: Option<string>)
    | DiscoverVia(at: string, localHex: string, handler: Handler, seeds: seq<(Contact, Option<string>)>)
    | Forget(at: string, id: Bytes)
    | Wipe(at: string)

  predicate StepOk(step: Step) {
    match step
    case JoinVia(_, client, _, _, _, _, _) => client.handler.Valid()
    case DiscoverVia(_, _, handler, _) => handler.Valid()
    case _ => true
  }

  /** Whom a transport reaches while node `at` has store s: nobody, itself, or another node. */
  function PeerVia(net: Net, at: string, s: Store, via: Option<string>): Peer
    requires at in net
  {
    if via.None? || via.value !in net then ((m: Message) => NoReply)
    else if via.value == at then Answer(net[at].handler, s.table)
    else Answer(net[via.value].handler, net[via.value].store.table)
  }

  /** The seeds with their behaviour at the time each is asked. */
  function SeedsVia(net: Net, at: string, clock: Clock, localHex: string, h: Handler,
                    seeds: seq<(Contact, Option<string>)>): seq<Seed>
    requires at in net && |net[at].store.table.buckets| == ID_BITS
  {
    if seeds == [] then []
    else
      var front := SeedsVia(net, at, clock, localHex, h, seeds[..|seeds| - 1]);
      var (c, via) := seeds[|seeds| - 1];
      front + [Seed(c, PeerVia(net, at, DiscoverStore(net[at].store, clock, localHex, h, front).store, via))]
  }

  ghost predicate BucketsOk(net: Net) {
    forall n :: n in net ==> |net[n].store.table.buckets| == ID_BITS
  }

  /** The operation that a step performs on the store of its node. */
  function OpOf(net: Net, clock: Clock, step: Step): Op
    requires BucketsOk(net) && step.at in net
  {
    match step
    case Introduce(_, id, host, port) => OpAdd(id, host, port)
    case JoinVia(at, client, host, port, id, token, via) =>
      OpJoin(client, host, port, PeerVia(net, at, net[at].store, via), id, token)
    case DiscoverVia(at, localHex, h, seeds) => OpDiscover(localHex, h, SeedsVia(net, at, clock, localHex, h, seeds))
    case Forget(_, id) => OpRemove(id)
    case Wipe(_) => OpClear
  }

  function ApplyStep(net: Net, clock: Clock, step: Step): (net': Net)
    requires BucketsOk(net)
    ensures BucketsOk(net')
  {
    if step.at !in net then net
    else net[step.at := net[step.at].(store := Apply(net[step.at].store, clock, OpOf(net, clock, step)))]
  }

  function RunNet(net: Net, clock: Clock, steps: seq<Step>): (net': Net)
    requires BucketsOk(net)
    ensures BucketsOk(net')
  {
    if steps == [] then net else ApplyStep(RunNet(net, clock, steps[..|steps| - 1]), clock, steps[|steps| - 1])
  }

  /** The contacts that a caller names in a step, read off the step alone. */
  function NamedBy(step: Step): set<Contact> {
    match step
    case Introduce(_, id, host, port) => Named(Some(id), host, port)
    case JoinVia(_, _, host, port, id, _, _) => Named(id, host, port)
    case DiscoverVia(_, _, _, seeds) => set seed | seed in seeds :: seed.0
    case _ => {}
  }

  function Named(id: Option<Bytes>, host: string, port: int): set<Contact> {
    if id.Some? && MakeContact(id.value, host, port).Ok? then {MakeContact(id.value, host, port).value} else {}
  }

  function NamedIn(steps: seq<Step>): set<Contact> {
    if steps == [] then {} else NamedIn(steps[..|steps| - 1]) + NamedBy(steps[|steps| - 1])
  }

  // ---------------------------------------------------------------------------
  // Nothing is fabricated
  // ---------------------------------------------------------------------------

  /** Every stored contact is among the given ones. */
  ghost predicate From(s: Store, known: set<Contact>) {
    forall id :: id in s.records ==> s.records[id].contact in known
  }

  ghost predicate AllIn(cs: seq<Contact>, known: set<Contact>) {
    forall c :: c in cs ==> c in known
  }

  ghost predicate NetFrom(net: Net, known: set<Contact>) {
    forall n :: n in net ==> net[n].handler.Valid() && StoreOk(net[n].store) && From(net[n].store, known)
  }

  lemma AddFrom(s: Store, clock: Clock, id: Bytes, host: string, port: int, known: set<Contact>)
    requires StoreOk(s) && From(s, known) && Named(Some(id), host, port) <= known
    ensures From(StoreAdd(s, clock, id, host, port).0, known)
  {
    var (s', r) := StoreAdd(s, clock, id, host, port);
    AddOrUpdateEffect(s, clock, id, host, port);
    if r == Ok(true) {
      forall x | x in s'.records && x != id
        ensures s'.records[x].contact in known
      {
        assert x in s'.records - {id};
      }
    }
  }

  lemma {:induction false} StoreAllFrom(s: Store, clock: Clock, cs: seq<Contact>, known: set<Contact>)
    requires StoreOk(s) && From(s, known) && AllIn(cs, known)
    ensures From(StoreAll(s, clock, cs).0, known)
  {
    if cs != [] {
      var front, c := cs[..|cs| - 1], cs[|cs| - 1];
      assert AllIn(front, known);
      StoreAllFrom(s, clock, front, known);
      StoreAllKeeps(s, clock, front);
      AddFrom(StoreAll(s, clock, front).0, clock, c.id, c.host, c.port, known);
    }
  }

  lemma {:induction false} AbsorbFrom(r: Round, clock: Clock, localHex: string, cs: seq<Contact>, known: set<Contact>)
    requires StoreOk(r.store) && From(r.store, known) && AllIn(cs, known)
    ensures From(Absorb(r, clock, localHex, cs).store, known)
  {
    if cs != [] {
      var front, c := cs[..|cs| - 1], cs[|cs| - 1];
      assert AllIn(front, known);
      AbsorbFrom(r, clock, localHex, front, known);
      AbsorbKeeps(r, clock, localHex, front);
      AddFrom(Absorb(r, clock, localHex, front).store, clock, c.id, c.host, c.port, known);
    }
  }

  /** What an honest peer is understood to say comes from its own store. */
  lemma HonestReplyFrom(requester: Handler, localHex: string, responder: Handler, s: Store, known: set<Contact>)
    requires requester.Valid() && responder.Valid() && StoreOk(s) && From(s, known)
    ensures var reply := Ask(localHex, requester, Answer(responder, s.table));
            reply.Ok? ==> AllIn(reply.value, known)
  {
    var reply := Ask(localHex, requester, Answer(responder, s.table));
    if reply.Ok? {
      var target := NodeIdFromHex(localHex).value;
      RemoteLookupIsLocal(requester, responder, s.table, localHex, target);
      forall c | c in reply.value
        ensures c in known
      {
        assert c in FullOrder(s.table, target);
        FullOrderStrict(s.table, target);
        AllContactsMember(s.table, c);
        assert Stored(s.table, c);
      }
    }
  }

  lemma PeerViaFrom(net: Net, at: string, s: Store, via: Option<string>, h: Handler, localHex: string, known: set<Contact>)
    requires at in net && NetFrom(net, known) && h.Valid() && StoreOk(s) && From(s, known)
    ensures var reply := Ask(localHex, h, PeerVia(net, at, s, via));
            reply.Ok? ==> AllIn(reply.value, known)
  {
    if via.Some? && via.value in net {
      var n := via.value;
      HonestReplyFrom(h, localHex, net[n].handler, if n == at then s else net[n].store, known);
    }
  }

  lemma JoinFrom(net: Net, at: string, clock: Clock, client: Client, host: string, port: int, id: Option<Bytes>,
                 token: string, via: Option<string>, known: set<Contact>)
    requires at in net && NetFrom(net, known) && client.handler.Valid() && Named(id, host, port) <= known
    ensures From(JoinStore(net[at].store, clock, client, host, port, PeerVia(net, at, net[at].store, via), id, token).0, known)
  {
    var s, peer := net[at].store, PeerVia(net, at, net[at].store, via);
    var reply := Exchange(client, token, peer);
    if reply.Ok? {
      assert Ask(client.localHex, client.handler, peer) == reply;
      PeerViaFrom(net, at, s, via, client.handler, client.localHex, known);
      if id.Some? {
        AddFrom(s, clock, id.value, host, port, known);
      }
      StoreBootstrapKeeps(s, clock, id, host, port);
      StoreAllFrom(StoreBootstrap(s, clock, id, host, port).0, clock, reply.value, known);
    }
  }

  lemma AskSeedFrom(r: Round, clock: Clock, localHex: string, h: Handler, seed: Seed, known: set<Contact>)
    requires StoreOk(r.store) && From(r.store, known) && seed.contact in known
    requires Ask(localHex, h, seed.peer).Ok? ==> AllIn(Ask(localHex, h, seed.peer).value, known)
    ensures From(AskSeed(r, clock, localHex, h, seed).store, known)
  {
    var reply := Ask(localHex, h, seed.peer);
    if reply.Ok? {
      var c := seed.contact;
      AddFrom(r.store, clock, c.id, c.host, c.port, known);
      RefreshSeedKeeps(r.store, clock, localHex, c);
      AbsorbFrom(r.(store := RefreshSeed(r.store, clock, localHex, c)), clock, localHex, reply.value, known);
    }
  }

  lemma {:induction false} DiscoverFrom(net: Net, at: string, clock: Clock, localHex: string, h: Handler,
                                        seeds: seq<(Contact, Option<string>)>, known: set<Contact>)
    requires at in net && NetFrom(net, known) && h.Valid()
    requires forall i :: 0 <= i < |seeds| ==> seeds[i].0 in known
    ensures From(DiscoverStore(net[at].store, clock, localHex, h, SeedsVia(net, at, clock, localHex, h, seeds)).store, known)
  {
    if seeds != [] {
      var before := seeds[..|seeds| - 1];
      var front := SeedsVia(net, at, clock, localHex, h, before);
      var all := SeedsVia(net, at, clock, localHex, h, seeds);
      assert all[..|all| - 1] == front;
      DiscoverFrom(net, at, clock, localHex, h, before, known);
      DiscoverKeeps(net[at].store, clock, localHex, h, front);
      var r := DiscoverStore(net[at].store, clock, localHex, h, front);
      PeerViaFrom(net, at, r.store, seeds[|seeds| - 1].1, h, localHex, known);
      AskSeedFrom(r, clock, localHex, h, all[|all| - 1], known);
    }
  }

  lemma OpFrom(net: Net, clock: Clock, step: Step, known: set<Contact>)
    requires NetFrom(net, known) && StepOk(step) && NamedBy(step) <= known && BucketsOk(net) && step.at in net
    ensures From(Apply(net[step.at].store, clock, OpOf(net, clock, step)), known)
  {
    var s := net[step.at].store;
    match step
    case Introduce(_, id, host, port) =>
      AddFrom(s, clock, id, host, port, known);
    case JoinVia(at, client, host, port, id, token, via) =>
      JoinFrom(net, at, clock, client, host, port, id, token, via, known);
    case DiscoverVia(at, localHex, h, seeds) =>
      assert forall i :: 0 <= i < |seeds| ==> seeds[i] in seeds;
      DiscoverFrom(net, at, clock, localHex, h, seeds, known);
    case Forget(_, id) =>
      RemoveEffect(s, id);
    case Wipe(_) =>
  }

  lemma StepFrom(net: Net, clock: Clock, step: Step, known: set<Contact>)
    requires NetFrom(net, known) && StepOk(step) && NamedBy(step) <= known && BucketsOk(net)
    ensures NetFrom(ApplyStep(net, clock, step), known)
  {
    if step.at in net {
      OpFrom(net, clock, step, known);
      ApplyKeeps(net[step.at].store, clock, OpOf(net, clock, step));
    }
  }

  lemma NetFromWider(net: Net, known: set<Contact>, more: set<Contact>)
    requires NetFrom(net, known) && known <= more
    ensures NetFrom(net, more)
  {
  }

  /** In any run of any number of honest nodes, over transports that may fail at will and may even
      lead a node back to itself, every contact in any store is one that some caller named: introduced
      directly, as a bootstrap peer, or as a seed. Id, host and port are never altered or mixed. */
  lemma {:induction false} NothingIsFabricated(net: Net, clock: Clock, steps: seq<Step>)
    requires forall n :: n in net ==> net[n].handler.Valid() && StoreOk(net[n].store) && net[n].store.records == map[]
    requires forall i :: 0 <= i < |steps| ==> StepOk(steps[i])
    ensures BucketsOk(net) && NetFrom(RunNet(net, clock, steps), NamedIn(steps))
  {
    if steps != [] {
      var front, step := steps[..|steps| - 1], steps[|steps| - 1];
      NothingIsFabricated(net, clock, front);
      NetFromWider(RunNet(net, clock, front), NamedIn(front), NamedIn(steps));
      StepFrom(RunNet(net, clock, front), clock, step, NamedIn(steps));
    }
  }
}
