/** One round of peer discovery: FIND_NODE for the own id, fanned out over seed contacts. */
module Discovery {
  import opened Wrappers
  import opened NodeIds
  import opened RoutingTables
  import opened PeerStores
  import opened Rpc
  import opened Bootstrap

  /** A contact to query, and how that peer behaves when queried. */
  datatype Seed = Seed(contact: Contact, peer: Peer)

  /** The state of a round: the store, the contacts returned so far, and the ids added so far. */
  datatype Round = Round(store: Store, found: seq<Contact>, added: set<NodeId>)

  /** The exchange with one seed; every failure on the way is an error. */
  function Ask(localHex: string, h: Handler, peer: Peer): Result<seq<Contact>> {
    var request :- BuildFindNode(h, localHex);
    ParseFoundNodes(h, peer(request), localHex)
  }

  /** The exchange succeeds exactly if the request can be built and a good reply to it comes back. */
  lemma AskOkIff(localHex: string, h: Handler, peer: Peer)
    ensures Ask(localHex, h, peer).Ok? <==>
            h.localHex != "" && localHex != "" && GoodReply(peer(Message(FIND_NODE, h.localHex, None, Some(localHex), None)), localHex)
  {
    ParseOkIff(h, peer(Message(FIND_NODE, h.localHex, None, Some(localHex), None)), localHex);
  }

  /** A seed that responded is refreshed, unless it is the local node. */
  function RefreshSeed(s: Store, clock: Clock, localHex: string, c: Contact): (r: Store)
    requires |s.table.buckets| == ID_BITS
    ensures |r.table.buckets| == ID_BITS
  {
    if ToHex(c.id) != localHex then StoreAdd(s, clock, c.id, c.host, c.port).0 else s
  }

  function AbsorbOne(r: Round, clock: Clock, localHex: string, c: Contact): (r': Round)
    requires |r.store.table.buckets| == ID_BITS
    ensures |r'.store.table.buckets| == ID_BITS
  {
    if ToHex(c.id) == localHex || c.id in r.store.records || c.id in r.added then r
    else
      var (s, accepted) := StoreAdd(r.store, clock, c.id, c.host, c.port);
      if accepted == Ok(true) then Round(s, r.found + [c], r.added + {c.id})
      else Round(s, r.found, r.added)
  }

  function Absorb(r: Round, clock: Clock, localHex: string, cs: seq<Contact>): (r': Round)
    requires |r.store.table.buckets| == ID_BITS
    ensures |r'.store.table.buckets| == ID_BITS
  {
    if cs == [] then r else AbsorbOne(Absorb(r, clock, localHex, cs[..|cs| - 1]), clock, localHex, cs[|cs| - 1])
  }

  function AskSeed(r: Round, clock: Clock, localHex: string, h: Handler, seed: Seed): (r': Round)
    requires |r.store.table.buckets| == ID_BITS
    ensures |r'.store.table.buckets| == ID_BITS
  {
    var reply := Ask(localHex, h, seed.peer);
    if reply.Err? then r
    else
      Absorb(r.(store := RefreshSeed(r.store, clock, localHex, seed.contact)), clock, localHex, reply.value)
  }

  function DiscoverStore(s: Store, clock: Clock, localHex: string, h: Handler, seeds: seq<Seed>): (r: Round)
    requires |s.table.buckets| == ID_BITS
    ensures |r.store.table.buckets| == ID_BITS
  {
    if seeds == [] then Round(s, [], {})
    else AskSeed(DiscoverStore(s, clock, localHex, h, seeds[..|seeds| - 1]), clock, localHex, h, seeds[|seeds| - 1])
  }

  // ---------------------------------------------------------------------------
  // What every step keeps
  // ---------------------------------------------------------------------------

  lemma RefreshSeedKeeps(s: Store, clock: Clock, localHex: string, c: Contact)
    requires StoreOk(s)
    ensures var s' := RefreshSeed(s, clock, localHex, c);
            && StoreOk(s') && Grows(s, s')
            && (NonDecreasing(clock) && AgeOk(s, clock) ==> AgeOk(s', clock))
  {
    AddOrUpdateKeeps(s, clock, c.id, c.host, c.port);
  }

  lemma AbsorbOneKeeps(r: Round, clock: Clock, localHex: string, c: Contact)
    requires StoreOk(r.store)
    ensures var r' := AbsorbOne(r, clock, localHex, c);
            && StoreOk(r'.store) && Grows(r.store, r'.store)
            && (NonDecreasing(clock) && AgeOk(r.store, clock) ==> AgeOk(r'.store, clock))
  {
    AddOrUpdateKeeps(r.store, clock, c.id, c.host, c.port);
  }

  lemma {:induction false} AbsorbKeeps(r: Round, clock: Clock, localHex: string, cs: seq<Contact>)
    requires StoreOk(r.store)
    ensures var r' := Absorb(r, clock, localHex, cs);
            && StoreOk(r'.store) && Grows(r.store, r'.store)
            && (NonDecreasing(clock) && AgeOk(r.store, clock) ==> AgeOk(r'.store, clock))
  {
    if cs != [] {
      var front, c := cs[..|cs| - 1], cs[|cs| - 1];
      var r1 := Absorb(r, clock, localHex, front);
      AbsorbKeeps(r, clock, localHex, front);
      AbsorbOneKeeps(r1, clock, localHex, c);
      GrowsTransitive(r.store, r1.store, Absorb(r, clock, localHex, cs).store);
    }
  }

  lemma AskSeedKeeps(r: Round, clock: Clock, localHex: string, h: Handler, seed: Seed)
    requires StoreOk(r.store)
    ensures var r' := AskSeed(r, clock, localHex, h, seed);
            && StoreOk(r'.store) && Grows(r.store, r'.store)
            && (NonDecreasing(clock) && AgeOk(r.store, clock) ==> AgeOk(r'.store, clock))
  {
    var reply := Ask(localHex, h, seed.peer);
    if reply.Ok? {
      var r1 := r.(store := RefreshSeed(r.store, clock, localHex, seed.contact));
      RefreshSeedKeeps(r.store, clock, localHex, seed.contact);
      AbsorbKeeps(r1, clock, localHex, reply.value);
      GrowsTransitive(r.store, r1.store, AskSeed(r, clock, localHex, h, seed).store);
    }
  }

  /** A round keeps agreement and age order and evicts nobody, whatever the peers reply. */
  lemma {:induction false} DiscoverKeeps(s: Store, clock: Clock, localHex: string, h: Handler, seeds: seq<Seed>)
    requires StoreOk(s)
    ensures var r := DiscoverStore(s, clock, localHex, h, seeds);
            && StoreOk(r.store) && Grows(s, r.store)
            && (NonDecreasing(clock) && AgeOk(s, clock) ==> AgeOk(r.store, clock))
  {
    if seeds != [] {
      var front, seed := seeds[..|seeds| - 1], seeds[|seeds| - 1];
      var r1 := DiscoverStore(s, clock, localHex, h, front);
      DiscoverKeeps(s, clock, localHex, h, front);
      AskSeedKeeps(r1, clock, localHex, h, seed);
      GrowsTransitive(s, r1.store, DiscoverStore(s, clock, localHex, h, seeds).store);
    }
  }

  // ---------------------------------------------------------------------------
  // What a round accounts for
  // ---------------------------------------------------------------------------

  /** The seeds that were unknown when they responded and were accepted then. */
  function FreshSeeds(s: Store, clock: Clock, localHex: string, h: Handler, seeds: seq<Seed>): set<NodeId>
    requires |s.table.buckets| == ID_BITS
  {
    if seeds == [] then {}
    else
      var front, seed := seeds[..|seeds| - 1], seeds[|seeds| - 1];
      FreshSeeds(s, clock, localHex, h, front)
      + SeedIfNew(DiscoverStore(s, clock, localHex, h, front).store, localHex, h, seed)
  }

  /** A seed counts when it responds, is not the local node, is unknown, and its bucket has room. */
  function SeedIfNew(s: Store, localHex: string, h: Handler, seed: Seed): set<NodeId>
    requires |s.table.buckets| == ID_BITS
  {
    var id := seed.contact.id;
    if Ask(localHex, h, seed.peer).Ok? && ToHex(id) != localHex && id != s.table.local
       && id !in s.records && |BucketFor(s.table, id)| < s.table.k
    then {id} else {}
  }

  lemma RefreshSeedKeys(s: Store, clock: Clock, localHex: string, h: Handler, seed: Seed)
    requires StoreOk(s) && Ask(localHex, h, seed.peer).Ok?
    ensures RefreshSeed(s, clock, localHex, seed.contact).records.Keys
            == s.records.Keys + SeedIfNew(s, localHex, h, seed)
  {
    AddAddsNewId(s, clock, seed.contact);
  }

  /** The keys are the disjoint union of the initial ones, the fresh seeds and the returned ids. */
  ghost predicate Accounts(keys: set<NodeId>, seeded: set<NodeId>, r: Round) {
    && r.added == IdSet(r.found)
    && DistinctIds(r.found)
    && keys !! seeded !! r.added
    && r.store.records.Keys == keys + seeded + r.added
  }

  lemma AppendDistinct(s: seq<Contact>, c: Contact)
    requires DistinctIds(s) && c.id !in IdSet(s)
    ensures DistinctIds(s + [c]) && IdSet(s + [c]) == IdSet(s) + {c.id}
  {
    IdSetAppend(s, c);
    assert forall i :: 0 <= i < |s| ==> s[i] in s;
  }

  lemma AbsorbOneAccounts(keys: set<NodeId>, seeded: set<NodeId>, r: Round, clock: Clock, localHex: string, c: Contact)
    requires StoreOk(r.store) && Accounts(keys, seeded, r)
    ensures Accounts(keys, seeded, AbsorbOne(r, clock, localHex, c))
  {
    if c.id !in r.store.records {
      AppendDistinct(r.found, c);
      AddOrUpdateKeys(r.store, clock, c.id, c.host, c.port);
    }
  }

  lemma {:induction false} AbsorbAccounts(keys: set<NodeId>, seeded: set<NodeId>, r: Round, clock: Clock,
                                          localHex: string, cs: seq<Contact>)
    requires StoreOk(r.store) && Accounts(keys, seeded, r)
    ensures Accounts(keys, seeded, Absorb(r, clock, localHex, cs))
  {
    if cs != [] {
      AbsorbAccounts(keys, seeded, r, clock, localHex, cs[..|cs| - 1]);
      AbsorbKeeps(r, clock, localHex, cs[..|cs| - 1]);
      AbsorbOneAccounts(keys, seeded, Absorb(r, clock, localHex, cs[..|cs| - 1]), clock, localHex, cs[|cs| - 1]);
    }
  }

  lemma RefreshSeedAccounts(keys: set<NodeId>, seeded: set<NodeId>, r: Round, clock: Clock, localHex: string, h: Handler, seed: Seed)
    requires StoreOk(r.store) && Accounts(keys, seeded, r) && Ask(localHex, h, seed.peer).Ok?
    ensures Accounts(keys, seeded + SeedIfNew(r.store, localHex, h, seed),
                     r.(store := RefreshSeed(r.store, clock, localHex, seed.contact)))
  {
    RefreshSeedKeys(r.store, clock, localHex, h, seed);
  }

  lemma AskSeedAccounts(keys: set<NodeId>, seeded: set<NodeId>, r: Round, clock: Clock, localHex: string, h: Handler, seed: Seed)
    requires StoreOk(r.store) && Accounts(keys, seeded, r)
    ensures Accounts(keys, seeded + SeedIfNew(r.store, localHex, h, seed), AskSeed(r, clock, localHex, h, seed))
  {
    var reply := Ask(localHex, h, seed.peer);
    if reply.Ok? {
      var s' := RefreshSeed(r.store, clock, localHex, seed.contact);
      var more := SeedIfNew(r.store, localHex, h, seed);
      RefreshSeedKeeps(r.store, clock, localHex, seed.contact);
      RefreshSeedAccounts(keys, seeded, r, clock, localHex, h, seed);
      AbsorbAccounts(keys, seeded + more, r.(store := s'), clock, localHex, reply.value);
    } else {
      assert seeded + SeedIfNew(r.store, localHex, h, seed) == seeded;
    }
  }

  /** A round accounts exactly for the store: what it returns is new and listed once; the stored ids
      at the end are the initial ones, the freshly accepted responding seeds and the returned ones,
      with no overlap. */
  lemma {:induction false} DiscoverAccounts(s: Store, clock: Clock, localHex: string, h: Handler, seeds: seq<Seed>)
    requires StoreOk(s)
    ensures var r := DiscoverStore(s, clock, localHex, h, seeds);
            Accounts(s.records.Keys, FreshSeeds(s, clock, localHex, h, seeds), r)
  {
    if seeds != [] {
      var front, seed := seeds[..|seeds| - 1], seeds[|seeds| - 1];
      var r1 := DiscoverStore(s, clock, localHex, h, front);
      var seeded1 := FreshSeeds(s, clock, localHex, h, front);
      DiscoverAccounts(s, clock, localHex, h, front);
      DiscoverKeeps(s, clock, localHex, h, front);
      AskSeedAccounts(s.records.Keys, seeded1, r1, clock, localHex, h, seed);
    }
  }

  /** Fresh seeds are seeds that responded and are not the local node. */
  lemma {:induction false} FreshSeedsResponded(s: Store, clock: Clock, localHex: string, h: Handler, seeds: seq<Seed>, id: NodeId)
    requires |s.table.buckets| == ID_BITS && id in FreshSeeds(s, clock, localHex, h, seeds)
    ensures ToHex(id) != localHex
    ensures exists i :: 0 <= i < |seeds| && seeds[i].contact.id == id && Ask(localHex, h, seeds[i].peer).Ok?
  {
    var front, seed := seeds[..|seeds| - 1], seeds[|seeds| - 1];
    if id !in SeedIfNew(DiscoverStore(s, clock, localHex, h, front).store, localHex, h, seed) {
      FreshSeedsResponded(s, clock, localHex, h, front, id);
      var i :| 0 <= i < |front| && front[i].contact.id == id && Ask(localHex, h, front[i].peer).Ok?;
      assert seeds[i] == front[i];
    }
  }

  // ---------------------------------------------------------------------------
  // Nothing that was learned is passed over
  // ---------------------------------------------------------------------------

  /** An id has been dealt with: it is spelled like the local one, or the store holds it or has no room. */
  ghost predicate Placed(s: Store, localHex: string, id: NodeId)
    requires |s.table.buckets| == ID_BITS
  {
    ToHex(id) == localHex || Held(s, id)
  }

  lemma PlacedStays(s: Store, s': Store, localHex: string, id: NodeId)
    requires Grows(s, s') && Placed(s, localHex, id)
    ensures Placed(s', localHex, id)
  {
    if Held(s, id) {
      HeldStays(s, s', id);
    }
  }

  /** The ids counted as added are on record. */
  predicate AddedOk(r: Round) {
    r.added <= r.store.records.Keys
  }

  lemma AbsorbOnePlaces(r: Round, clock: Clock, localHex: string, c: Contact)
    requires StoreOk(r.store) && AddedOk(r)
    ensures Placed(AbsorbOne(r, clock, localHex, c).store, localHex, c.id)
    ensures AddedOk(AbsorbOne(r, clock, localHex, c))
  {
    AddOrUpdateEffect(r.store, clock, c.id, c.host, c.port);
  }

  lemma AbsorbOneKeepsPlaced(r: Round, clock: Clock, localHex: string, c: Contact, id: NodeId)
    requires StoreOk(r.store)
    ensures Placed(r.store, localHex, id) ==> Placed(AbsorbOne(r, clock, localHex, c).store, localHex, id)
  {
    AbsorbOneKeeps(r, clock, localHex, c);
    if Placed(r.store, localHex, id) {
      PlacedStays(r.store, AbsorbOne(r, clock, localHex, c).store, localHex, id);
    }
  }

  lemma AbsorbStaysOk(r: Round, clock: Clock, localHex: string, cs: seq<Contact>)
    requires StoreOk(r.store)
    ensures StoreOk(Absorb(r, clock, localHex, cs).store)
  {
    AbsorbKeeps(r, clock, localHex, cs);
  }

  lemma {:induction false} AbsorbAddedOk(r: Round, clock: Clock, localHex: string, cs: seq<Contact>)
    requires StoreOk(r.store) && AddedOk(r)
    ensures AddedOk(Absorb(r, clock, localHex, cs))
  {
    if cs != [] {
      AbsorbAddedOk(r, clock, localHex, cs[..|cs| - 1]);
      AbsorbStaysOk(r, clock, localHex, cs[..|cs| - 1]);
      AbsorbOnePlaces(Absorb(r, clock, localHex, cs[..|cs| - 1]), clock, localHex, cs[|cs| - 1]);
    }
  }

  lemma LastPlaces(r: Round, clock: Clock, localHex: string, front: seq<Contact>, c: Contact)
    requires StoreOk(r.store) && AddedOk(r)
    ensures Placed(AbsorbOne(Absorb(r, clock, localHex, front), clock, localHex, c).store, localHex, c.id)
  {
    AbsorbStaysOk(r, clock, localHex, front);
    AbsorbAddedOk(r, clock, localHex, front);
    AbsorbOnePlaces(Absorb(r, clock, localHex, front), clock, localHex, c);
  }

  lemma EarlierPlaces(r: Round, clock: Clock, localHex: string, front: seq<Contact>, c: Contact, id: NodeId)
    requires StoreOk(r.store) && Placed(Absorb(r, clock, localHex, front).store, localHex, id)
    ensures Placed(AbsorbOne(Absorb(r, clock, localHex, front), clock, localHex, c).store, localHex, id)
  {
    AbsorbStaysOk(r, clock, localHex, front);
    AbsorbOneKeepsPlaced(Absorb(r, clock, localHex, front), clock, localHex, c, id);
  }

  lemma {:induction false} AbsorbPlaces(r: Round, clock: Clock, localHex: string, cs: seq<Contact>, i: nat)
    requires StoreOk(r.store) && AddedOk(r) && i < |cs|
    ensures Placed(Absorb(r, clock, localHex, cs).store, localHex, cs[i].id)
  {
    var front, c := cs[..|cs| - 1], cs[|cs| - 1];
    if i < |front| {
      AbsorbPlaces(r, clock, localHex, front, i);
      EarlierPlaces(r, clock, localHex, front, c, front[i].id);
    } else {
      LastPlaces(r, clock, localHex, front, c);
    }
  }

  lemma {:induction false} AbsorbPrefix(r: Round, clock: Clock, localHex: string, cs: seq<Contact>, n: nat)
    requires StoreOk(r.store) && n <= |cs|
    ensures Grows(Absorb(r, clock, localHex, cs[..n]).store, Absorb(r, clock, localHex, cs).store)
    decreases |cs|
  {
    AbsorbStaysOk(r, clock, localHex, cs[..n]);
    if n == |cs| {
      assert cs[..n] == cs;
      GrowsSelf(Absorb(r, clock, localHex, cs).store);
    } else {
      var front, c := cs[..|cs| - 1], cs[|cs| - 1];
      assert front[..n] == cs[..n];
      AbsorbPrefix(r, clock, localHex, front, n);
      AbsorbStaysOk(r, clock, localHex, front);
      AbsorbOneKeeps(Absorb(r, clock, localHex, front), clock, localHex, c);
      GrowsTransitive(Absorb(r, clock, localHex, cs[..n]).store, Absorb(r, clock, localHex, front).store,
                      Absorb(r, clock, localHex, cs).store);
    }
  }

  lemma {:induction false} AbsorbAddsListed(r: Round, clock: Clock, localHex: string, cs: seq<Contact>)
    requires StoreOk(r.store)
    ensures Absorb(r, clock, localHex, cs).store.records.Keys <= r.store.records.Keys + IdSet(cs)
  {
    if cs != [] {
      var front, c := cs[..|cs| - 1], cs[|cs| - 1];
      assert cs == front + [c];
      IdSetAppend(front, c);
      AbsorbAddsListed(r, clock, localHex, front);
      AbsorbStaysOk(r, clock, localHex, front);
      AddOrUpdateKeys(Absorb(r, clock, localHex, front).store, clock, c.id, c.host, c.port);
    }
  }

  /** A reply is taken in its order: when a contact is left out for lack of room, every id of its bucket
      that is on record was there before or came earlier in the reply. */
  lemma AbsorbInOrder(r: Round, clock: Clock, localHex: string, cs: seq<Contact>, i: nat, x: NodeId)
    requires StoreOk(r.store) && AddedOk(r) && i < |cs| && ToHex(cs[i].id) != localHex
    requires cs[i].id != r.store.table.local && x != r.store.table.local
    requires Slot(r.store.table.local, cs[i].id) == Slot(r.store.table.local, x)
    ensures var s' := Absorb(r, clock, localHex, cs).store;
            cs[i].id !in s'.records && x in s'.records ==> x in r.store.records || x in IdSet(cs[..i])
  {
    AbsorbCloses(r, clock, localHex, cs, i, x);
    AbsorbPrefixAdds(r, clock, localHex, cs, i);
  }

  lemma AbsorbCloses(r: Round, clock: Clock, localHex: string, cs: seq<Contact>, i: nat, x: NodeId)
    requires StoreOk(r.store) && AddedOk(r) && i < |cs| && ToHex(cs[i].id) != localHex
    requires cs[i].id != r.store.table.local && x != r.store.table.local
    requires Slot(r.store.table.local, cs[i].id) == Slot(r.store.table.local, x)
    ensures var s' := Absorb(r, clock, localHex, cs).store;
            cs[i].id !in s'.records && x in s'.records ==> x in Absorb(r, clock, localHex, cs[..i + 1]).store.records
  {
    var some, s' := cs[..i + 1], Absorb(r, clock, localHex, cs).store;
    AbsorbKeeps(r, clock, localHex, some);
    AbsorbStaysOk(r, clock, localHex, cs);
    AbsorbPrefix(r, clock, localHex, cs, i + 1);
    AbsorbPlaces(r, clock, localHex, some, i);
    if cs[i].id !in s'.records {
      FullStaysClosed(Absorb(r, clock, localHex, some).store, s', cs[i].id, x);
    }
  }

  lemma AbsorbPrefixAdds(r: Round, clock: Clock, localHex: string, cs: seq<Contact>, i: nat)
    requires StoreOk(r.store) && i < |cs|
    ensures Absorb(r, clock, localHex, cs[..i + 1]).store.records.Keys <= r.store.records.Keys + IdSet(cs[..i]) + {cs[i].id}
  {
    assert cs[..i + 1] == cs[..i] + [cs[i]];
    IdSetAppend(cs[..i], cs[i]);
    AbsorbAddsListed(r, clock, localHex, cs[..i + 1]);
  }

  /** The same for a round with one seed, which itself comes before its reply. */
  lemma SeedBeforeItsReply(s: Store, clock: Clock, localHex: string, h: Handler, seed: Seed, i: nat, x: NodeId)
    requires StoreOk(s)
    ensures var s', reply := DiscoverStore(s, clock, localHex, h, [seed]).store, Ask(localHex, h, seed.peer);
            reply.Ok? && i < |reply.value| && ToHex(reply.value[i].id) != localHex
            && reply.value[i].id != s.table.local && x != s.table.local
            && Slot(s.table.local, reply.value[i].id) == Slot(s.table.local, x)
            && reply.value[i].id !in s'.records && x in s'.records ==>
              x in s.records || x == seed.contact.id || x in IdSet(reply.value[..i])
  {
    var reply := Ask(localHex, h, seed.peer);
    assert [seed][..0] == [];
    assert DiscoverStore(s, clock, localHex, h, []) == Round(s, [], {});
    if reply.Ok? && i < |reply.value| && ToHex(reply.value[i].id) != localHex
       && reply.value[i].id != s.table.local && x != s.table.local
       && Slot(s.table.local, reply.value[i].id) == Slot(s.table.local, x)
    {
      RefreshSeedKeeps(s, clock, localHex, seed.contact);
      RefreshSeedKeys(s, clock, localHex, h, seed);
      AbsorbInOrder(Round(RefreshSeed(s, clock, localHex, seed.contact), [], {}), clock, localHex, reply.value, i, x);
    }
  }

  lemma RefreshSeedPlaces(s: Store, clock: Clock, localHex: string, c: Contact)
    requires StoreOk(s)
    ensures Placed(RefreshSeed(s, clock, localHex, c), localHex, c.id)
  {
    AddOrUpdateEffect(s, clock, c.id, c.host, c.port);
  }

  /** The ids that one exchange teaches: the seed itself and the contacts of its reply. */
  function Learned(localHex: string, h: Handler, seed: Seed): set<NodeId> {
    var reply := Ask(localHex, h, seed.peer);
    if reply.Ok? then {seed.contact.id} + IdSet(reply.value) else {}
  }

  lemma AskSeedPlaces(r: Round, clock: Clock, localHex: string, h: Handler, seed: Seed, id: NodeId)
    requires StoreOk(r.store) && AddedOk(r) && id in Learned(localHex, h, seed)
    ensures Placed(AskSeed(r, clock, localHex, h, seed).store, localHex, id)
  {
    var reply := Ask(localHex, h, seed.peer);
    var r1 := r.(store := RefreshSeed(r.store, clock, localHex, seed.contact));
    RefreshSeedKeeps(r.store, clock, localHex, seed.contact);
    if id == seed.contact.id {
      RefreshSeedPlaces(r.store, clock, localHex, seed.contact);
      AbsorbKeeps(r1, clock, localHex, reply.value);
      PlacedStays(r1.store, Absorb(r1, clock, localHex, reply.value).store, localHex, id);
    } else {
      var c :| c in reply.value && c.id == id;
      var i :| 0 <= i < |reply.value| && reply.value[i] == c;
      AbsorbPlaces(r1, clock, localHex, reply.value, i);
    }
  }

  lemma AskSeedKeepsPlaced(r: Round, clock: Clock, localHex: string, h: Handler, seed: Seed, id: NodeId)
    requires StoreOk(r.store)
    ensures Placed(r.store, localHex, id) ==> Placed(AskSeed(r, clock, localHex, h, seed).store, localHex, id)
  {
    AskSeedKeeps(r, clock, localHex, h, seed);
    if Placed(r.store, localHex, id) {
      PlacedStays(r.store, AskSeed(r, clock, localHex, h, seed).store, localHex, id);
    }
  }

  lemma DiscoverStaysOk(s: Store, clock: Clock, localHex: string, h: Handler, seeds: seq<Seed>)
    requires StoreOk(s)
    ensures StoreOk(DiscoverStore(s, clock, localHex, h, seeds).store)
  {
    DiscoverKeeps(s, clock, localHex, h, seeds);
  }

  lemma DiscoverAddedOk(s: Store, clock: Clock, localHex: string, h: Handler, seeds: seq<Seed>)
    requires StoreOk(s)
    ensures AddedOk(DiscoverStore(s, clock, localHex, h, seeds))
  {
    DiscoverAccounts(s, clock, localHex, h, seeds);
  }

  lemma LastSeedPlaces(s: Store, clock: Clock, localHex: string, h: Handler, front: seq<Seed>, seed: Seed, id: NodeId)
    requires StoreOk(s) && id in Learned(localHex, h, seed)
    ensures Placed(AskSeed(DiscoverStore(s, clock, localHex, h, front), clock, localHex, h, seed).store, localHex, id)
  {
    DiscoverStaysOk(s, clock, localHex, h, front);
    DiscoverAddedOk(s, clock, localHex, h, front);
    AskSeedPlaces(DiscoverStore(s, clock, localHex, h, front), clock, localHex, h, seed, id);
  }

  lemma EarlierSeedPlaces(s: Store, clock: Clock, localHex: string, h: Handler, front: seq<Seed>, seed: Seed, id: NodeId)
    requires StoreOk(s) && Placed(DiscoverStore(s, clock, localHex, h, front).store, localHex, id)
    ensures Placed(AskSeed(DiscoverStore(s, clock, localHex, h, front), clock, localHex, h, seed).store, localHex, id)
  {
    DiscoverStaysOk(s, clock, localHex, h, front);
    AskSeedKeepsPlaced(DiscoverStore(s, clock, localHex, h, front), clock, localHex, h, seed, id);
  }

  /** After a round, every seed that responded and every contact of its reply is on record, unless it is
      the local node or its bucket is full. */
  lemma {:induction false} DiscoverPlaces(s: Store, clock: Clock, localHex: string, h: Handler, seeds: seq<Seed>, i: nat, id: NodeId)
    requires StoreOk(s) && i < |seeds| && id in Learned(localHex, h, seeds[i])
    ensures Placed(DiscoverStore(s, clock, localHex, h, seeds).store, localHex, id)
  {
    var front, seed := seeds[..|seeds| - 1], seeds[|seeds| - 1];
    if i < |front| {
      DiscoverPlaces(s, clock, localHex, h, front, i, id);
      EarlierSeedPlaces(s, clock, localHex, h, front, seed, id);
    } else {
      LastSeedPlaces(s, clock, localHex, h, front, seed, id);
    }
  }

  /** Known records are left as they are, and what is returned is recorded as it was sent. */
  ghost predicate FoundOnRecord(cs: seq<Contact>, r: Round, r': Round) {
    && (forall id :: id in r.store.records ==> id in r'.store.records && r'.store.records[id] == r.store.records[id])
    && (forall c :: c in r'.found ==>
          c in r.found || (c in cs && c.id in r'.store.records && r'.store.records[c.id].contact == c))
  }

  lemma NewRecordOnly(s: Store, clock: Clock, c: Contact)
    requires StoreOk(s) && c.id !in s.records
    ensures var (s', r) := StoreAdd(s, clock, c.id, c.host, c.port);
            && (forall id :: id in s.records ==> id in s'.records && s'.records[id] == s.records[id])
            && (r == Ok(true) ==> c.id in s'.records && s'.records[c.id].contact == c)
  {
    var s' := StoreAdd(s, clock, c.id, c.host, c.port).0;
    AddOrUpdateEffect(s, clock, c.id, c.host, c.port);
    forall id | id in s.records
      ensures id in s'.records && s'.records[id] == s.records[id]
    {
      assert id in s.records - {c.id};
    }
  }

  lemma AbsorbOneRecords(r: Round, clock: Clock, localHex: string, c: Contact)
    requires StoreOk(r.store)
    ensures FoundOnRecord([c], r, AbsorbOne(r, clock, localHex, c))
  {
    if c.id !in r.store.records {
      NewRecordOnly(r.store, clock, c);
    }
  }

  lemma {:induction false} AbsorbRecords(r: Round, clock: Clock, localHex: string, cs: seq<Contact>)
    requires StoreOk(r.store)
    ensures FoundOnRecord(cs, r, Absorb(r, clock, localHex, cs))
  {
    if cs != [] {
      var front, c := cs[..|cs| - 1], cs[|cs| - 1];
      assert cs == front + [c];
      AbsorbRecords(r, clock, localHex, front);
      AbsorbKeeps(r, clock, localHex, front);
      AbsorbOneRecords(Absorb(r, clock, localHex, front), clock, localHex, c);
    }
  }

  lemma RefreshSeedRecords(s: Store, clock: Clock, localHex: string, c: Contact)
    requires StoreOk(s) && ToHex(c.id) != localHex && c.id != s.table.local
    ensures c.id in s.records || |BucketFor(s.table, c.id)| < s.table.k ==>
              var s' := RefreshSeed(s, clock, localHex, c);
              c.id in s'.records &&
              s'.records[c.id] == (if c.id in s.records then Record(c, s.records[c.id].firstSeen, clock(s.tick))
                                   else Record(c, clock(s.tick), clock(s.tick + 1)))
  {
    var r, tick := AddContactShape(s, clock, c);
  }

  /** A seed that responds and is known or has room is recorded after its round with its own address, its
      first-seen time unless it had one, and a last-seen time read in the round; what the round returns
      comes from the reply and is recorded as it was sent. */
  lemma OneSeedRound(s: Store, clock: Clock, localHex: string, h: Handler, seed: Seed)
    requires StoreOk(s)
    ensures var r, c := DiscoverStore(s, clock, localHex, h, [seed]), seed.contact;
            var reply := Ask(localHex, h, seed.peer);
            && (reply.Ok? && ToHex(c.id) != localHex && c.id != s.table.local
                && (c.id in s.records || |BucketFor(s.table, c.id)| < s.table.k)
                ==> c.id in r.store.records &&
                    r.store.records[c.id] == (if c.id in s.records then Record(c, s.records[c.id].firstSeen, clock(s.tick))
                                              else Record(c, clock(s.tick), clock(s.tick + 1))))
            && (forall x :: x in r.found ==>
                  reply.Ok? && x in reply.value && x.id in r.store.records && r.store.records[x.id].contact == x)
  {
    var reply, c := Ask(localHex, h, seed.peer), seed.contact;
    assert [seed][..0] == [];
    assert DiscoverStore(s, clock, localHex, h, []) == Round(s, [], {});
    if reply.Ok? {
      var r1 := Round(RefreshSeed(s, clock, localHex, c), [], {});
      RefreshSeedKeeps(s, clock, localHex, c);
      AbsorbRecords(r1, clock, localHex, reply.value);
      assert DiscoverStore(s, clock, localHex, h, [seed]) == Absorb(r1, clock, localHex, reply.value);
      if ToHex(c.id) != localHex && c.id != s.table.local {
        RefreshSeedRecords(s, clock, localHex, c);
      }
    }
  }

  /** The first list can be had from the second by leaving entries out. */
  predicate Subsequence(a: seq<Contact>, b: seq<Contact>) {
    || a == []
    || (b != [] && (|| Subsequence(a, b[..|b| - 1])
                    || (a[|a| - 1] == b[|b| - 1] && Subsequence(a[..|a| - 1], b[..|b| - 1]))))
  }

  lemma {:induction false} AbsorbAppends(r: Round, clock: Clock, localHex: string, cs: seq<Contact>) returns (more: seq<Contact>)
    requires |r.store.table.buckets| == ID_BITS
    ensures Absorb(r, clock, localHex, cs).found == r.found + more && Subsequence(more, cs)
  {
    more := [];
    if cs != [] {
      var front, c := cs[..|cs| - 1], cs[|cs| - 1];
      var before := AbsorbAppends(r, clock, localHex, front);
      more := before;
      if Absorb(r, clock, localHex, cs).found != Absorb(r, clock, localHex, front).found {
        more := before + [c];
        assert more[..|more| - 1] == before;
        assert (r.found + before) + [c] == r.found + more;
      }
    }
  }

  /** What a round with one seed returns is in the order of the reply. */
  lemma OneSeedOrder(s: Store, clock: Clock, localHex: string, h: Handler, seed: Seed)
    requires |s.table.buckets| == ID_BITS
    ensures var r, reply := DiscoverStore(s, clock, localHex, h, [seed]), Ask(localHex, h, seed.peer);
            if reply.Ok? then Subsequence(r.found, reply.value) else r == Round(s, [], {})
  {
    var reply := Ask(localHex, h, seed.peer);
    assert [seed][..0] == [];
    assert DiscoverStore(s, clock, localHex, h, []) == Round(s, [], {});
    if reply.Ok? {
      var r1 := Round(RefreshSeed(s, clock, localHex, seed.contact), [], {});
      var more := AbsorbAppends(r1, clock, localHex, reply.value);
      assert [] + more == more;
    }
  }

  /** The seeds whose exchange succeeds. */
  function Responding(localHex: string, h: Handler, seeds: seq<Seed>): seq<Seed> {
    if seeds == [] then []
    else
      var front, seed := Responding(localHex, h, seeds[..|seeds| - 1]), seeds[|seeds| - 1];
      if Ask(localHex, h, seed.peer).Ok? then front + [seed] else front
  }

  /** Failed seeds change nothing: a round equals the round over the responding seeds. */
  lemma {:induction false} FailedSeedsChangeNothing(s: Store, clock: Clock, localHex: string, h: Handler, seeds: seq<Seed>)
    requires |s.table.buckets| == ID_BITS
    ensures DiscoverStore(s, clock, localHex, h, seeds)
            == DiscoverStore(s, clock, localHex, h, Responding(localHex, h, seeds))
  {
    if seeds != [] {
      var front, seed := seeds[..|seeds| - 1], seeds[|seeds| - 1];
      FailedSeedsChangeNothing(s, clock, localHex, h, front);
      var some := Responding(localHex, h, front);
      assert (some + [seed])[..|some|] == some;
    }
  }

  // ---------------------------------------------------------------------------
  // The set of ids added in this round is redundant
  // ---------------------------------------------------------------------------

  /** The same round without the added-this-round test. */
  function PlainAbsorb(s: Store, found: seq<Contact>, clock: Clock, localHex: string, cs: seq<Contact>): (r: (Store, seq<Contact>))
    requires |s.table.buckets| == ID_BITS
    ensures |r.0.table.buckets| == ID_BITS
  {
    if cs == [] then (s, found)
    else
      var (s1, found1) := PlainAbsorb(s, found, clock, localHex, cs[..|cs| - 1]);
      var c := cs[|cs| - 1];
      if ToHex(c.id) == localHex || c.id in s1.records then (s1, found1)
      else
        var (s2, accepted) := StoreAdd(s1, clock, c.id, c.host, c.port);
        (s2, if accepted == Ok(true) then found1 + [c] else found1)
  }

  function PlainDiscover(s: Store, clock: Clock, localHex: string, h: Handler, seeds: seq<Seed>): (r: (Store, seq<Contact>))
    requires |s.table.buckets| == ID_BITS
    ensures |r.0.table.buckets| == ID_BITS
  {
    if seeds == [] then (s, [])
    else
      var (s1, found1) := PlainDiscover(s, clock, localHex, h, seeds[..|seeds| - 1]);
      var seed := seeds[|seeds| - 1];
      var reply := Ask(localHex, h, seed.peer);
      if reply.Err? then (s1, found1)
      else PlainAbsorb(RefreshSeed(s1, clock, localHex, seed.contact), found1, clock, localHex, reply.value)
  }

  lemma {:induction false} PlainAbsorbSame(keys: set<NodeId>, seeded: set<NodeId>, r: Round, clock: Clock,
                                           localHex: string, cs: seq<Contact>)
    requires StoreOk(r.store) && Accounts(keys, seeded, r)
    ensures var r' := Absorb(r, clock, localHex, cs);
            PlainAbsorb(r.store, r.found, clock, localHex, cs) == (r'.store, r'.found)
  {
    if cs != [] {
      PlainAbsorbSame(keys, seeded, r, clock, localHex, cs[..|cs| - 1]);
      AbsorbAccounts(keys, seeded, r, clock, localHex, cs[..|cs| - 1]);
    }
  }

  /** Dropping the added-this-round test changes neither the store nor the result. */
  lemma {:induction false} AddedTestIsRedundant(s: Store, clock: Clock, localHex: string, h: Handler, seeds: seq<Seed>)
    requires StoreOk(s)
    ensures var r := DiscoverStore(s, clock, localHex, h, seeds);
            PlainDiscover(s, clock, localHex, h, seeds) == (r.store, r.found)
  {
    if seeds != [] {
      var front, seed := seeds[..|seeds| - 1], seeds[|seeds| - 1];
      var r1 := DiscoverStore(s, clock, localHex, h, front);
      var seeded1 := FreshSeeds(s, clock, localHex, h, front);
      AddedTestIsRedundant(s, clock, localHex, h, front);
      DiscoverAccounts(s, clock, localHex, h, front);
      DiscoverKeeps(s, clock, localHex, h, front);
      var reply := Ask(localHex, h, seed.peer);
      if reply.Ok? {
        var s' := RefreshSeed(r1.store, clock, localHex, seed.contact);
        RefreshSeedKeeps(r1.store, clock, localHex, seed.contact);
        RefreshSeedAccounts(s.records.Keys, seeded1, r1, clock, localHex, h, seed);
        var seeded := seeded1 + SeedIfNew(r1.store, localHex, h, seed);
        PlainAbsorbSame(s.records.Keys, seeded, r1.(store := s'), clock, localHex, reply.value);
      }
    }
  }

  lemma {:induction false} PlainAbsorbFound(s: Store, found: seq<Contact>, clock: Clock, localHex: string, cs: seq<Contact>)
    requires |s.table.buckets| == ID_BITS
    ensures var (s', more) := PlainAbsorb(s, [], clock, localHex, cs);
            PlainAbsorb(s, found, clock, localHex, cs) == (s', found + more)
  {
    if cs == [] {
      assert found + [] == found;
    } else {
      PlainAbsorbFound(s, found, clock, localHex, cs[..|cs| - 1]);
      var more := PlainAbsorb(s, [], clock, localHex, cs[..|cs| - 1]).1;
      assert (found + more) + [cs[|cs| - 1]] == found + (more + [cs[|cs| - 1]]);
    }
  }

  /** A round is the same as asking its seeds in separate rounds, one after the other: nothing but the
      store is carried from one seed to the next. */
  lemma RoundsCompose(s: Store, clock: Clock, localHex: string, h: Handler, front: seq<Seed>, seed: Seed)
    requires StoreOk(s)
    ensures var r1 := DiscoverStore(s, clock, localHex, h, front);
            var r2 := DiscoverStore(r1.store, clock, localHex, h, [seed]);
            var r := DiscoverStore(s, clock, localHex, h, front + [seed]);
            r.store == r2.store && r.found == r1.found + r2.found
  {
    var all, r1 := front + [seed], DiscoverStore(s, clock, localHex, h, front);
    assert all[..|all| - 1] == front && [seed][..0] == [];
    DiscoverKeeps(s, clock, localHex, h, front);
    AddedTestIsRedundant(s, clock, localHex, h, all);
    AddedTestIsRedundant(s, clock, localHex, h, front);
    AddedTestIsRedundant(r1.store, clock, localHex, h, [seed]);
    var reply := Ask(localHex, h, seed.peer);
    if reply.Ok? {
      PlainAbsorbFound(RefreshSeed(r1.store, clock, localHex, seed.contact), r1.found, clock, localHex, reply.value);
    }
  }

  // ---------------------------------------------------------------------------
  // The discovery object
  // ---------------------------------------------------------------------------

  class PeerDiscovery {
    const localHex: string
    const store: PeerStore
    const handler: Handler

    constructor (localHex: string, store: PeerStore, handler: Handler)
      ensures this.localHex == localHex && this.store == store && this.handler == handler
    {
      this.localHex := localHex;
      this.store := store;
      this.handler := handler;
    }

    /** The checked construction: an empty local id is an error. */
    static method Create(localHex: string, store: PeerStore, handler: Handler) returns (r: Result<PeerDiscovery>)
      ensures r.Ok? <==> localHex != ""
      ensures r.Ok? ==> r.value.localHex == localHex && r.value.store == store && r.value.handler == handler
    {
      if localHex == "" {
        return Err(ValueError);
      }
      var made := new PeerDiscovery(localHex, store, handler);
      return Ok(made);
    }

    method Discover(seeds: seq<Seed>) returns (newlyStored: seq<Contact>)
      requires store.Valid()
      modifies store, store.time, store.table.buckets, store.records.Values
      ensures store.Valid()
      ensures var r := DiscoverStore(old(store.State()), store.time.reading, localHex, handler, seeds);
              store.State() == r.store && newlyStored == r.found
    {
      newlyStored := [];
      var added: set<NodeId> := {};
      ghost var s, clock := store.State(), store.time.reading;
      for i := 0 to |seeds|
        invariant store.Valid() && store.table == old(store.table)
        invariant forall x :: x in store.records.Values ==> x in old(store.records.Values) || fresh(x)
        invariant Round(store.State(), newlyStored, added) == DiscoverStore(s, clock, localHex, handler, seeds[..i])
      {
        assert seeds[..i + 1][..i] == seeds[..i];
        var seed := seeds[i].contact;
        var request := BuildFindNode(handler, localHex);
        if request.Err? {
          continue;
        }
        var reply := ParseFoundNodes(handler, seeds[i].peer(request.value), localHex);
        if reply.Err? {
          continue;
        }
        if ToHex(seed.id) != localHex {
          var ignored := store.AddOrUpdate(seed.id, seed.host, seed.port);
        }
        newlyStored, added := StoreNew(reply.value, newlyStored, added);
      }
      assert seeds[..|seeds|] == seeds;
    }

    /** The inner loop over the contacts of one reply. */
    method StoreNew(cs: seq<Contact>, found: seq<Contact>, addedBefore: set<NodeId>)
      returns (newlyStored: seq<Contact>, added: set<NodeId>)
      requires store.Valid()
      modifies store, store.time, store.table.buckets, store.records.Values
      ensures store.Valid() && store.table == old(store.table)
      ensures forall x :: x in store.records.Values ==> x in old(store.records.Values) || fresh(x)
      ensures Round(store.State(), newlyStored, added)
              == Absorb(Round(old(store.State()), found, addedBefore), store.time.reading, localHex, cs)
    {
      newlyStored, added := found, addedBefore;
      ghost var r := Round(store.State(), found, added);
      for i := 0 to |cs|
        invariant store.Valid() && store.table == old(store.table)
        invariant forall x :: x in store.records.Values ==> x in old(store.records.Values) || fresh(x)
        invariant Round(store.State(), newlyStored, added) == Absorb(r, store.time.reading, localHex, cs[..i])
      {
        assert cs[..i + 1][..i] == cs[..i];
        var c := cs[i];
        if ToHex(c.id) == localHex {
          continue;
        }
        var known := store.Contains(c.id);
        if known || c.id in added {
          continue;
        }
        var accepted := store.AddOrUpdate(c.id, c.host, c.port);
        if accepted == Ok(true) {
          newlyStored := newlyStored + [c];
          added := added + {c.id};
        }
      }
      assert cs[..|cs|] == cs;
    }
  }
}
