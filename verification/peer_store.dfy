/** The peer store: a flat index of records kept in step with a bucketed routing table. */
module PeerStores {
  import opened Wrappers
  import opened NodeIds
  import opened RoutingTables

  /** Successive readings of the system clock. */
  type Clock = nat -> real

  ghost predicate NonDecreasing(clock: Clock) {
    forall m, n :: m <= n ==> clock(m) <= clock(n)
  }

  datatype Record = Record(contact: Contact, firstSeen: real, lastSeen: real)

  /** tick counts the clock readings taken so far. */
  datatype Store = Store(table: Table, records: map<NodeId, Record>, tick: nat)

  function EmptyStore(local: NodeId, k: int, tick: nat): Store {
    Store(EmptyTable(local, k), map[], tick)
  }

  /** A known peer is refreshed with one clock reading; a new one, if accepted, takes two. */
  function StoreAdd(s: Store, clock: Clock, id: Bytes, host: string, port: int): (r: (Store, Result<bool>))
    requires |s.table.buckets| == ID_BITS
    ensures |r.0.table.buckets| == ID_BITS
  {
    var c := MakeContact(id, host, port);
    if id == s.table.local || c.Err? then (s, Err(ValueError))
    else AddContact(s, clock, c.value)
  }

  /** The part of StoreAdd that follows the checks. */
  function AddContact(s: Store, clock: Clock, c: Contact): (Store, Result<bool>)
    requires |s.table.buckets| == ID_BITS
  {
    var (table, accepted) := TableAdd(s.table, c);
    if c.id in s.records then
      (Store(table, s.records[c.id := Record(c, s.records[c.id].firstSeen, clock(s.tick))], s.tick + 1), Ok(true))
    else if accepted == Ok(true) then
      (Store(table, s.records[c.id := Record(c, clock(s.tick), clock(s.tick + 1))], s.tick + 2), accepted)
    else
      (Store(table, s.records, s.tick), accepted)
  }

  function StoreRemove(s: Store, id: Bytes): (Store, bool)
    requires |s.table.buckets| == ID_BITS
  {
    if |id| == ID_BYTES && id in s.records then
      (Store(TableRemove(s.table, id).0, s.records - {id}, s.tick), true)
    else
      (s, false)
  }

  function StoreClear(s: Store): Store {
    EmptyStore(s.table.local, s.table.k, s.tick)
  }

  // ---------------------------------------------------------------------------
  // Agreement of the two structures
  // ---------------------------------------------------------------------------

  /** The table holds exactly this contact for its id. */
  ghost predicate Stored(t: Table, c: Contact)
    requires |t.buckets| == ID_BITS
  {
    c.id != t.local && c in BucketFor(t, c.id)
  }

  /** The table is in order, and its contacts are those of the records. */
  ghost predicate StoreOk(s: Store) {
    && TableOk(s.table)
    && (forall c :: Stored(s.table, c) <==> c.id in s.records && s.records[c.id].contact == c)
    && (forall id :: id in s.records ==> s.records[id].contact.id == id)
  }

  lemma EmptyStoreOk(local: NodeId, k: int, tick: nat)
    ensures StoreOk(EmptyStore(local, k, tick))
  {
  }

  /** What one table operation does to the contacts. */
  lemma TableAddStored(t: Table, c: Contact, d: Contact)
    requires TableOk(t) && c.id != t.local
    ensures var (u, r) := TableAdd(t, c);
            && TableOk(u) && u.local == t.local && u.k == t.k && r.Ok?
            && (r == Ok(true) ==> (Stored(u, d) <==> d == c || (Stored(t, d) && d.id != c.id)))
            && (r == Ok(false) ==> u == t)
            && r.value == (HasId(BucketFor(t, c.id), c.id) || |BucketFor(t, c.id)| < t.k)
  {
    var j, b := Slot(t.local, c.id), BucketFor(t, c.id);
    TableOpsKeepOrder(t, c, c.id);
    assert BucketOk(t.local, t.k, j, b);
    BucketAddContents(b, t.k, c);
  }

  lemma TableRemoveStored(t: Table, id: NodeId, d: Contact)
    requires TableOk(t) && id != t.local
    ensures var u := TableRemove(t, id).0;
            && TableOk(u) && u.local == t.local && u.k == t.k
            && (Stored(u, d) <==> Stored(t, d) && d.id != id)
  {
    var j, b := Slot(t.local, id), BucketFor(t, id);
    TableOpsKeepOrder(t, Contact(id, "", 1), id);
    assert BucketOk(t.local, t.k, j, b);
    WithoutContents(b, id);
  }

  /** A known id is in its bucket, so its refresh is always accepted. */
  lemma KnownIsAccepted(s: Store, c: Contact)
    requires StoreOk(s)
    ensures c.id in s.records ==> c.id != s.table.local && TableAdd(s.table, c).1 == Ok(true)
  {
    if c.id in s.records {
      assert Stored(s.table, s.records[c.id].contact);
    }
  }

  /** An id is in its bucket exactly when it has a record. */
  lemma InBucketIffRecorded(s: Store, id: NodeId)
    requires StoreOk(s) && id != s.table.local
    ensures HasId(BucketFor(s.table, id), id) <==> id in s.records
  {
    if HasId(BucketFor(s.table, id), id) {
      var d :| d in BucketFor(s.table, id) && d.id == id;
      assert Stored(s.table, d);
    }
    if id in s.records {
      assert Stored(s.table, s.records[id].contact);
    }
  }

  /** An accepted contact changes one bucket and one record. */
  lemma AddContactShape(s: Store, clock: Clock, c: Contact) returns (r: Record, tick: nat)
    requires StoreOk(s) && c.id != s.table.local
    ensures var b := BucketFor(s.table, c.id);
            var accepted := c.id in s.records || |b| < s.table.k;
            && AddContact(s, clock, c).1 == Ok(accepted)
            && accepted == BucketAccepts(b, s.table.k, c)
            && AddContact(s, clock, c).0 ==
               if accepted then
                 var buckets := s.table.buckets[Slot(s.table.local, c.id) := BucketAdd(b, s.table.k, c)];
                 Store(s.table.(buckets := buckets), s.records[c.id := r], tick)
               else s
    ensures r.contact == c && s.tick < tick && r.lastSeen == clock(tick - 1)
    ensures r.firstSeen == if c.id in s.records then s.records[c.id].firstSeen else clock(s.tick)
    ensures tick == if c.id in s.records then s.tick + 1 else s.tick + 2
  {
    InBucketIffRecorded(s, c.id);
    TableAddStored(s.table, c, c);
    if c.id in s.records {
      tick := s.tick + 1;
      r := Record(c, s.records[c.id].firstSeen, clock(s.tick));
    } else {
      tick := s.tick + 2;
      r := Record(c, clock(s.tick), clock(s.tick + 1));
    }
  }

  lemma AddContactKeepsOk(s: Store, clock: Clock, c: Contact)
    requires StoreOk(s) && c.id != s.table.local
    ensures StoreOk(AddContact(s, clock, c).0)
  {
    var r, tick := AddContactShape(s, clock, c);
    var s' := AddContact(s, clock, c).0;
    TableOpsKeepOrder(s.table, c, c.id);
    if s' != s {
      forall d
        ensures Stored(s'.table, d) <==> d.id in s'.records && s'.records[d.id].contact == d
      {
        TableAddStored(s.table, c, d);
      }
    }
  }

  lemma AddContactEffect(s: Store, clock: Clock, c: Contact)
    requires StoreOk(s) && c.id != s.table.local
    ensures var (s', r) := AddContact(s, clock, c);
            && s'.table.local == s.table.local && s'.table.k == s.table.k
            && r == Ok(c.id in s.records || |BucketFor(s.table, c.id)| < s.table.k)
            && (r == Ok(false) ==> s' == s)
            && (r == Ok(true) ==>
                  && s'.records.Keys == s.records.Keys + {c.id}
                  && s'.records[c.id].contact == c
                  && s'.records - {c.id} == s.records - {c.id})
  {
    var r, tick := AddContactShape(s, clock, c);
  }

  /** AddOrUpdate raises exactly on the local id, a wrong length or a bad port; it refuses exactly a
      new id whose bucket is full; both leave the store as it was; otherwise it stores the given
      address under the id, touches no other record, and keeps table and records in agreement. */
  lemma AddOrUpdateEffect(s: Store, clock: Clock, id: Bytes, host: string, port: int)
    requires StoreOk(s)
    ensures var (s', r) := StoreAdd(s, clock, id, host, port);
            && StoreOk(s')
            && s'.table.local == s.table.local && s'.table.k == s.table.k
            && (r.Err? <==> id == s.table.local || |id| != ID_BYTES || !(0 < port <= 65535))
            && (r.Ok? ==> (r.value <==> id in s.records || |BucketFor(s.table, id)| < s.table.k))
            && (r != Ok(true) ==> s' == s)
            && (r == Ok(true) ==>
                  && s'.records.Keys == s.records.Keys + {id}
                  && s'.records[id].contact == Contact(id, host, port)
                  && s'.records - {id} == s.records - {id})
  {
    var made := MakeContact(id, host, port);
    if id != s.table.local && made.Ok? {
      AddContactEffect(s, clock, made.value);
      AddContactKeepsOk(s, clock, made.value);
    }
  }

  /** The same as far as the stored ids are concerned: what is not accepted is not there. */
  lemma AddOrUpdateKeys(s: Store, clock: Clock, id: Bytes, host: string, port: int)
    requires StoreOk(s)
    ensures var (s', r) := StoreAdd(s, clock, id, host, port);
            && s'.records.Keys == (if r == Ok(true) then s.records.Keys + {id} else s.records.Keys)
            && (r != Ok(true) && 0 < port <= 65535 ==> id !in s.records)
  {
    AddOrUpdateEffect(s, clock, id, host, port);
    assert forall x :: x in s.records ==> Stored(s.table, s.records[x].contact);
  }

  /** The id that storing a contact adds to the records, if any. */
  function NewId(s: Store, c: Contact): set<NodeId>
    requires |s.table.buckets| == ID_BITS
  {
    if c.id != s.table.local && c.id !in s.records && |BucketFor(s.table, c.id)| < s.table.k then {c.id} else {}
  }

  lemma AddAddsNewId(s: Store, clock: Clock, c: Contact)
    requires StoreOk(s)
    ensures StoreAdd(s, clock, c.id, c.host, c.port).0.records.Keys == s.records.Keys + NewId(s, c)
  {
    AddOrUpdateEffect(s, clock, c.id, c.host, c.port);
  }

  /** Remove takes the peer out of both structures and nothing else. */
  lemma RemoveEffect(s: Store, id: Bytes)
    requires StoreOk(s)
    ensures var (s', found) := StoreRemove(s, id);
            && StoreOk(s')
            && s'.table.local == s.table.local && s'.table.k == s.table.k
            && (found <==> |id| == ID_BYTES && id in s.records)
            && (found ==> s'.records == s.records - {id})
            && (!found ==> s' == s)
  {
    var (s', found) := StoreRemove(s, id);
    if found {
      assert Stored(s.table, s.records[id].contact);
      TableRemoveStored(s.table, id, s.records[id].contact);
      forall d
        ensures Stored(s'.table, d) <==> d.id in s'.records && s'.records[d.id].contact == d
      {
        TableRemoveStored(s.table, id, d);
      }
    }
  }

  /** A cleared store knows nobody, for the same node and bucket size, and takes no clock reading. */
  lemma ClearEmpties(s: Store)
    ensures var s' := StoreClear(s);
            && s'.records == map[] && AllContacts(s'.table) == []
            && s'.table.local == s.table.local && s'.table.k == s.table.k && s'.tick == s.tick
  {
    NoContacts(StoreClear(s).table.buckets, ID_BITS);
  }

  /** Reading a stored id from the table gives the contact of its record. */
  lemma TableGetIsRecord(s: Store, id: NodeId)
    requires StoreOk(s)
    ensures TableGet(s.table, id) == if id in s.records then Some(s.records[id].contact) else None
  {
    if id in s.records {
      assert Stored(s.table, s.records[id].contact);
      assert BucketOk(s.table.local, s.table.k, Slot(s.table.local, id), BucketFor(s.table, id));
      WithoutContents(BucketFor(s.table, id), id);
    } else if id != s.table.local {
      InBucketIffRecorded(s, id);
      HasIdIffIndex(BucketFor(s.table, id), id);
      WithoutCuts(BucketFor(s.table, id), id);
    }
  }

  lemma AddedIsFound(s: Store, clock: Clock, id: Bytes, host: string, port: int)
    requires StoreOk(s)
    ensures var (s', r) := StoreAdd(s, clock, id, host, port);
            r == Ok(true) ==> |id| == ID_BYTES && 0 < port <= 65535 && TableGet(s'.table, id) == Some(Contact(id, host, port))
  {
    var (s', r) := StoreAdd(s, clock, id, host, port);
    AddOrUpdateEffect(s, clock, id, host, port);
    if r == Ok(true) {
      TableGetIsRecord(s', id);
    }
  }

  // ---------------------------------------------------------------------------
  // Age order
  // ---------------------------------------------------------------------------

  /** Last-seen times rise along a bucket. */
  ghost predicate RisesAlong(b: seq<Contact>, records: map<NodeId, Record>) {
    && (forall i :: 0 <= i < |b| ==> b[i].id in records)
    && (forall i, j :: 0 <= i < j < |b| ==> records[b[i].id].lastSeen <= records[b[j].id].lastSeen)
  }

  /** Every bucket is in order of last-seen time, and no record is from the future. */
  ghost predicate AgeOk(s: Store, clock: Clock) {
    && (forall j :: 0 <= j < |s.table.buckets| ==> RisesAlong(s.table.buckets[j], s.records))
    && (forall id :: id in s.records ==> s.records[id].firstSeen <= s.records[id].lastSeen <= clock(s.tick))
  }

  lemma EmptyStoreAge(local: NodeId, k: int, tick: nat, clock: Clock)
    ensures AgeOk(EmptyStore(local, k, tick), clock)
  {
  }

  lemma WithoutAt(b: seq<Contact>, id: NodeId, m: nat)
    requires DistinctIds(b) && m < |Without(b, id)|
    ensures var n := if m < IndexOf(b, id) then m else m + 1;
            n < |b| && Without(b, id)[m] == b[n] && b[n].id != id
  {
    WithoutCuts(b, id);
  }

  lemma CutRisesAlong(b: seq<Contact>, id: NodeId, records: map<NodeId, Record>, records': map<NodeId, Record>)
    requires DistinctIds(b) && RisesAlong(b, records)
    requires forall x :: x in records && x != id ==> x in records' && records'[x] == records[x]
    ensures RisesAlong(Without(b, id), records')
  {
    var w := Without(b, id);
    forall m | 0 <= m < |w|
      ensures w[m].id in records'
    {
      WithoutAt(b, id, m);
    }
    forall m, n | 0 <= m < n < |w|
      ensures records'[w[m].id].lastSeen <= records'[w[n].id].lastSeen
    {
      WithoutAt(b, id, m);
      WithoutAt(b, id, n);
    }
  }

  lemma AppendRisesAlong(w: seq<Contact>, c: Contact, records: map<NodeId, Record>)
    requires RisesAlong(w, records) && c.id in records
    requires forall x :: x in records ==> records[x].lastSeen <= records[c.id].lastSeen
    ensures RisesAlong(w + [c], records)
  {
  }

  lemma RefreshedRisesAlong(b: seq<Contact>, k: int, c: Contact, records: map<NodeId, Record>, r: Record)
    requires DistinctIds(b) && BucketAccepts(b, k, c) && RisesAlong(b, records)
    requires forall x :: x in records ==> records[x].lastSeen <= r.lastSeen
    ensures RisesAlong(BucketAdd(b, k, c), records[c.id := r])
  {
    var w := Without(b, c.id);
    assert BucketAdd(b, k, c) == w + [c] by {
      BucketAddContents(b, k, c);
    }
    CutRisesAlong(b, c.id, records, records[c.id := r]);
    AppendRisesAlong(w, c, records[c.id := r]);
  }

  /** With a clock that never goes back, a refresh or insertion keeps every bucket in age order. */
  lemma AddContactKeepsAge(s: Store, clock: Clock, c: Contact)
    requires StoreOk(s) && c.id != s.table.local
    ensures NonDecreasing(clock) && AgeOk(s, clock) ==> AgeOk(AddContact(s, clock, c).0, clock)
  {
    var r, tick := AddContactShape(s, clock, c);
    var s', t, slot := AddContact(s, clock, c).0, s.table, Slot(s.table.local, c.id);
    if s' != s && NonDecreasing(clock) && AgeOk(s, clock) {
      assert clock(s.tick) <= clock(tick - 1) <= clock(tick);
      forall j | 0 <= j < ID_BITS
        ensures RisesAlong(s'.table.buckets[j], s'.records)
      {
        assert BucketOk(t.local, t.k, j, t.buckets[j]);
        assert RisesAlong(t.buckets[j], s.records);
        if j == slot {
          RefreshedRisesAlong(t.buckets[j], t.k, c, s.records, r);
        } else {
          OtherRisesAlong(t.buckets[j], c.id, s.records, r);
        }
      }
    }
  }

  lemma OtherRisesAlong(b: seq<Contact>, id: NodeId, records: map<NodeId, Record>, r: Record)
    requires RisesAlong(b, records)
    requires forall c :: c in b ==> c.id != id
    ensures RisesAlong(b, records[id := r])
  {
    assert forall i :: 0 <= i < |b| ==> b[i] in b;
  }

  lemma RemoveKeepsAge(s: Store, clock: Clock, id: Bytes)
    requires StoreOk(s)
    ensures AgeOk(s, clock) ==> AgeOk(StoreRemove(s, id).0, clock)
  {
    var (s', found) := StoreRemove(s, id);
    if found && AgeOk(s, clock) {
      assert Stored(s.table, s.records[id].contact);
      forall j | 0 <= j < ID_BITS
        ensures RisesAlong(s'.table.buckets[j], s'.records)
      {
        var b := s.table.buckets[j];
        assert BucketOk(s.table.local, s.table.k, j, b);
        if j == Slot(s.table.local, id) {
          CutRisesAlong(b, id, s.records, s'.records);
        } else {
          assert forall d :: d in b ==> d.id != id;
        }
      }
    }
  }

  // ---------------------------------------------------------------------------
  // No eviction
  // ---------------------------------------------------------------------------

  ghost predicate SameMembers(b: seq<Contact>, b': seq<Contact>) {
    |b| == |b'| && forall id :: HasId(b, id) <==> HasId(b', id)
  }

  /** No peer is lost, and a full bucket keeps exactly its members. */
  ghost predicate Grows(s: Store, s': Store) {
    && s'.table.local == s.table.local && s'.table.k == s.table.k
    && |s.table.buckets| == |s'.table.buckets| == ID_BITS
    && s.tick <= s'.tick
    && s.records.Keys <= s'.records.Keys
    && (forall id :: id in s.records ==> s'.records[id].firstSeen == s.records[id].firstSeen)
    && (forall j :: 0 <= j < ID_BITS && |s.table.buckets[j]| >= s.table.k ==>
                      SameMembers(s.table.buckets[j], s'.table.buckets[j]))
  }

  lemma AddKeepsFullBucket(b: seq<Contact>, k: int, c: Contact)
    requires DistinctIds(b) && |b| >= k
    ensures SameMembers(b, BucketAdd(b, k, c))
  {
    BucketAddContents(b, k, c);
    WithoutContents(b, c.id);
    if HasId(b, c.id) {
      var t := BucketAdd(b, k, c);
      assert c in t;
      forall id
        ensures HasId(b, id) <==> HasId(t, id)
      {
        if HasId(b, id) && id != c.id {
          var d :| d in b && d.id == id;
          assert d in t;
        }
      }
    }
  }

  lemma AddContactGrows(s: Store, clock: Clock, c: Contact)
    requires StoreOk(s) && c.id != s.table.local
    ensures Grows(s, AddContact(s, clock, c).0)
  {
    var r, tick := AddContactShape(s, clock, c);
    var s', t := AddContact(s, clock, c).0, s.table;
    forall j | 0 <= j < ID_BITS && |t.buckets[j]| >= t.k
      ensures SameMembers(t.buckets[j], s'.table.buckets[j])
    {
      assert BucketOk(t.local, t.k, j, t.buckets[j]);
      AddKeepsFullBucket(t.buckets[j], t.k, c);
    }
  }

  /** Whatever AddOrUpdate is given, it keeps agreement and age order and evicts nobody. */
  lemma AddOrUpdateKeeps(s: Store, clock: Clock, id: Bytes, host: string, port: int)
    requires StoreOk(s)
    ensures var s' := StoreAdd(s, clock, id, host, port).0;
            && StoreOk(s') && Grows(s, s')
            && (NonDecreasing(clock) && AgeOk(s, clock) ==> AgeOk(s', clock))
  {
    if StoreAdd(s, clock, id, host, port).1.Ok? {
      var c := Contact(id, host, port);
      AddContactKeepsOk(s, clock, c);
      AddContactGrows(s, clock, c);
      AddContactKeepsAge(s, clock, c);
    }
  }

  lemma GrowsTransitive(a: Store, b: Store, c: Store)
    requires Grows(a, b) && Grows(b, c)
    ensures Grows(a, c)
  {
    forall j | 0 <= j < ID_BITS && |a.table.buckets[j]| >= a.table.k
      ensures SameMembers(a.table.buckets[j], c.table.buckets[j])
    {
      assert SameMembers(a.table.buckets[j], b.table.buckets[j]);
      assert SameMembers(b.table.buckets[j], c.table.buckets[j]);
    }
  }

  /** An id has been dealt with: it is the local one, it is on record, or its bucket is full. */
  ghost predicate Held(s: Store, id: NodeId)
    requires |s.table.buckets| == ID_BITS
  {
    id == s.table.local || id in s.records || |BucketFor(s.table, id)| >= s.table.k
  }

  lemma HeldStays(s: Store, s': Store, id: NodeId)
    requires Grows(s, s') && Held(s, id)
    ensures Held(s', id)
  {
    if id != s.table.local && |BucketFor(s.table, id)| >= s.table.k {
      assert SameMembers(BucketFor(s.table, id), BucketFor(s'.table, id));
    }
  }

  /** Once an id has been refused for lack of room, its bucket admits nobody else. */
  lemma FullStaysClosed(s: Store, s': Store, id: NodeId, x: NodeId)
    requires StoreOk(s) && StoreOk(s') && Grows(s, s') && Held(s, id) && id !in s.records
    requires id != s.table.local && x != s.table.local && Slot(s.table.local, id) == Slot(s.table.local, x)
    ensures x in s'.records ==> x in s.records
  {
    InBucketIffRecorded(s, x);
    InBucketIffRecorded(s', x);
    assert SameMembers(BucketFor(s.table, x), BucketFor(s'.table, x));
  }

  lemma GrowsSelf(s: Store)
    requires StoreOk(s)
    ensures Grows(s, s)
  {
  }

  /** Storing a contact leaves its id dealt with. */
  lemma AddHolds(s: Store, clock: Clock, c: Contact)
    requires StoreOk(s)
    ensures Held(StoreAdd(s, clock, c.id, c.host, c.port).0, c.id)
  {
    AddOrUpdateEffect(s, clock, c.id, c.host, c.port);
  }

  lemma AddKeepsHeld(s: Store, clock: Clock, c: Contact, id: NodeId)
    requires StoreOk(s) && Held(s, id)
    ensures Held(StoreAdd(s, clock, c.id, c.host, c.port).0, id)
  {
    AddOrUpdateKeeps(s, clock, c.id, c.host, c.port);
    HeldStays(s, StoreAdd(s, clock, c.id, c.host, c.port).0, id);
  }

  // ---------------------------------------------------------------------------
  // The mutable objects
  // ---------------------------------------------------------------------------

  /** The system clock: each reading moves it on. */
  class TimeSource {
    const reading: Clock
    var tick: nat

    constructor (reading: Clock)
      ensures this.reading == reading && tick == 0
    {
      this.reading := reading;
      tick := 0;
    }

    method Now() returns (t: real)
      modifies this
      ensures t == reading(old(tick)) && tick == old(tick) + 1
    {
      t := reading(tick);
      tick := tick + 1;
    }
  }

  class PeerRecord {
    var contact: Contact
    var firstSeen: real
    var lastSeen: real

    constructor (contact: Contact, time: TimeSource)
      modifies time
      ensures time.tick == old(time.tick) + 2
      ensures State() == Record(contact, time.reading(old(time.tick)), time.reading(old(time.tick) + 1))
    {
      this.contact := contact;
      var first := time.Now();
      var last := time.Now();
      firstSeen := first;
      lastSeen := last;
    }

    ghost function State(): Record
      reads this
    {
      Record(contact, firstSeen, lastSeen)
    }

    method Touch(time: TimeSource)
      modifies this, time
      ensures time.tick == old(time.tick) + 1
      ensures State() == old(State()).(lastSeen := time.reading(old(time.tick)))
    {
      lastSeen := time.Now();
    }
  }

  /** The contents of all records. */
  ghost function Snapshot(records: map<NodeId, PeerRecord>): (m: map<NodeId, Record>)
    reads records.Values
    ensures m.Keys == records.Keys
    ensures forall id :: id in records ==> m[id] == records[id].State()
  {
    map id | id in records :: records[id].State()
  }

  class PeerStore {
    const local: NodeId
    const time: TimeSource
    var table: RoutingTable
    var records: map<NodeId, PeerRecord>

    ghost predicate Valid()
      reads this
    {
      && table.Valid() && table.local == local
      && forall a, b :: a in records && b in records && a != b ==> records[a] != records[b]
    }

    ghost function State(): Store
      reads this, time, table.buckets, records.Values
    {
      Store(table.State(), Snapshot(records), time.tick)
    }

    constructor (local: NodeId, k: int, time: TimeSource)
      ensures Valid() && fresh(table.buckets) && this.time == time
      ensures State() == EmptyStore(local, k, time.tick)
    {
      this.local := local;
      this.time := time;
      table := new RoutingTable(local, k);
      records := map[];
    }

    /** The checked construction: a local id of the wrong length is an error. */
    static method Create(local: Bytes, k: int, time: TimeSource) returns (r: Result<PeerStore>)
      ensures r.Ok? <==> |local| == ID_BYTES
      ensures r.Ok? ==> fresh(r.value) && r.value.Valid() && r.value.time == time
      ensures r.Ok? ==> r.value.State() == EmptyStore(local, k, time.tick)
    {
      if |local| != ID_BYTES {
        return Err(ValueError);
      }
      var store := new PeerStore(local, k, time);
      return Ok(store);
    }

    method AddOrUpdate(id: Bytes, host: string, port: int) returns (r: Result<bool>)
      requires Valid()
      modifies this, time, table.buckets, records.Values
      ensures Valid() && table == old(table)
      ensures forall x :: x in records.Values ==> x in old(records.Values) || fresh(x)
      ensures (State(), r) == StoreAdd(old(State()), time.reading, id, host, port)
    {
      if id == local {
        return Err(ValueError);
      }
      var made := MakeContact(id, host, port);
      if made.Err? {
        return Err(ValueError);
      }
      if made.value.id in records {
        Refresh(made.value);
        r := Ok(true);
      } else {
        r := Insert(made.value);
      }
    }

    /** The branch for a known peer; the answer of the table is ignored. */
    method Refresh(c: Contact)
      requires Valid() && c.id in records
      modifies time, table.buckets, records.Values
      ensures State() == AddContact(old(State()), time.reading, c).0
    {
      ghost var before := Snapshot(records);
      var record := records[c.id];
      record.contact := c;
      record.Touch(time);
      assert Snapshot(records) == before[c.id := record.State()];
      var ignored := Offer(c);
    }

    /** The branch for a new peer. */
    method Insert(c: Contact) returns (r: Result<bool>)
      requires Valid() && c.id !in records
      modifies this, time, table.buckets
      ensures Valid() && table == old(table)
      ensures forall x :: x in records.Values ==> x in old(records.Values) || fresh(x)
      ensures (State(), r) == AddContact(old(State()), time.reading, c)
    {
      ghost var next := AddContact(State(), time.reading, c).0;
      r := Offer(c);
      if r == Ok(true) {
        File(c);
        assert next.tick == time.tick;
        assert next.table == table.State();
        assert next.records == Snapshot(records);
      }
    }

    /** Offers a contact to the table alone. */
    method Offer(c: Contact) returns (r: Result<bool>)
      requires Valid()
      modifies table.buckets
      ensures (table.State(), r) == TableAdd(old(table.State()), c)
      ensures Snapshot(records) == old(Snapshot(records))
    {
      r := table.AddContact(c);
    }

    /** Files a new record. */
    method File(c: Contact)
      requires Valid() && c.id !in records
      modifies this`records, time
      ensures Valid() && time.tick == old(time.tick) + 2 && table.State() == old(table.State())
      ensures forall x :: x in records.Values ==> x in old(records.Values) || fresh(x)
      ensures Snapshot(records) == old(Snapshot(records))[c.id :=
                Record(c, time.reading(old(time.tick)), time.reading(old(time.tick) + 1))]
    {
      var record := new PeerRecord(c, time);
      assert Snapshot(records) == old(Snapshot(records));
      records := records[c.id := record];
    }

    method Get(id: Bytes) returns (r: Option<PeerRecord>)
      requires Valid()
      ensures r.Some? <==> |id| == ID_BYTES && id in State().records
      ensures r.Some? ==> r.value in records.Values && r.value.State() == State().records[id]
    {
      if |id| == ID_BYTES && id in records {
        return Some(records[id]);
      }
      return None;
    }

    method Contains(id: Bytes) returns (found: bool)
      requires Valid()
      ensures found <==> |id| == ID_BYTES && id in State().records
    {
      found := |id| == ID_BYTES && id in records;
    }

    method Remove(id: Bytes) returns (found: bool)
      requires Valid()
      modifies this, table.buckets
      ensures Valid() && table == old(table)
      ensures records.Values <= old(records.Values)
      ensures (State(), found) == StoreRemove(old(State()), id)
    {
      if !(|id| == ID_BYTES && id in records) {
        return false;
      }
      records := records - {id};
      var ignored := table.RemoveContact(id);
      assert Snapshot(records) == old(Snapshot(records)) - {id};
      return true;
    }

    /** Wipes the store by replacing the table: a lookup built on the old table still sees it. */
    method Clear()
      requires Valid()
      modifies this
      ensures Valid() && fresh(table) && fresh(table.buckets)
      ensures State() == StoreClear(old(State()))
      ensures old(table).State() == old(table.State())
    {
      records := map[];
      table := new RoutingTable(local, table.k);
    }
  }
}
