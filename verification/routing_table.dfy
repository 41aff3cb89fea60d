/** Contacts, k-buckets and the routing table of 256 buckets. */
module RoutingTables {
  import opened Wrappers
  import opened NodeIds

  type Port = p: int | 0 < p <= 65535 witness 1

  /** A peer; the types hold what the source checks after construction. */
  datatype Contact = Contact(id: NodeId, host: string, port: Port)

  function MakeContact(id: Bytes, host: string, port: int): (r: Result<Contact>)
    ensures r.Ok? <==> |id| == ID_BYTES && 0 < port <= 65535
    ensures r.Ok? ==> r.value.id == id && r.value.host == host && r.value.port == port
  {
    if |id| != ID_BYTES then Err(ValueError)
    else if !(0 < port <= 65535) then Err(ValueError)
    else Ok(Contact(id, host, port))
  }

  // ---------------------------------------------------------------------------
  // One bucket, least recently seen first
  // ---------------------------------------------------------------------------

  predicate HasId(s: seq<Contact>, id: NodeId) {
    exists c :: c in s && c.id == id
  }

  /** The list without its first contact named id. */
  function Without(s: seq<Contact>, id: NodeId): seq<Contact> {
    if s == [] then [] else if s[0].id == id then s[1..] else [s[0]] + Without(s[1..], id)
  }

  /** The first contact named id. */
  function Find(s: seq<Contact>, id: NodeId): Option<Contact> {
    if s == [] then None else if s[0].id == id then Some(s[0]) else Find(s[1..], id)
  }

  predicate BucketAccepts(s: seq<Contact>, k: int, c: Contact) {
    HasId(s, c.id) || |s| < k
  }

  function BucketAdd(s: seq<Contact>, k: int, c: Contact): seq<Contact> {
    if HasId(s, c.id) then Without(s, c.id) + [c]
    else if |s| < k then s + [c]
    else s
  }

  predicate DistinctIds(s: seq<Contact>) {
    forall i, j :: 0 <= i < j < |s| ==> s[i].id != s[j].id
  }

  /** The position of the first contact named id, or the length of the list. */
  ghost function IndexOf(s: seq<Contact>, id: NodeId): (i: nat)
    ensures i <= |s|
    ensures forall j :: 0 <= j < i ==> s[j].id != id
    ensures i < |s| ==> s[i].id == id
  {
    if s == [] || s[0].id == id then 0 else 1 + IndexOf(s[1..], id)
  }

  lemma HasIdIffIndex(s: seq<Contact>, id: NodeId)
    ensures HasId(s, id) <==> IndexOf(s, id) < |s|
  {
    if IndexOf(s, id) < |s| {
      assert s[IndexOf(s, id)] in s;
    }
  }

  lemma CutCons(s: seq<Contact>, i: nat)
    requires s != []
    ensures s == [s[0]] + s[1..]
    ensures i < |s[1..]| ==> s[..i + 1] + s[i + 2..] == [s[0]] + (s[1..][..i] + s[1..][i + 1..])
  {
  }

  /** Removal cuts out the first occurrence and keeps the order of the rest. */
  lemma {:induction false} WithoutCuts(s: seq<Contact>, id: NodeId)
    ensures var i := IndexOf(s, id);
            if i < |s| then Without(s, id) == s[..i] + s[i + 1..] && Find(s, id) == Some(s[i])
            else Without(s, id) == s && Find(s, id) == None
  {
    if s != [] && s[0].id != id {
      CutCons(s, IndexOf(s[1..], id));
      WithoutCuts(s[1..], id);
    }
  }

  /** In a bucket without repetitions, removal removes the id and nothing else. */
  lemma WithoutContents(s: seq<Contact>, id: NodeId)
    requires DistinctIds(s)
    ensures DistinctIds(Without(s, id))
    ensures forall c :: c in Without(s, id) <==> c in s && c.id != id
    ensures |Without(s, id)| == if HasId(s, id) then |s| - 1 else |s|
    ensures forall c :: c in s && c.id == id ==> Find(s, id) == Some(c)
  {
    HasIdIffIndex(s, id);
    WithoutCuts(s, id);
    if IndexOf(s, id) < |s| {
      CutContents(s, IndexOf(s, id));
    }
  }

  lemma CutContents(s: seq<Contact>, i: nat)
    requires DistinctIds(s) && i < |s|
    ensures var t := s[..i] + s[i + 1..];
            && DistinctIds(t)
            && (forall c :: c in t <==> c in s && c.id != s[i].id)
            && (forall c :: c in s && c.id == s[i].id ==> c == s[i])
  {
  }

  /** Adding keeps ids distinct, puts an accepted contact at the tail in place of its older
      entry, changes nothing when it refuses, and refuses only a new id in a full bucket. */
  lemma BucketAddContents(s: seq<Contact>, k: int, c: Contact)
    requires DistinctIds(s)
    ensures var t := BucketAdd(s, k, c);
            && DistinctIds(t)
            && (BucketAccepts(s, k, c) ==>
                  && t != [] && t[|t| - 1] == c
                  && t[..|t| - 1] == Without(s, c.id)
                  && (forall d :: d in t <==> d == c || (d in s && d.id != c.id)))
            && (!BucketAccepts(s, k, c) ==> t == s)
            && |s| <= |t|
            && |t| <= if |s| <= k then k else |s|
  {
    var w := Without(s, c.id);
    WithoutContents(s, c.id);
    if BucketAccepts(s, k, c) {
      assert BucketAdd(s, k, c) == w + [c] by {
        if !HasId(s, c.id) {
          HasIdIffIndex(s, c.id);
          WithoutCuts(s, c.id);
        }
      }
    }
  }

  // ---------------------------------------------------------------------------
  // The table
  // ---------------------------------------------------------------------------

  datatype Table = Table(local: NodeId, k: int, buckets: seq<seq<Contact>>)

  function EmptyTable(local: NodeId, k: int): Table {
    Table(local, k, seq(ID_BITS, (i: nat) => []))
  }

  function Max(a: int, b: int): int {
    if a >= b then a else b
  }

  /** What holds of bucket j of the table of local. */
  ghost predicate BucketOk(local: NodeId, k: int, j: nat, s: seq<Contact>) {
    && DistinctIds(s)
    && |s| <= Max(k, 0)
    && forall c :: c in s ==> c.id != local && Slot(local, c.id) == j
  }

  ghost predicate TableOk(t: Table) {
    && |t.buckets| == ID_BITS
    && forall j :: 0 <= j < ID_BITS ==> BucketOk(t.local, t.k, j, t.buckets[j])
  }

  /** The bucket responsible for a foreign id. */
  function BucketFor(t: Table, id: NodeId): seq<Contact>
    requires |t.buckets| == ID_BITS && id != t.local
  {
    t.buckets[Slot(t.local, id)]
  }

  function TableAdd(t: Table, c: Contact): (Table, Result<bool>)
    requires |t.buckets| == ID_BITS
  {
    if c.id == t.local then (t, Err(ValueError))
    else
      var b := BucketFor(t, c.id);
      (t.(buckets := t.buckets[Slot(t.local, c.id) := BucketAdd(b, t.k, c)]), Ok(BucketAccepts(b, t.k, c)))
  }

  function TableRemove(t: Table, id: NodeId): (Table, bool)
    requires |t.buckets| == ID_BITS
  {
    if id == t.local then (t, false)
    else
      var b := BucketFor(t, id);
      (t.(buckets := t.buckets[Slot(t.local, id) := Without(b, id)]), HasId(b, id))
  }

  function TableGet(t: Table, id: NodeId): Option<Contact>
    requires |t.buckets| == ID_BITS
  {
    if id == t.local then None else Find(BucketFor(t, id), id)
  }

  /** The contacts of the first n buckets, bucket by bucket. */
  function Flatten(buckets: seq<seq<Contact>>, n: nat): seq<Contact>
    requires n <= |buckets|
  {
    if n == 0 then [] else Flatten(buckets, n - 1) + buckets[n - 1]
  }

  function AllContacts(t: Table): seq<Contact> {
    Flatten(t.buckets, |t.buckets|)
  }

  ghost predicate InSome(buckets: seq<seq<Contact>>, n: nat, c: Contact)
    requires n <= |buckets|
  {
    exists j :: 0 <= j < n && c in buckets[j]
  }

  lemma InSomeStep(buckets: seq<seq<Contact>>, n: nat, c: Contact)
    requires 0 < n <= |buckets|
    ensures InSome(buckets, n, c) <==> c in buckets[n - 1] || InSome(buckets, n - 1, c)
  {
  }

  lemma {:induction false} FlattenMember(buckets: seq<seq<Contact>>, n: nat, c: Contact)
    requires n <= |buckets|
    ensures c in Flatten(buckets, n) <==> InSome(buckets, n, c)
  {
    if n > 0 {
      InSomeStep(buckets, n, c);
      FlattenMember(buckets, n - 1, c);
    }
  }

  /** How many contacts the first n buckets hold. */
  function CountBefore(buckets: seq<seq<Contact>>, n: nat): nat
    requires n <= |buckets|
  {
    if n == 0 then 0 else CountBefore(buckets, n - 1) + |buckets[n - 1]|
  }

  /** The flat list holds the buckets one after the other, each in its own order. */
  lemma {:induction false} FlattenInOrder(buckets: seq<seq<Contact>>, n: nat, j: nat)
    requires j < n <= |buckets|
    ensures CountBefore(buckets, j) + |buckets[j]| <= |Flatten(buckets, n)| == CountBefore(buckets, n)
    ensures Flatten(buckets, n)[CountBefore(buckets, j)..CountBefore(buckets, j) + |buckets[j]|] == buckets[j]
  {
    FlattenCount(buckets, n - 1);
    if j < n - 1 {
      FlattenInOrder(buckets, n - 1, j);
    }
  }

  lemma {:induction false} FlattenCount(buckets: seq<seq<Contact>>, n: nat)
    requires n <= |buckets|
    ensures |Flatten(buckets, n)| == CountBefore(buckets, n)
  {
    if n > 0 {
      FlattenCount(buckets, n - 1);
    }
  }

  lemma {:induction false} NoContacts(buckets: seq<seq<Contact>>, n: nat)
    requires n <= |buckets| && forall j :: 0 <= j < |buckets| ==> buckets[j] == []
    ensures Flatten(buckets, n) == []
  {
    if n > 0 {
      NoContacts(buckets, n - 1);
    }
  }

  /** In a table that is in order, the contacts are those of the responsible buckets, ... */
  lemma AllContactsMember(t: Table, c: Contact)
    requires TableOk(t)
    ensures c in AllContacts(t) <==> c.id != t.local && c in BucketFor(t, c.id)
  {
    FlattenMember(t.buckets, ID_BITS, c);
  }

  /** Removal says whether the table listed the id. */
  lemma RemoveTellsIff(t: Table, id: NodeId)
    requires TableOk(t)
    ensures TableRemove(t, id).1 <==> exists c :: c in AllContacts(t) && c.id == id
  {
    if id != t.local && HasId(BucketFor(t, id), id) {
      var c :| c in BucketFor(t, id) && c.id == id;
      AllContactsMember(t, c);
    }
    forall c | c in AllContacts(t) && c.id == id
      ensures TableRemove(t, id).1
    {
      AllContactsMember(t, c);
    }
  }

  /** ... each id is listed once, ... */
  lemma {:induction false} FlattenDistinct(t: Table, n: nat)
    requires TableOk(t) && n <= ID_BITS
    ensures DistinctIds(Flatten(t.buckets, n))
  {
    if n > 0 {
      FlattenDistinct(t, n - 1);
      var a, b := Flatten(t.buckets, n - 1), t.buckets[n - 1];
      assert BucketOk(t.local, t.k, n - 1, b);
      forall i, j | 0 <= i < |a| && 0 <= j < |b|
        ensures a[i].id != b[j].id
      {
        FlattenMember(t.buckets, n - 1, a[i]);
        var m :| 0 <= m < n - 1 && a[i] in t.buckets[m];
        assert BucketOk(t.local, t.k, m, t.buckets[m]);
        assert b[j] in b;
      }
    }
  }

  /** ... and every operation keeps the table in order. */
  lemma TableOpsKeepOrder(t: Table, c: Contact, id: NodeId)
    requires TableOk(t)
    ensures TableOk(TableAdd(t, c).0)
    ensures TableOk(TableRemove(t, id).0)
  {
    if c.id != t.local {
      assert BucketOk(t.local, t.k, Slot(t.local, c.id), BucketFor(t, c.id));
      BucketAddContents(BucketFor(t, c.id), t.k, c);
    }
    if id != t.local {
      assert BucketOk(t.local, t.k, Slot(t.local, id), BucketFor(t, id));
      WithoutContents(BucketFor(t, id), id);
    }
  }

  // ---------------------------------------------------------------------------
  // The mutable objects
  // ---------------------------------------------------------------------------

  class KBucket {
    const k: int
    var contacts: seq<Contact>

    constructor (k: int)
      ensures this.k == k && contacts == []
    {
      this.k := k;
      contacts := [];
    }

    function IsFull(): (full: bool)
      reads this
    {
      |contacts| >= k
    }

    method AddContact(c: Contact) returns (accepted: bool)
      modifies this
      ensures contacts == BucketAdd(old(contacts), k, c)
      ensures accepted == BucketAccepts(old(contacts), k, c)
    {
      if HasId(contacts, c.id) {
        contacts := Without(contacts, c.id);
        contacts := contacts + [c];
        return true;
      }
      if !IsFull() {
        contacts := contacts + [c];
        return true;
      }
      return false;
    }

    method RemoveContact(id: NodeId) returns (found: bool)
      modifies this
      ensures contacts == Without(old(contacts), id)
      ensures found == HasId(old(contacts), id)
    {
      for i := 0 to |contacts|
        invariant contacts == old(contacts)
        invariant forall j :: 0 <= j < i ==> contacts[j].id != id
      {
        if contacts[i].id == id {
          contacts := Without(contacts, id);
          return true;
        }
      }
      HasIdIffIndex(contacts, id);
      WithoutCuts(contacts, id);
      return false;
    }

    method GetContact(id: NodeId) returns (r: Option<Contact>)
      ensures r == Find(contacts, id)
    {
      for i := 0 to |contacts|
        invariant Find(contacts[i..], id) == Find(contacts, id)
      {
        if contacts[i].id == id {
          return Some(contacts[i]);
        }
      }
      return None;
    }
  }

  class RoutingTable {
    const local: NodeId
    const k: int
    const buckets: seq<KBucket>

    ghost predicate Valid() {
      && |buckets| == ID_BITS
      && (forall i, j :: 0 <= i < j < |buckets| ==> buckets[i] != buckets[j])
      && (forall i :: 0 <= i < |buckets| ==> buckets[i].k == k)
    }

    /** The table as a value. */
    ghost function State(): (t: Table)
      reads buckets
      ensures |t.buckets| == |buckets| && t.local == local && t.k == k
      ensures forall i :: 0 <= i < |buckets| ==> t.buckets[i] == buckets[i].contacts
    {
      Table(local, k, seq(|buckets|, i requires 0 <= i < |buckets| reads buckets => buckets[i].contacts))
    }

    constructor (local: NodeId, k: int)
      ensures Valid() && fresh(buckets)
      ensures State() == EmptyTable(local, k)
    {
      this.local := local;
      this.k := k;
      var bs: seq<KBucket> := [];
      for i := 0 to ID_BITS
        invariant |bs| == i
        invariant forall a, b :: 0 <= a < b < i ==> bs[a] != bs[b]
        invariant forall a :: 0 <= a < i ==> fresh(bs[a]) && bs[a].k == k && bs[a].contacts == []
      {
        var b := new KBucket(k);
        bs := bs + [b];
      }
      buckets := bs;
    }

    method AddContact(c: Contact) returns (r: Result<bool>)
      requires Valid()
      modifies buckets
      ensures (State(), r) == TableAdd(old(State()), c)
    {
      if c.id == local {
        return Err(ValueError);
      }
      var index := BucketIndex(local, c.id);
      var accepted := buckets[index.value].AddContact(c);
      assert State().buckets == TableAdd(old(State()), c).0.buckets;
      return Ok(accepted);
    }

    method RemoveContact(id: NodeId) returns (found: bool)
      requires Valid()
      modifies buckets
      ensures (State(), found) == TableRemove(old(State()), id)
    {
      if id == local {
        return false;
      }
      var index := BucketIndex(local, id);
      found := buckets[index.value].RemoveContact(id);
      assert State().buckets == TableRemove(old(State()), id).0.buckets;
    }

    method GetContact(id: NodeId) returns (r: Option<Contact>)
      requires Valid()
      ensures r == TableGet(State(), id)
    {
      if id == local {
        return None;
      }
      var index := BucketIndex(local, id);
      r := buckets[index.value].GetContact(id);
    }

    method GetAllContacts() returns (all: seq<Contact>)
      requires Valid()
      ensures all == AllContacts(State())
    {
      all := [];
      for i := 0 to |buckets|
        invariant all == Flatten(State().buckets, i)
      {
        all := all + buckets[i].contacts;
      }
    }
  }
}
