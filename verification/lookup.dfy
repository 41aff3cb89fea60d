/** Nearest-contact lookup in a routing table, and its reading as a walk over the buckets. */
module Lookups {
  import opened Wrappers
  import Bits
  import opened NodeIds
  import opened Sorting
  import opened RoutingTables

  function ByDistance(target: NodeId): Contact -> real {
    (c: Contact) => Distance(c.id, target) as real
  }

  /** Every contact of the table, nearest to the target first. */
  function FullOrder(t: Table, target: NodeId): seq<Contact> {
    SortBy(AllContacts(t), ByDistance(target))
  }

  /** The slice `s[:k]`. */
  function Take<T>(s: seq<T>, k: nat): seq<T> {
    if |s| <= k then s else s[..k]
  }

  function Closest(t: Table, k: nat, target: Bytes): Result<seq<Contact>> {
    if |target| != ID_BYTES then Err(ValueError) else Ok(Take(FullOrder(t, target), k))
  }

  function ClosestHex(t: Table, k: nat, targetHex: string): Result<seq<Contact>> {
    var target :- NodeIdFromHex(targetHex);
    Closest(t, k, target)
  }

  // ---------------------------------------------------------------------------
  // What a lookup returns
  // ---------------------------------------------------------------------------

  /** Looking up the printed form of an id, in either case, looks up the id; text that is not the printed
      form of 32 bytes is an error. */
  lemma HexLookupIsLookup(t: Table, k: nat, target: NodeId, text: string)
    ensures ClosestHex(t, k, ToHex(target)) == ClosestHex(t, k, UpperCase(ToHex(target))) == Closest(t, k, target)
    ensures Closest(t, k, target).Ok?
    ensures NodeIdFromHex(text).Err? ==> ClosestHex(t, k, text) == Err(ValueError)
  {
    HexRoundTrip(target);
    UpperCaseParses(target);
  }

  /** Distinct ids have distinct distances. */
  lemma DistinctIdsDistinctKeys(s: seq<Contact>, target: NodeId)
    requires DistinctIds(s)
    ensures DistinctKeys(s, ByDistance(target))
  {
    forall i, j | 0 <= i < j < |s|
      ensures ByDistance(target)(s[i]) != ByDistance(target)(s[j])
    {
      SameDistanceSameId(s[i].id, s[j].id, target);
    }
  }

  lemma SameDistanceSameId(a: NodeId, b: NodeId, target: NodeId)
    ensures Distance(a, target) == Distance(b, target) ==> a == b
  {
    DistanceSymmetric(a, target);
    DistanceSymmetric(b, target);
    DistanceUnidirectional(target, a, b);
  }

  lemma FullOrderStrict(t: Table, target: NodeId)
    requires TableOk(t)
    ensures StrictlySorted(FullOrder(t, target), ByDistance(target))
    ensures |FullOrder(t, target)| == |AllContacts(t)|
    ensures forall c :: c in FullOrder(t, target) <==> c in AllContacts(t)
  {
    FlattenDistinct(t, ID_BITS);
    DistinctIdsDistinctKeys(AllContacts(t), target);
    SortStrict(AllContacts(t), ByDistance(target));
    SortContents(AllContacts(t), ByDistance(target));
  }

  /** A lookup returns the min(k, n) nearest contacts of the table: strictly nearer first, and
      every contact left out is strictly farther than every contact returned. */
  lemma FindClosestIsNearest(t: Table, k: nat, target: NodeId)
    requires TableOk(t)
    ensures var r := Closest(t, k, target).value;
            && |r| == (if k <= |AllContacts(t)| then k else |AllContacts(t)|)
            && (forall i, j :: 0 <= i < j < |r| ==> Distance(r[i].id, target) < Distance(r[j].id, target))
            && (forall c :: c in r ==> c in AllContacts(t))
            && (forall c, d :: c in AllContacts(t) && c !in r && d in r ==>
                                 Distance(d.id, target) < Distance(c.id, target))
  {
    FullOrderStrict(t, target);
    var all, r := FullOrder(t, target), Closest(t, k, target).value;
    PrefixStrict(all, k, target);
    forall c, d | c in AllContacts(t) && c !in r && d in r
      ensures Distance(d.id, target) < Distance(c.id, target)
    {
      PrefixIsNearest(all, k, target, c, d);
    }
  }

  lemma PrefixStrict(all: seq<Contact>, k: nat, target: NodeId)
    requires StrictlySorted(all, ByDistance(target))
    ensures var r := Take(all, k);
            && (forall i, j :: 0 <= i < j < |r| ==> Distance(r[i].id, target) < Distance(r[j].id, target))
            && (forall c :: c in r ==> c in all)
  {
    var r, key := Take(all, k), ByDistance(target);
    forall i, j | 0 <= i < j < |r|
      ensures Distance(r[i].id, target) < Distance(r[j].id, target)
    {
      assert key(all[i]) < key(all[j]);
    }
  }

  lemma PrefixIsNearest(all: seq<Contact>, k: nat, target: NodeId, c: Contact, d: Contact)
    requires StrictlySorted(all, ByDistance(target))
    requires c in all && c !in Take(all, k) && d in Take(all, k)
    ensures Distance(d.id, target) < Distance(c.id, target)
  {
    var r, key := Take(all, k), ByDistance(target);
    var i :| 0 <= i < |all| && all[i] == c;
    var j :| 0 <= j < |r| && r[j] == d;
    assert |r| <= i;
    assert key(all[j]) < key(all[i]);
  }

  function Ids(s: seq<Contact>): seq<NodeId> {
    seq(|s|, i requires 0 <= i < |s| => s[i].id)
  }

  ghost predicate SameIds(s: seq<Contact>, t: seq<Contact>) {
    forall id :: HasId(s, id) <==> HasId(t, id)
  }

  /** The ids found depend only on the set of stored ids: not on the owner of the table, its
      bucket size, its addresses, or the order in which contacts came in or were refreshed. */
  lemma FindClosestIgnoresHistory(t: Table, u: Table, k: nat, target: NodeId)
    requires TableOk(t) && TableOk(u)
    requires SameIds(AllContacts(t), AllContacts(u))
    ensures Ids(Closest(t, k, target).value) == Ids(Closest(u, k, target).value)
  {
    FullOrderStrict(t, target);
    FullOrderStrict(u, target);
    var a, b := FullOrder(t, target), FullOrder(u, target);
    IdsStrict(a, target);
    IdsStrict(b, target);
    forall id
      ensures id in Ids(a) <==> id in Ids(b)
    {
      IdsMember(a, AllContacts(t), id);
      IdsMember(b, AllContacts(u), id);
    }
    StrictlySortedUnique(Ids(a), Ids(b), IdDistance(target));
    assert |a| == |Ids(a)| && |b| == |Ids(b)|;
    assert Ids(Take(a, k)) == Take(Ids(a), k);
    assert Ids(Take(b, k)) == Take(Ids(b), k);
  }

  ghost function IdDistance(target: NodeId): NodeId -> real {
    (id: NodeId) => Distance(id, target) as real
  }

  lemma IdsStrict(s: seq<Contact>, target: NodeId)
    requires StrictlySorted(s, ByDistance(target))
    ensures StrictlySorted(Ids(s), IdDistance(target))
  {
    forall i, j | 0 <= i < j < |s|
      ensures IdDistance(target)(Ids(s)[i]) < IdDistance(target)(Ids(s)[j])
    {
      assert ByDistance(target)(s[i]) < ByDistance(target)(s[j]);
    }
  }

  lemma IdsMember(s: seq<Contact>, all: seq<Contact>, id: NodeId)
    requires forall c :: c in s <==> c in all
    ensures id in Ids(s) <==> HasId(all, id)
  {
    if id in Ids(s) {
      var i :| 0 <= i < |s| && Ids(s)[i] == id;
      assert s[i] in all;
    }
    if HasId(all, id) {
      var c :| c in all && c.id == id;
      var i :| 0 <= i < |s| && s[i] == c;
      assert Ids(s)[i] == id;
    }
  }

  // ---------------------------------------------------------------------------
  // The walk over the buckets
  // ---------------------------------------------------------------------------

  /** The pieces below n whose mark is set, high to low. */
  function HighToLow(pieces: seq<seq<Contact>>, marks: seq<bool>, n: nat): seq<Contact>
    requires n <= |pieces| == |marks|
  {
    if n == 0 then [] else (if marks[n - 1] then pieces[n - 1] else []) + HighToLow(pieces, marks, n - 1)
  }

  /** The pieces below n whose mark is clear, low to high. */
  function LowToHigh(pieces: seq<seq<Contact>>, marks: seq<bool>, n: nat): seq<Contact>
    requires n <= |pieces| == |marks|
  {
    if n == 0 then [] else LowToHigh(pieces, marks, n - 1) + (if marks[n - 1] then [] else pieces[n - 1])
  }

  function WalkPieces(pieces: seq<seq<Contact>>, marks: seq<bool>, n: nat): seq<Contact>
    requires n <= |pieces| == |marks|
  {
    HighToLow(pieces, marks, n) + LowToHigh(pieces, marks, n)
  }

  /** The buckets, each sorted by distance to the target. */
  function SortedBuckets(t: Table, target: NodeId): seq<seq<Contact>> {
    seq(|t.buckets|, j requires 0 <= j < |t.buckets| => SortBy(t.buckets[j], ByDistance(target)))
  }

  /** The bits of the distance from the owner of the table to the target. */
  function DistanceBits(t: Table, target: NodeId): seq<bool> {
    seq(|t.buckets|, j requires 0 <= j < |t.buckets| => Bits.Bit(Distance(t.local, target), j))
  }

  /** First the buckets whose bit is set, high to low, then those whose bit is clear, low to high. */
  function BucketWalk(t: Table, target: NodeId): seq<Contact> {
    WalkPieces(SortedBuckets(t, target), DistanceBits(t, target), |t.buckets|)
  }

  /** The top piece goes in front of all lower ones or behind them. */
  lemma WalkUnfolds(pieces: seq<seq<Contact>>, marks: seq<bool>, n: nat)
    requires 0 < n <= |pieces| == |marks|
    ensures var lower := WalkPieces(pieces, marks, n - 1);
            WalkPieces(pieces, marks, n) == if marks[n - 1] then pieces[n - 1] + lower else lower + pieces[n - 1]
  {
  }

  lemma InConcat(a: seq<Contact>, b: seq<Contact>, c: Contact)
    ensures c in a + b <==> c in a || c in b
  {
  }

  lemma {:induction false} WalkMember(pieces: seq<seq<Contact>>, marks: seq<bool>, n: nat, c: Contact)
    requires n <= |pieces| == |marks|
    ensures c in WalkPieces(pieces, marks, n) <==> InSome(pieces, n, c)
  {
    if n > 0 {
      WalkUnfolds(pieces, marks, n);
      InConcat(pieces[n - 1], WalkPieces(pieces, marks, n - 1), c);
      InConcat(WalkPieces(pieces, marks, n - 1), pieces[n - 1], c);
      InSomeStep(pieces, n, c);
      WalkMember(pieces, marks, n - 1, c);
    }
  }

  /** Every element of p goes before every element of w, or behind it. */
  ghost predicate Apart(p: seq<Contact>, w: seq<Contact>, key: Contact -> real, first: bool) {
    forall x, y :: x in p && y in w ==> if first then key(x) < key(y) else key(y) < key(x)
  }

  /** Piece j is sorted and lies apart from the lower pieces on the side of its mark. */
  ghost predicate Fits(pieces: seq<seq<Contact>>, marks: seq<bool>, key: Contact -> real, j: nat)
    requires j < |pieces| == |marks|
  {
    && StrictlySorted(pieces[j], key)
    && forall i :: 0 <= i < j ==> Apart(pieces[j], pieces[i], key, marks[j])
  }

  ghost predicate Ordered(pieces: seq<seq<Contact>>, marks: seq<bool>, key: Contact -> real)
    requires |pieces| == |marks|
  {
    forall j :: 0 <= j < |pieces| ==> Fits(pieces, marks, key, j)
  }

  lemma ConcatStrict(p: seq<Contact>, w: seq<Contact>, key: Contact -> real, first: bool, r: seq<Contact>)
    requires StrictlySorted(p, key) && StrictlySorted(w, key) && Apart(p, w, key, first)
    requires r == if first then p + w else w + p
    ensures StrictlySorted(r, key)
  {
  }

  lemma PieceApartFromLower(pieces: seq<seq<Contact>>, marks: seq<bool>, key: Contact -> real, n: nat)
    requires n < |pieces| == |marks| && Fits(pieces, marks, key, n)
    ensures Apart(pieces[n], WalkPieces(pieces, marks, n), key, marks[n])
  {
    forall x, y | x in pieces[n] && y in WalkPieces(pieces, marks, n)
      ensures if marks[n] then key(x) < key(y) else key(y) < key(x)
    {
      WalkMember(pieces, marks, n, y);
      assert InSome(pieces, n, y);
      var i :| 0 <= i < n && y in pieces[i];
      assert Apart(pieces[n], pieces[i], key, marks[n]);
    }
  }

  lemma WalkStrictStep(pieces: seq<seq<Contact>>, marks: seq<bool>, key: Contact -> real, n: nat)
    requires n < |pieces| == |marks|
    requires StrictlySorted(pieces[n], key) && StrictlySorted(WalkPieces(pieces, marks, n), key)
    requires Apart(pieces[n], WalkPieces(pieces, marks, n), key, marks[n])
    ensures StrictlySorted(WalkPieces(pieces, marks, n + 1), key)
  {
    WalkUnfolds(pieces, marks, n + 1);
    ConcatStrict(pieces[n], WalkPieces(pieces, marks, n), key, marks[n], WalkPieces(pieces, marks, n + 1));
  }

  lemma {:induction false} WalkStrict(pieces: seq<seq<Contact>>, marks: seq<bool>, key: Contact -> real, n: nat)
    requires n <= |pieces| == |marks| && Ordered(pieces, marks, key)
    ensures StrictlySorted(WalkPieces(pieces, marks, n), key)
  {
    if n > 0 {
      WalkStrict(pieces, marks, key, n - 1);
      assert Fits(pieces, marks, key, n - 1);
      PieceApartFromLower(pieces, marks, key, n - 1);
      WalkStrictStep(pieces, marks, key, n - 1);
    }
  }

  /** The sorted buckets of a table lie apart as the bits say. */
  lemma BucketsOrdered(t: Table, target: NodeId)
    requires TableOk(t)
    ensures Ordered(SortedBuckets(t, target), DistanceBits(t, target), ByDistance(target))
  {
    var key := ByDistance(target);
    forall j | 0 <= j < ID_BITS
      ensures StrictlySorted(SortBy(t.buckets[j], key), key)
    {
      assert BucketOk(t.local, t.k, j, t.buckets[j]);
      DistinctIdsDistinctKeys(t.buckets[j], target);
      SortStrict(t.buckets[j], key);
    }
    forall i, j | 0 <= i < j < ID_BITS
      ensures Apart(SortBy(t.buckets[j], key), SortBy(t.buckets[i], key), key, Bits.Bit(Distance(t.local, target), j))
    {
      BucketsApart(t, target, i, j);
    }
  }

  lemma BucketsApart(t: Table, target: NodeId, i: nat, j: nat)
    requires TableOk(t) && i < j < ID_BITS
    ensures var key := ByDistance(target);
            Apart(SortBy(t.buckets[j], key), SortBy(t.buckets[i], key), key, Bits.Bit(Distance(t.local, target), j))
  {
    var key := ByDistance(target);
    SortContents(t.buckets[i], key);
    SortContents(t.buckets[j], key);
    assert BucketOk(t.local, t.k, i, t.buckets[i]) && BucketOk(t.local, t.k, j, t.buckets[j]);
    forall x, y | x in SortBy(t.buckets[j], key) && y in SortBy(t.buckets[i], key)
      ensures if Bits.Bit(Distance(t.local, target), j) then key(x) < key(y) else key(y) < key(x)
    {
      HigherBucketIsNearerIff(t.local, target, x.id, y.id);
    }
  }

  lemma BucketWalkMember(t: Table, target: NodeId, c: Contact)
    ensures c in BucketWalk(t, target) <==> c in AllContacts(t)
  {
    var pieces := SortedBuckets(t, target);
    WalkMember(pieces, DistanceBits(t, target), |t.buckets|, c);
    FlattenMember(t.buckets, |t.buckets|, c);
    forall j | 0 <= j < |t.buckets|
      ensures c in pieces[j] <==> c in t.buckets[j]
    {
      SortContents(t.buckets[j], ByDistance(target));
    }
  }

  /** Sorting the whole table equals walking its buckets in the order fixed by the bits of the
      distance to the target, so a lookup is a walk cut off after k contacts. */
  lemma FindClosestIsBucketWalk(t: Table, k: nat, target: NodeId)
    requires TableOk(t)
    ensures FullOrder(t, target) == BucketWalk(t, target)
    ensures Closest(t, k, target) == Ok(Take(BucketWalk(t, target), k))
  {
    FullOrderStrict(t, target);
    BucketsOrdered(t, target);
    WalkStrict(SortedBuckets(t, target), DistanceBits(t, target), ByDistance(target), ID_BITS);
    forall c
      ensures c in FullOrder(t, target) <==> c in BucketWalk(t, target)
    {
      BucketWalkMember(t, target, c);
    }
    StrictlySortedUnique(FullOrder(t, target), BucketWalk(t, target), ByDistance(target));
  }

  // ---------------------------------------------------------------------------
  // The lookup object
  // ---------------------------------------------------------------------------

  class PeerLookup {
    const table: RoutingTable
    const k: nat

    constructor (table: RoutingTable, k: nat)
      requires k >= 1
      ensures this.table == table && this.k == k
    {
      this.table := table;
      this.k := k;
    }

    /** The checked construction: a limit below one is an error. */
    static method Create(table: RoutingTable, k: int) returns (r: Result<PeerLookup>)
      ensures r.Ok? <==> k >= 1
      ensures r.Ok? ==> r.value.table == table && r.value.k == k
    {
      if k < 1 {
        return Err(ValueError);
      }
      var lookup := new PeerLookup(table, k);
      return Ok(lookup);
    }

    method FindClosest(target: Bytes) returns (r: Result<seq<Contact>>)
      requires table.Valid()
      ensures r == Closest(table.State(), k, target)
    {
      if |target| != ID_BYTES {
        return Err(ValueError);
      }
      var all := table.GetAllContacts();
      all := SortBy(all, ByDistance(target));
      return Ok(Take(all, k));
    }

    method FindClosestHex(targetHex: string) returns (r: Result<seq<Contact>>)
      requires table.Valid()
      ensures r == ClosestHex(table.State(), k, targetHex)
    {
      var target := NodeIdFromHex(targetHex);
      if target.Err? {
        return Err(target.error);
      }
      r := FindClosest(target.value);
    }
  }
}
