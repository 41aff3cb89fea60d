/** The gossiped load table: how it is fed, how it expires, and how a peer is selected from it. */
module LoadSelection {
  import opened Wrappers
  import opened Sorting

  /** A gossip record; a missing field is None. */
  datatype Raw = Raw(nodeId: Option<string>, cpu: Option<real>, ram: Option<real>, timestamp: Option<real>)

  datatype Slot = Slot(key: string, raw: Raw)

  /** A dict in insertion order. */
  type LoadTable = seq<Slot>

  datatype LoadEntry = LoadEntry(nodeId: string, cpu: real, ram: real, timestamp: real)

  function FromDict(raw: Raw): Result<LoadEntry> {
    if raw.nodeId.None? || raw.cpu.None? || raw.ram.None? || raw.timestamp.None? then Err(KeyError)
    else Ok(LoadEntry(raw.nodeId.value, raw.cpu.value, raw.ram.value, raw.timestamp.value))
  }

  // ---------------------------------------------------------------------------
  // Selection
  // ---------------------------------------------------------------------------

  /** The settings of a LoadSelector; construction demands Valid. */
  datatype Selector = Selector(local: string, staleAfter: real) {
    predicate Valid() {
      local != "" && staleAfter > 0.0
    }
  }

  /** The checked construction. */
  function MakeSelector(local: string, staleAfter: real): (r: Result<Selector>)
    ensures r.Ok? <==> local != "" && staleAfter > 0.0
    ensures r.Ok? ==> r.value.Valid() && r.value.local == local && r.value.staleAfter == staleAfter
  {
    if local == "" then Err(ValueError)
    else if staleAfter <= 0.0 then Err(ValueError)
    else Ok(Selector(local, staleAfter))
  }

  datatype Selection = Selection(winner: Option<LoadEntry>, candidates: seq<LoadEntry>, stale: nat, local: nat)

  function ByCpu(): LoadEntry -> real {
    (e: LoadEntry) => e.cpu
  }

  datatype Verdict = Malformed | OwnRecord | Stale | Candidate(entry: LoadEntry)

  function Judge(sel: Selector, raw: Raw, now: real): Verdict {
    var e := FromDict(raw);
    if e.Err? then Malformed
    else if e.value.nodeId == sel.local then OwnRecord
    else if now - e.value.timestamp >= sel.staleAfter then Stale
    else Candidate(e.value)
  }

  function Candidates(sel: Selector, t: LoadTable, now: real): seq<LoadEntry> {
    if t == [] then []
    else
      var front, v := Candidates(sel, t[..|t| - 1], now), Judge(sel, t[|t| - 1].raw, now);
      if v.Candidate? then front + [v.entry] else front
  }

  /** How many records get this verdict. */
  function Count(sel: Selector, t: LoadTable, now: real, verdict: Verdict): nat {
    if t == [] then 0
    else Count(sel, t[..|t| - 1], now, verdict) + if Judge(sel, t[|t| - 1].raw, now) == verdict then 1 else 0
  }

  function Pick(candidates: seq<LoadEntry>): Option<LoadEntry> {
    if candidates == [] then None else Some(FirstMin(candidates, ByCpu()))
  }

  function Select(sel: Selector, t: LoadTable, now: real): Selection {
    var candidates := Candidates(sel, t, now);
    Selection(Pick(candidates), candidates, Count(sel, t, now, Stale), Count(sel, t, now, OwnRecord))
  }

  function FilterCandidates(sel: Selector, t: LoadTable, now: real): seq<LoadEntry> {
    SortBy(Select(sel, t, now).candidates, ByCpu())
  }

  method SelectPeer(sel: Selector, t: LoadTable, now: real) returns (r: Selection)
    ensures r == Select(sel, t, now)
  {
    var stale, local, candidates := 0, 0, [];
    for i := 0 to |t|
      invariant candidates == Candidates(sel, t[..i], now)
      invariant stale == Count(sel, t[..i], now, Stale) && local == Count(sel, t[..i], now, OwnRecord)
    {
      assert t[..i + 1][..i] == t[..i];
      var entry := FromDict(t[i].raw);
      if entry.Err? {
        continue;
      }
      if entry.value.nodeId == sel.local {
        local := local + 1;
        continue;
      }
      if now - entry.value.timestamp >= sel.staleAfter {
        stale := stale + 1;
        continue;
      }
      candidates := candidates + [entry.value];
    }
    assert t[..|t|] == t;
    var winner := if candidates == [] then None else Some(FirstMin(candidates, ByCpu()));
    return Selection(winner, candidates, stale, local);
  }

  /** A complete record of another node that is younger than the limit. */
  predicate Eligible(sel: Selector, raw: Raw, now: real) {
    && raw.nodeId.Some? && raw.cpu.Some? && raw.ram.Some? && raw.timestamp.Some?
    && raw.nodeId.value != sel.local && now - raw.timestamp.value < sel.staleAfter
  }

  /** The record with the fields of an entry. */
  function RawOf(e: LoadEntry): Raw {
    Raw(Some(e.nodeId), Some(e.cpu), Some(e.ram), Some(e.timestamp))
  }

  /** The candidates are exactly the complete, foreign records younger than the limit, field by field. */
  lemma {:induction false} CandidateIff(sel: Selector, t: LoadTable, now: real, e: LoadEntry)
    ensures e in Candidates(sel, t, now) <==>
            exists i :: 0 <= i < |t| && t[i].raw == Raw(Some(e.nodeId), Some(e.cpu), Some(e.ram), Some(e.timestamp))
                        && e.nodeId != sel.local && now - e.timestamp < sel.staleAfter
  {
    if t != [] {
      var front := t[..|t| - 1];
      CandidateIff(sel, front, now, e);
      var here := Judge(sel, t[|t| - 1].raw, now) == Candidate(e);
      assert e in Candidates(sel, t, now) <==> here || e in Candidates(sel, front, now);
      assert here <==> t[|t| - 1].raw == RawOf(e) && e.nodeId != sel.local && now - e.timestamp < sel.staleAfter;
    }
  }

  /** A selection over two tables is put together from those over each, ... */
  lemma {:induction false} SelectConcat(sel: Selector, a: LoadTable, b: LoadTable, now: real)
    ensures var r, ra, rb := Select(sel, a + b, now), Select(sel, a, now), Select(sel, b, now);
            r.candidates == ra.candidates + rb.candidates && r.stale == ra.stale + rb.stale && r.local == ra.local + rb.local
  {
    if b == [] {
      assert a + b == a;
    } else {
      SelectConcat(sel, a, b[..|b| - 1], now);
      assert (a + b)[..|a + b| - 1] == a + b[..|b| - 1];
    }
  }

  /** ... and one record is a candidate, or counts as the own one or as stale, or for nothing at all, as
      its fields say. */
  lemma SelectOne(sel: Selector, key: string, raw: Raw, now: real)
    ensures var r := Select(sel, [Slot(key, raw)], now);
            if raw.nodeId == None || raw.cpu == None || raw.ram == None || raw.timestamp == None then
              r == Selection(None, [], 0, 0)
            else if raw.nodeId.value == sel.local then
              r == Selection(None, [], 0, 1)
            else if now - raw.timestamp.value >= sel.staleAfter then
              r == Selection(None, [], 1, 0)
            else
              var e := LoadEntry(raw.nodeId.value, raw.cpu.value, raw.ram.value, raw.timestamp.value);
              r == Selection(Some(e), [e], 0, 0)
  {
    var t, v := [Slot(key, raw)], Judge(sel, raw, now);
    assert t[..|t| - 1] == [];
    assert Candidates(sel, t, now) == if v.Candidate? then [v.entry] else [];
    assert forall w :: Count(sel, t, now, w) == if v == w then 1 else 0;
  }

  /** There is a winner exactly if some record is eligible; it is one of these as the table has it, and no
      eligible record reports a lower load. */
  lemma WinnerIsLeastLoaded(sel: Selector, t: LoadTable, now: real)
    ensures var w := Select(sel, t, now).winner;
            && (w.Some? <==> exists i :: 0 <= i < |t| && Eligible(sel, t[i].raw, now))
            && (w.Some? ==> exists i :: 0 <= i < |t| && Eligible(sel, t[i].raw, now) && t[i].raw == RawOf(w.value))
            && (w.Some? ==> forall i :: 0 <= i < |t| && Eligible(sel, t[i].raw, now) ==> w.value.cpu <= t[i].raw.cpu.value)
  {
    var candidates := Candidates(sel, t, now);
    forall i | 0 <= i < |t| && Eligible(sel, t[i].raw, now)
      ensures candidates != [] && FirstMin(candidates, ByCpu()).cpu <= t[i].raw.cpu.value
    {
      EligibleIsCandidate(sel, t, now, i);
      var e := LoadEntry(t[i].raw.nodeId.value, t[i].raw.cpu.value, t[i].raw.ram.value, t[i].raw.timestamp.value);
      assert ByCpu()(FirstMin(candidates, ByCpu())) <= ByCpu()(e);
    }
    if candidates != [] {
      CandidateIff(sel, t, now, FirstMin(candidates, ByCpu()));
    }
  }

  lemma EligibleIsCandidate(sel: Selector, t: LoadTable, now: real, i: nat)
    requires i < |t| && Eligible(sel, t[i].raw, now)
    ensures var raw := t[i].raw;
            LoadEntry(raw.nodeId.value, raw.cpu.value, raw.ram.value, raw.timestamp.value) in Candidates(sel, t, now)
  {
    var raw := t[i].raw;
    CandidateIff(sel, t, now, LoadEntry(raw.nodeId.value, raw.cpu.value, raw.ram.value, raw.timestamp.value));
  }

  /** Every record is accounted for once. */
  lemma {:induction false} SelectAccounts(sel: Selector, t: LoadTable, now: real)
    ensures var r := Select(sel, t, now);
            |r.candidates| + r.stale + r.local + Count(sel, t, now, Malformed) == |t|
  {
    if t != [] {
      SelectAccounts(sel, t[..|t| - 1], now);
    }
  }

  /** The sorted list is a permutation of the candidates, ties in table order, headed by the winner. */
  lemma FilterHeadIsWinner(sel: Selector, t: LoadTable, now: real)
    ensures var f, r := FilterCandidates(sel, t, now), Select(sel, t, now);
            && multiset(f) == multiset(r.candidates)
            && (forall i, j :: 0 <= i < j < |f| ==> f[i].cpu <= f[j].cpu)
            && (forall v :: WithKey(f, ByCpu(), v) == WithKey(r.candidates, ByCpu(), v))
            && r.winner == (if f == [] then None else Some(f[0]))
  {
    var candidates := Candidates(sel, t, now);
    SortContents(candidates, ByCpu());
    SortSorts(candidates, ByCpu());
    forall v {
      SortStable(candidates, ByCpu(), v);
    }
    var f := FilterCandidates(sel, t, now);
    assert forall i, j :: 0 <= i < j < |f| ==> ByCpu()(f[i]) <= ByCpu()(f[j]);
    if candidates != [] {
      SortHeadIsFirstMin(candidates, ByCpu());
    }
  }

  // ---------------------------------------------------------------------------
  // Gossip
  // ---------------------------------------------------------------------------

  /** An incoming message: something else, or a resource update with or without a payload. */
  datatype Gossip = OtherGossip | Update(payload: Option<Raw>)

  const EMPTY := Raw(None, None, None, None)

  /** `table[key] = raw`. */
  function Put(t: LoadTable, key: string, raw: Raw): LoadTable {
    if t == [] then [Slot(key, raw)]
    else if t[0].key == key then [Slot(key, raw)] + t[1..]
    else [t[0]] + Put(t[1..], key, raw)
  }

  /** handle_incoming_gossip; a payload without an id raises. */
  function Incoming(nodeId: string, t: LoadTable, m: Gossip): Result<LoadTable> {
    if m.OtherGossip? || m.payload.None? || m.payload.value == EMPTY then Ok(t)
    else
      var raw := m.payload.value;
      if raw.nodeId == Some(nodeId) then Ok(t)
      else if raw.nodeId.None? then Err(KeyError)
      else Ok(Put(t, raw.nodeId.value, raw))
  }

  predicate Expired(raw: Raw, ttl: real, now: real) {
    now - (if raw.timestamp.Some? then raw.timestamp.value else 0.0) > ttl
  }

  function Cleanup(t: LoadTable, ttl: real, now: real): LoadTable {
    if t == [] then []
    else
      var front := Cleanup(t[..|t| - 1], ttl, now);
      if Expired(t[|t| - 1].raw, ttl, now) then front else front + [t[|t| - 1]]
  }

  // ---------------------------------------------------------------------------
  // Expiry against selection
  // ---------------------------------------------------------------------------

  lemma {:induction false} CleanupKeepsCandidates(sel: Selector, t: LoadTable, ttl: real, now: real)
    requires sel.staleAfter <= ttl
    ensures Candidates(sel, Cleanup(t, ttl, now), now) == Candidates(sel, t, now)
  {
    if t != [] {
      var front, last := t[..|t| - 1], t[|t| - 1];
      var kept := Cleanup(front, ttl, now);
      CleanupKeepsCandidates(sel, front, ttl, now);
      assert (kept + [last])[..|kept|] == kept;
    }
  }

  lemma {:induction false} CleanupLeavesFresh(sel: Selector, t: LoadTable, ttl: real, now: real)
    requires ttl < sel.staleAfter
    ensures Count(sel, Cleanup(t, ttl, now), now, Stale) == 0
  {
    if t != [] {
      var front, last := t[..|t| - 1], t[|t| - 1];
      var kept := Cleanup(front, ttl, now);
      CleanupLeavesFresh(sel, front, ttl, now);
      assert (kept + [last])[..|kept|] == kept;
    }
  }

  /** One foreign record of the given age. */
  function Witness(sel: Selector, now: real, age: real): LoadTable {
    [Slot(sel.local + "x", Raw(Some(sel.local + "x"), Some(0.0), Some(0.0), Some(now - age)))]
  }

  lemma WitnessFate(sel: Selector, now: real, age: real, ttl: real)
    ensures var t := Witness(sel, now, age);
            && Cleanup(t, ttl, now) == (if age > ttl then [] else t)
            && |Candidates(sel, t, now)| == (if age >= sel.staleAfter then 0 else 1)
            && Count(sel, t, now, Stale) == (if age >= sel.staleAfter then 1 else 0)
  {
    var t := Witness(sel, now, age);
    assert t[..|t| - 1] == [];
    assert t[0].key != sel.local by {
      assert |t[0].key| == |sel.local| + 1;
    }
    assert Judge(sel, t[0].raw, now) == if age >= sel.staleAfter then Stale else Candidate(FromDict(t[0].raw).value);
  }

  /** Cleanup never changes the candidates or the winner of a selection at the same time, whatever the
      table, exactly when records go stale no later than they expire. */
  lemma CleanupIsInvisibleIff(sel: Selector, ttl: real, now: real)
    ensures (forall t :: Select(sel, Cleanup(t, ttl, now), now).candidates == Select(sel, t, now).candidates
                      && Select(sel, Cleanup(t, ttl, now), now).winner == Select(sel, t, now).winner)
            <==> sel.staleAfter <= ttl
  {
    if sel.staleAfter <= ttl {
      forall t: LoadTable {
        CleanupKeepsCandidates(sel, t, ttl, now);
      }
    } else {
      var age := (ttl + sel.staleAfter) / 2.0;
      var t := Witness(sel, now, age);
      WitnessFate(sel, now, age, ttl);
      assert Select(sel, Cleanup(t, ttl, now), now).candidates == [];
    }
  }

  /** A selection right after cleanup reports no stale record, whatever the table, exactly when records
      expire before they go stale. */
  lemma NoStaleAfterCleanupIff(sel: Selector, ttl: real, now: real)
    ensures (forall t :: Select(sel, Cleanup(t, ttl, now), now).stale == 0) <==> ttl < sel.staleAfter
  {
    if ttl < sel.staleAfter {
      forall t: LoadTable {
        CleanupLeavesFresh(sel, t, ttl, now);
      }
    } else {
      var t := Witness(sel, now, sel.staleAfter);
      WitnessFate(sel, now, sel.staleAfter, ttl);
      assert Select(sel, Cleanup(t, ttl, now), now).stale == 1;
    }
  }

  // ---------------------------------------------------------------------------
  // Runs of the load table
  // ---------------------------------------------------------------------------

  datatype Event = Receive(m: Gossip) | LocalUpdate(cpu: real, ram: real, now: real) | Clean(now: real)

  function OwnRaw(nodeId: string, cpu: real, ram: real, now: real): Raw {
    Raw(Some(nodeId), Some(cpu), Some(ram), Some(now))
  }

  function Apply(nodeId: string, ttl: real, t: LoadTable, e: Event): LoadTable {
    match e
    case Receive(m) => var r := Incoming(nodeId, t, m); if r.Ok? then r.value else t
    case LocalUpdate(cpu, ram, now) => Put(t, nodeId, OwnRaw(nodeId, cpu, ram, now))
    case Clean(now) => Cleanup(t, ttl, now)
  }

  function Run(nodeId: string, ttl: real, es: seq<Event>): LoadTable {
    if es == [] then [] else Apply(nodeId, ttl, Run(nodeId, ttl, es[..|es| - 1]), es[|es| - 1])
  }

  /** The record that an event offers for a peer: only local updates speak for the node itself. */
  function Offer(nodeId: string, p: string, e: Event): Option<Raw> {
    match e
    case Receive(Update(Some(raw))) => if raw.nodeId == Some(p) && p != nodeId then Some(raw) else None
    case LocalUpdate(cpu, ram, now) => if p == nodeId then Some(Raw(Some(nodeId), Some(cpu), Some(ram), Some(now))) else None
    case _ => None
  }

  function LastOffer(nodeId: string, p: string, es: seq<Event>): Option<Raw> {
    if es == [] then None
    else
      var o := Offer(nodeId, p, es[|es| - 1]);
      if o.Some? then o else LastOffer(nodeId, p, es[..|es| - 1])
  }

  ghost predicate UniqueKeys(t: LoadTable) {
    forall i, j :: 0 <= i < j < |t| ==> t[i].key != t[j].key
  }

  /** Storing under a key replaces the record of that key and keeps every other one, ... */
  lemma {:induction false} PutSlots(t: LoadTable, key: string, raw: Raw)
    requires UniqueKeys(t)
    ensures var u := Put(t, key, raw);
            && UniqueKeys(u)
            && (forall s :: s in u <==> s == Slot(key, raw) || (s in t && s.key != key))
  {
    if t != [] && t[0].key != key {
      PutSlots(t[1..], key, raw);
      var rest := Put(t[1..], key, raw);
      assert t == [t[0]] + t[1..];
      forall i | 0 <= i < |rest|
        ensures rest[i].key != t[0].key
      {
        assert rest[i] in rest;
      }
    } else if t != [] {
      assert t == [t[0]] + t[1..];
      assert forall s :: s in t[1..] ==> s.key != key;
    }
  }

  /** ... each in its place. */
  lemma {:induction false} PutKeepsPlaces(t: LoadTable, key: string, raw: Raw)
    ensures var u := Put(t, key, raw);
            |t| <= |u| && (forall i :: 0 <= i < |t| ==> u[i].key == t[i].key)
  {
    if t != [] && t[0].key != key {
      PutKeepsPlaces(t[1..], key, raw);
    }
  }

  /** Cleanup drops the records older than the limit, a missing timestamp counting as zero, and alters
      none. */
  lemma {:induction false} CleanupSlots(t: LoadTable, ttl: real, now: real)
    requires UniqueKeys(t)
    ensures var u := Cleanup(t, ttl, now);
            && UniqueKeys(u)
            && (forall s :: s in u <==>
                  s in t && (if s.raw.timestamp == None then now <= ttl else now - s.raw.timestamp.value <= ttl))
  {
    if t != [] {
      var front, last := t[..|t| - 1], t[|t| - 1];
      assert t == front + [last];
      CleanupSlots(front, ttl, now);
      var kept := Cleanup(front, ttl, now);
      forall i | 0 <= i < |kept|
        ensures kept[i].key != last.key
      {
        assert kept[i] in kept;
      }
    }
  }

  /** Cleanup keeps the order of what it keeps. */
  lemma {:induction false} CleanupConcat(a: LoadTable, b: LoadTable, ttl: real, now: real)
    ensures Cleanup(a + b, ttl, now) == Cleanup(a, ttl, now) + Cleanup(b, ttl, now)
  {
    if b == [] {
      assert a + b == a;
    } else {
      CleanupConcat(a, b[..|b| - 1], ttl, now);
      assert (a + b)[..|a + b| - 1] == a + b[..|b| - 1];
    }
  }

  /** An update raises exactly if its payload has fields but no id. */
  lemma IncomingRaisesIff(nodeId: string, t: LoadTable, m: Gossip)
    ensures Incoming(nodeId, t, m) == Err(KeyError) <==>
            m.Update? && m.payload.Some? && m.payload.value.nodeId == None && m.payload.value != Raw(None, None, None, None)
    ensures Incoming(nodeId, t, m).Err? ==> Incoming(nodeId, t, m) == Err(KeyError)
  {
  }

  /** The record that should be on file for a peer, read off the events alone: the last one offered,
      unless a later cleanup found it expired. */
  function Current(nodeId: string, ttl: real, p: string, es: seq<Event>): Option<Raw> {
    if es == [] then None
    else
      var before, o := Current(nodeId, ttl, p, es[..|es| - 1]), Offer(nodeId, p, es[|es| - 1]);
      if o.Some? then o
      else if es[|es| - 1].Clean? && before.Some? && Expired(before.value, ttl, es[|es| - 1].now) then None
      else before
  }

  /** What is on file is the last record offered, whatever its timestamp. */
  lemma {:induction false} CurrentIsLastOffer(nodeId: string, ttl: real, p: string, es: seq<Event>)
    ensures var c := Current(nodeId, ttl, p, es);
            c.Some? ==> c == LastOffer(nodeId, p, es) && c.value.nodeId == Some(p)
  {
    if es != [] {
      CurrentIsLastOffer(nodeId, ttl, p, es[..|es| - 1]);
    }
  }

  /** On every run the table holds at most one record a peer, and exactly these: under each id the last
      record received for it, whatever its timestamp, unless a later cleanup found it expired. No
      gossip from outside speaks for the node itself. */
  lemma {:induction false} TableKeepsLastReceived(nodeId: string, ttl: real, es: seq<Event>)
    ensures var t := Run(nodeId, ttl, es);
            && UniqueKeys(t)
            && (forall s :: s in t <==> Current(nodeId, ttl, s.key, es) == Some(s.raw))
            && (forall s :: s in t ==> s.raw.nodeId == Some(s.key) && LastOffer(nodeId, s.key, es) == Some(s.raw))
  {
    if es != [] {
      var t, e := Run(nodeId, ttl, es[..|es| - 1]), es[|es| - 1];
      TableKeepsLastReceived(nodeId, ttl, es[..|es| - 1]);
      match e
      case Receive(m) =>
        if m.Update? && m.payload.Some? && m.payload.value.nodeId.Some? {
          PutSlots(t, m.payload.value.nodeId.value, m.payload.value);
        }
      case LocalUpdate(cpu, ram, now) =>
        PutSlots(t, nodeId, OwnRaw(nodeId, cpu, ram, now));
      case Clean(now) =>
        CleanupSlots(t, ttl, now);
    }
    forall s: Slot {
      CurrentIsLastOffer(nodeId, ttl, s.key, es);
    }
  }

  // ---------------------------------------------------------------------------
  // The gossip object
  // ---------------------------------------------------------------------------

  /** The table after `del` of every key in the set. */
  function Dropping(t: LoadTable, keys: set<string>): LoadTable {
    if t == [] then []
    else
      var front := Dropping(t[..|t| - 1], keys);
      if t[|t| - 1].key in keys then front else front + [t[|t| - 1]]
  }

  /** The keys of the expired records, in table order. */
  function ExpiredKeys(t: LoadTable, ttl: real, now: real): seq<string> {
    if t == [] then []
    else
      var front := ExpiredKeys(t[..|t| - 1], ttl, now);
      if Expired(t[|t| - 1].raw, ttl, now) then front + [t[|t| - 1].key] else front
  }

  function SetOf(keys: seq<string>): set<string> {
    set x | x in keys
  }

  lemma {:induction false} DroppingNothing(t: LoadTable)
    ensures Dropping(t, {}) == t
  {
    if t != [] {
      DroppingNothing(t[..|t| - 1]);
    }
  }

  lemma {:induction false} DroppingTwice(t: LoadTable, a: set<string>, b: set<string>)
    ensures Dropping(Dropping(t, a), b) == Dropping(t, a + b)
  {
    if t != [] {
      var front, last := t[..|t| - 1], t[|t| - 1];
      DroppingTwice(front, a, b);
      assert (Dropping(front, a) + [last])[..|Dropping(front, a)|] == Dropping(front, a);
    }
  }

  lemma {:induction false} DroppingExpired(t: LoadTable, ttl: real, now: real, keys: set<string>)
    requires forall s :: s in t ==> (s.key in keys <==> Expired(s.raw, ttl, now))
    ensures Dropping(t, keys) == Cleanup(t, ttl, now)
  {
    if t != [] {
      assert t == t[..|t| - 1] + [t[|t| - 1]];
      DroppingExpired(t[..|t| - 1], ttl, now, keys);
    }
  }

  lemma {:induction false} ExpiredKeysIff(t: LoadTable, ttl: real, now: real, s: Slot)
    requires UniqueKeys(t)
    ensures s in t ==> (s.key in ExpiredKeys(t, ttl, now) <==> Expired(s.raw, ttl, now))
    ensures forall x :: x in ExpiredKeys(t, ttl, now) ==> exists i :: 0 <= i < |t| && t[i].key == x
  {
    if t != [] {
      var front, last := t[..|t| - 1], t[|t| - 1];
      assert t == front + [last];
      ExpiredKeysIff(front, ttl, now, s);
      forall x | x in ExpiredKeys(front, ttl, now)
        ensures x != last.key && exists i :: 0 <= i < |t| && t[i].key == x
      {
        var i :| 0 <= i < |front| && front[i].key == x;
        assert t[i].key == x;
      }
      assert s in front ==> s.key != last.key;
    }
  }

  class GossipManager {
    const nodeId: string
    const ttl: real
    var peerTable: LoadTable

    constructor (nodeId: string, ttl: real)
      ensures this.nodeId == nodeId && this.ttl == ttl && peerTable == []
    {
      this.nodeId := nodeId;
      this.ttl := ttl;
      peerTable := [];
    }

    method HandleIncomingGossip(m: Gossip) returns (raised: bool)
      modifies this
      ensures raised <==> Incoming(nodeId, old(peerTable), m).Err?
      ensures peerTable == Apply(nodeId, ttl, old(peerTable), Receive(m))
    {
      if m.OtherGossip? || m.payload.None? || m.payload.value == EMPTY || m.payload.value.nodeId == Some(nodeId) {
        return false;
      }
      var raw := m.payload.value;
      if raw.nodeId.None? {
        return true;
      }
      peerTable := Put(peerTable, raw.nodeId.value, raw);
      return false;
    }

    method OnLocalUpdate(cpu: real, ram: real, now: real)
      modifies this
      ensures peerTable == Apply(nodeId, ttl, old(peerTable), LocalUpdate(cpu, ram, now))
    {
      peerTable := Put(peerTable, nodeId, OwnRaw(nodeId, cpu, ram, now));
    }

    method CleanupStalePeers(now: real)
      requires UniqueKeys(peerTable)
      modifies this
      ensures peerTable == Apply(nodeId, ttl, old(peerTable), Clean(now))
      ensures UniqueKeys(peerTable)
    {
      ghost var t := peerTable;
      var expired := ExpiredKeys(peerTable, ttl, now);
      DroppingNothing(t);
      assert SetOf(expired[..0]) == {};
      for i := 0 to |expired|
        invariant peerTable == Dropping(t, SetOf(expired[..i]))
      {
        DroppingTwice(t, SetOf(expired[..i]), {expired[i]});
        assert SetOf(expired[..i + 1]) == SetOf(expired[..i]) + {expired[i]};
        peerTable := Dropping(peerTable, {expired[i]});
      }
      var keys := SetOf(expired);
      assert expired[..|expired|] == expired;
      forall s | s in t
        ensures s.key in keys <==> Expired(s.raw, ttl, now)
      {
        ExpiredKeysIff(t, ttl, now, s);
      }
      DroppingExpired(t, ttl, now, keys);
      CleanupSlots(t, ttl, now);
    }
  }
}
