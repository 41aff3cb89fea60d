/** The two failure detectors: a sticky one driven by heartbeats and a memoryless one. */
module Heartbeats {
  import opened Wrappers

  datatype Health = ALIVE | SUSPECTED | OFFLINE

  /** The settings of a HeartbeatManager; callbacks is how many offline callbacks are registered. */
  datatype Config = Config(nodeId: string, suspectAfter: real, offlineAfter: real, callbacks: nat)

  /** A message as process_incoming_heartbeat sees it: a HEARTBEAT_PING with or without a sender, or anything else. */
  datatype Message = HeartbeatPing(sender: Option<string>) | OtherMessage

  /** What the outside notices: an accepted heartbeat, or a callback being told that a peer is offline. */
  datatype Entry = Beat(peer: string) | Notify(callback: nat, peer: string)

  /** order lists the keys of lastSeen as they came in. */
  datatype Manager = Manager(order: seq<string>, lastSeen: map<string, real>, states: map<string, Health>, log: seq<Entry>)

  const NEW_MANAGER := Manager([], map[], map[], [])

  predicate Accepts(cfg: Config, m: Message) {
    m.HeartbeatPing? && m.sender.Some? && m.sender.value != "" && m.sender.value != cfg.nodeId
  }

  function Process(cfg: Config, s: Manager, m: Message, now: real): Manager {
    if !Accepts(cfg, m) then s
    else
      var p := m.sender.value;
      Manager(if p in s.lastSeen then s.order else s.order + [p], s.lastSeen[p := now], s.states[p := ALIVE], s.log + [Beat(p)])
  }

  /** The log after telling all callbacks about a peer. */
  function NotifyAll(log: seq<Entry>, callbacks: nat, peer: string): seq<Entry> {
    if callbacks == 0 then log else NotifyAll(log, callbacks - 1, peer) + [Notify(callbacks - 1, peer)]
  }

  /** What a check makes of a peer of this age. */
  function Next(cfg: Config, age: real, st: Health): Health {
    if age >= cfg.offlineAfter then OFFLINE
    else if age >= cfg.suspectAfter then (if st == ALIVE then SUSPECTED else st)
    else st
  }

  function CheckPeer(cfg: Config, s: Manager, p: string, now: real): Manager {
    if p !in s.lastSeen then s else
    var st := if p in s.states then s.states[p] else ALIVE;
    var st' := Next(cfg, now - s.lastSeen[p], st);
    if st' == st then s
    else s.(states := s.states[p := st'], log := if st' == OFFLINE then NotifyAll(s.log, cfg.callbacks, p) else s.log)
  }

  /** The check of the first n peers. */
  function CheckFirst(cfg: Config, s: Manager, n: nat, now: real): (r: Manager)
    requires n <= |s.order|
    ensures r.lastSeen == s.lastSeen && r.order == s.order
  {
    if n == 0 then s else CheckPeer(cfg, CheckFirst(cfg, s, n - 1, now), s.order[n - 1], now)
  }

  ghost predicate ManagerOk(s: Manager) {
    && s.states.Keys == s.lastSeen.Keys
    && (forall p :: p in s.order <==> p in s.lastSeen)
    && (forall i, j :: 0 <= i < j < |s.order| ==> s.order[i] != s.order[j])
  }

  function CheckHealth(cfg: Config, s: Manager, now: real): Manager {
    CheckFirst(cfg, s, |s.order|, now)
  }

  /** The classification without memory. */
  function Classify(cfg: Config, age: real): Health {
    if age >= cfg.offlineAfter then OFFLINE else if age >= cfg.suspectAfter then SUSPECTED else ALIVE
  }

  // ---------------------------------------------------------------------------
  // Runs
  // ---------------------------------------------------------------------------

  datatype Event = Heartbeat(m: Message, now: real) | Check(now: real)

  function Apply(cfg: Config, s: Manager, e: Event): Manager {
    match e
    case Heartbeat(m, now) => Process(cfg, s, m, now)
    case Check(now) => CheckHealth(cfg, s, now)
  }

  function Run(cfg: Config, es: seq<Event>): Manager {
    if es == [] then NEW_MANAGER else Apply(cfg, Run(cfg, es[..|es| - 1]), es[|es| - 1])
  }

  lemma {:induction false} CheckKeepsKeys(cfg: Config, s: Manager, n: nat, now: real)
    requires s.states.Keys == s.lastSeen.Keys && n <= |s.order|
    ensures CheckFirst(cfg, s, n, now).states.Keys == s.states.Keys
  {
    if n > 0 {
      CheckKeepsKeys(cfg, s, n - 1, now);
    }
  }

  lemma CheckKeepsOk(cfg: Config, s: Manager, n: nat, now: real)
    requires ManagerOk(s) && n <= |s.order|
    ensures ManagerOk(CheckFirst(cfg, s, n, now))
  {
    CheckKeepsKeys(cfg, s, n, now);
  }

  lemma {:induction false} RunKeepsOk(cfg: Config, es: seq<Event>)
    ensures ManagerOk(Run(cfg, es))
  {
    if es != [] {
      RunKeepsOk(cfg, es[..|es| - 1]);
      var s := Run(cfg, es[..|es| - 1]);
      CheckKeepsOk(cfg, s, |s.order|, es[|es| - 1].now);
    }
  }

  /** A check advances exactly the peers it has passed, each by one step of its own. */
  lemma {:induction false} CheckEffect(cfg: Config, s: Manager, n: nat, now: real, i: nat)
    requires ManagerOk(s) && n <= |s.order| && i < |s.order|
    ensures var p, r := s.order[i], CheckFirst(cfg, s, n, now);
            && p in s.lastSeen && p in s.states && p in r.states
            && r.states[p] == if i < n then Next(cfg, now - s.lastSeen[p], s.states[p]) else s.states[p]
  {
    assert s.order[i] in s.order;
    if n > 0 {
      CheckEffect(cfg, s, n - 1, now, i);
    }
  }

  // ---------------------------------------------------------------------------
  // The sticky states are the classification
  // ---------------------------------------------------------------------------

  function Rank(h: Health): nat {
    match h case ALIVE => 0 case SUSPECTED => 1 case OFFLINE => 2
  }

  lemma ClassifyRises(cfg: Config, a: real, b: real)
    requires a <= b
    ensures Rank(Classify(cfg, a)) <= Rank(Classify(cfg, b))
  {
  }

  ghost predicate InOrder(es: seq<Event>) {
    forall i, j :: 0 <= i < j < |es| ==> es[i].now <= es[j].now
  }

  /** A heartbeat that counts for a peer: a ping that names it, and it is not the node itself. */
  predicate BeatOf(cfg: Config, m: Message, p: string) {
    m == HeartbeatPing(Some(p)) && p != "" && p != cfg.nodeId
  }

  /** When the last heartbeat of a peer was accepted, read off the events alone. */
  function LastBeat(cfg: Config, es: seq<Event>, p: string): Option<real> {
    if es == [] then None
    else
      match es[|es| - 1]
      case Heartbeat(m, now) =>
        if BeatOf(cfg, m, p) then Some(now) else LastBeat(cfg, es[..|es| - 1], p)
      case Check(_) => LastBeat(cfg, es[..|es| - 1], p)
  }

  /** The worst rank that any check has given a peer since its last accepted heartbeat. */
  function Worst(cfg: Config, es: seq<Event>, p: string): nat {
    if es == [] then 0
    else
      var front := es[..|es| - 1];
      match es[|es| - 1]
      case Heartbeat(m, _) => if BeatOf(cfg, m, p) then 0 else Worst(cfg, front, p)
      case Check(now) =>
        var beat := LastBeat(cfg, front, p);
        if beat.None? then Worst(cfg, front, p)
        else Worse(Worst(cfg, front, p), Rank(Classify(cfg, now - beat.value)))
  }

  function Worse(a: nat, b: nat): nat {
    if a >= b then a else b
  }

  /** One step of a check takes the worse of the state and the classification. */
  lemma NextIsWorse(cfg: Config, age: real, st: Health)
    ensures Rank(Next(cfg, age, st)) == Worse(Rank(st), Rank(Classify(cfg, age)))
  {
  }

  lemma {:induction false} RunLastBeat(cfg: Config, es: seq<Event>, p: string)
    ensures var s := Run(cfg, es);
            LastBeat(cfg, es, p) == if p in s.lastSeen then Some(s.lastSeen[p]) else None
  {
    if es != [] {
      RunLastBeat(cfg, es[..|es| - 1], p);
    }
  }

  lemma CheckWorst(cfg: Config, s: Manager, now: real, p: string)
    requires ManagerOk(s) && p in s.lastSeen
    ensures var r := CheckHealth(cfg, s, now);
            && p in s.states && p in r.states
            && Rank(r.states[p]) == Worse(Rank(s.states[p]), Rank(Classify(cfg, now - s.lastSeen[p])))
  {
    assert p in s.order;
    var i :| 0 <= i < |s.order| && s.order[i] == p;
    CheckEffect(cfg, s, |s.order|, now, i);
    NextIsWorse(cfg, now - s.lastSeen[p], s.states[p]);
  }

  lemma CheckRunWorst(cfg: Config, es: seq<Event>, now: real, p: string)
    requires p in Run(cfg, es).lastSeen
    ensures var s := Run(cfg, es);
            var r := CheckHealth(cfg, s, now);
            && p in s.states && p in r.states
            && Rank(r.states[p]) == Worse(Rank(s.states[p]), Rank(Classify(cfg, now - s.lastSeen[p])))
  {
    RunKeepsOk(cfg, es);
    CheckWorst(cfg, Run(cfg, es), now, p);
  }

  /** On every run and any clock, a peer's state is the worst classification that a check has given it
      since its last accepted heartbeat. */
  lemma {:induction false} StickyIsWorst(cfg: Config, es: seq<Event>, p: string)
    ensures var s := Run(cfg, es);
            p in s.lastSeen ==> p in s.states && Rank(s.states[p]) == Worst(cfg, es, p)
  {
    if es != [] {
      var front, e := es[..|es| - 1], es[|es| - 1];
      StickyIsWorst(cfg, front, p);
      RunLastBeat(cfg, front, p);
      if e.Check? && p in Run(cfg, front).lastSeen {
        CheckRunWorst(cfg, front, e.now, p);
      }
    }
  }

  /** After a check, on any clock, a peer's state is the classification of its age exactly when no
      earlier check since its last accepted heartbeat has classified it worse. */
  lemma StickyIsClassificationIff(cfg: Config, es: seq<Event>, now: real, p: string)
    ensures var s := Run(cfg, es + [Check(now)]);
            p in s.lastSeen ==>
              var current := Classify(cfg, now - s.lastSeen[p]);
              p in s.states && (s.states[p] == current <==> Worst(cfg, es, p) <= Rank(current))
  {
    var all := es + [Check(now)];
    assert all[..|all| - 1] == es && all[|all| - 1] == Check(now);
    StickyIsWorst(cfg, all, p);
    RunLastBeat(cfg, es, p);
    RunLastBeat(cfg, all, p);
  }

  /** On a clock that never goes back, no check classifies a peer worse than a later time would. */
  lemma {:induction false} WorstInOrder(cfg: Config, es: seq<Event>, p: string, t: real)
    requires InOrder(es) && (es == [] || es[|es| - 1].now <= t)
    ensures var beat := LastBeat(cfg, es, p);
            beat.Some? ==> Worst(cfg, es, p) <= Rank(Classify(cfg, t - beat.value))
  {
    if es != [] {
      var front, e := es[..|es| - 1], es[|es| - 1];
      assert front == [] || front[|front| - 1].now <= e.now;
      WorstInOrder(cfg, front, p, t);
      var beat := LastBeat(cfg, front, p);
      if beat.Some? {
        ClassifyRises(cfg, e.now - beat.value, t - beat.value);
      }
    }
  }

  /** On a clock that never goes back, after every check each peer's state, reached by transitions that
      only ever worsen it between heartbeats, is the classification of its age, for any thresholds. */
  lemma StickyIsClassification(cfg: Config, es: seq<Event>, now: real, p: string)
    requires InOrder(es + [Check(now)])
    ensures var s := Run(cfg, es + [Check(now)]);
            p in s.lastSeen ==> p in s.states && s.states[p] == Classify(cfg, now - s.lastSeen[p])
  {
    var all := es + [Check(now)];
    assert forall i :: 0 <= i < |es| ==> es[i] == all[i];
    assert es == [] || all[|es| - 1].now <= all[|es|].now;
    assert all[..|all| - 1] == es;
    WorstInOrder(cfg, es, p, now);
    RunLastBeat(cfg, es, p);
    RunLastBeat(cfg, all, p);
    StickyIsClassificationIff(cfg, es, now, p);
  }

  /** On a clock that never goes back, after every check: a peer is on file exactly if a heartbeat of it was
      accepted; it is offline exactly when its last one is offlineAfter old or older, alive exactly
      when it is younger than both thresholds, and suspected otherwise. */
  lemma StateAfterCheck(cfg: Config, es: seq<Event>, now: real, p: string)
    requires InOrder(es + [Check(now)])
    ensures var s, beat := Run(cfg, es + [Check(now)]), LastBeat(cfg, es, p);
            && (p in s.states <==> beat.Some?)
            && (beat.Some? ==>
                  var age := now - beat.value;
                  && (s.states[p] == OFFLINE <==> age >= cfg.offlineAfter)
                  && (s.states[p] == ALIVE <==> age < cfg.offlineAfter && age < cfg.suspectAfter))
  {
    var all := es + [Check(now)];
    assert all[..|all| - 1] == es;
    StickyIsClassification(cfg, es, now, p);
    RunLastBeat(cfg, all, p);
    RunKeepsOk(cfg, all);
  }

  /** A heartbeat makes its peer alive and seen now, and touches no other peer; any other message changes
      nothing. */
  lemma StateAfterBeat(cfg: Config, es: seq<Event>, m: Message, now: real, p: string)
    ensures var s, s' := Run(cfg, es), Run(cfg, es + [Heartbeat(m, now)]);
            && (BeatOf(cfg, m, p) ==>
                  && s'.states == s.states[p := ALIVE] && s'.lastSeen == s.lastSeen[p := now]
                  && s'.order == s.order + (if p in s.lastSeen then [] else [p]))
            && ((forall q :: !BeatOf(cfg, m, q)) ==> s' == s)
  {
    RunAppend(cfg, es, Heartbeat(m, now));
    assert m.HeartbeatPing? && m.sender.Some? ==> m == HeartbeatPing(Some(m.sender.value));
    assert Accepts(cfg, m) ==> BeatOf(cfg, m, m.sender.value);
  }

  lemma RunAppend(cfg: Config, es: seq<Event>, e: Event)
    ensures Run(cfg, es + [e]) == Apply(cfg, Run(cfg, es), e)
  {
    assert (es + [e])[..|es|] == es;
  }

  lemma CheckOnly(cfg: Config, s: Manager, p: string, now: real)
    requires s.order == [p]
    ensures CheckHealth(cfg, s, now) == CheckPeer(cfg, s, p, now)
  {
    assert CheckFirst(cfg, s, 0, now) == s;
  }

  lemma SuspicionSticks(cfg: Config, s: Manager, p: string)
    requires s.order == [p] && p in s.lastSeen && s.lastSeen[p] == 0.0 && p in s.states && s.states[p] == ALIVE
    requires 0.0 < cfg.suspectAfter < cfg.offlineAfter
    ensures var u := CheckHealth(cfg, CheckHealth(cfg, s, cfg.suspectAfter), 0.0);
            u.lastSeen == s.lastSeen && p in u.states && u.states[p] == SUSPECTED
  {
    CheckOnly(cfg, s, p, cfg.suspectAfter);
    CheckOnly(cfg, CheckPeer(cfg, s, p, cfg.suspectAfter), p, 0.0);
  }

  /** A clock that jumps back leaves a peer suspected though its age is below the threshold. */
  lemma StickyNeedsMonotoneClock(cfg: Config, p: string)
    requires p != "" && p != cfg.nodeId && 0.0 < cfg.suspectAfter < cfg.offlineAfter
    ensures var s := Run(cfg, [] + [Heartbeat(HeartbeatPing(Some(p)), 0.0)] + [Check(cfg.suspectAfter)] + [Check(0.0)]);
            && p in s.lastSeen && p in s.states
            && s.states[p] == SUSPECTED && Classify(cfg, 0.0 - s.lastSeen[p]) == ALIVE
  {
    var a, b, c := Heartbeat(HeartbeatPing(Some(p)), 0.0), Check(cfg.suspectAfter), Check(0.0);
    SuspicionSticks(cfg, Apply(cfg, NEW_MANAGER, a), p);
    RunAppend(cfg, [], a);
    RunAppend(cfg, [] + [a], b);
    RunAppend(cfg, [] + [a] + [b], c);
  }

  // ---------------------------------------------------------------------------
  // Notifications
  // ---------------------------------------------------------------------------

  /** How often a callback has been told about a peer since that peer's last accepted heartbeat. */
  function Since(log: seq<Entry>, callback: nat, p: string): nat {
    if log == [] then 0
    else
      var before := Since(log[..|log| - 1], callback, p);
      match log[|log| - 1]
      case Beat(q) => if q == p then 0 else before
      case Notify(c, q) => if c == callback && q == p then before + 1 else before
  }

  /** Every callback is told once, in the order of registration. */
  lemma {:induction false} NotifyAllInOrder(log: seq<Entry>, n: nat, p: string)
    ensures var told := NotifyAll(log, n, p);
            && |told| == |log| + n && told[..|log|] == log
            && forall c :: 0 <= c < n ==> told[|log| + c] == Notify(c, p)
  {
    if n > 0 {
      NotifyAllInOrder(log, n - 1, p);
    }
  }

  /** The peers among the first n that a check turns offline, in the order in which they were first heard. */
  function NewlyOffline(cfg: Config, s: Manager, n: nat, now: real): seq<string>
    requires n <= |s.order|
  {
    if n == 0 then []
    else
      var front, p := NewlyOffline(cfg, s, n - 1, now), s.order[n - 1];
      if GoesOffline(cfg, s, p, now) then front + [p] else front
  }

  predicate GoesOffline(cfg: Config, s: Manager, p: string, now: real) {
    p in s.lastSeen && p in s.states && now - s.lastSeen[p] >= cfg.offlineAfter && s.states[p] != OFFLINE
  }

  function NotifyEach(log: seq<Entry>, callbacks: nat, peers: seq<string>): seq<Entry> {
    if peers == [] then log
    else NotifyAll(NotifyEach(log, callbacks, peers[..|peers| - 1]), callbacks, peers[|peers| - 1])
  }

  /** A check tells all callbacks about the peers that it turns offline, one peer after the other, and
      about nobody else. */
  lemma {:induction false} CheckNotifies(cfg: Config, s: Manager, n: nat, now: real)
    requires ManagerOk(s) && n <= |s.order|
    ensures CheckFirst(cfg, s, n, now).log == NotifyEach(s.log, cfg.callbacks, NewlyOffline(cfg, s, n, now))
  {
    if n > 0 {
      var m, p := n - 1, s.order[n - 1];
      var before := NewlyOffline(cfg, s, m, now);
      CheckNotifies(cfg, s, m, now);
      NextPeerNotifies(cfg, s, m, now);
      NewlyOfflineNext(cfg, s, m, now);
      NotifyEachAppend(s.log, cfg.callbacks, before, p);
    }
  }

  lemma {:induction false} NewlyOfflineNext(cfg: Config, s: Manager, n: nat, now: real)
    requires n < |s.order|
    ensures NewlyOffline(cfg, s, n + 1, now) ==
            NewlyOffline(cfg, s, n, now) + if GoesOffline(cfg, s, s.order[n], now) then [s.order[n]] else []
  {
  }

  lemma NextPeerNotifies(cfg: Config, s: Manager, n: nat, now: real)
    requires ManagerOk(s) && n < |s.order|
    ensures var p, log := s.order[n], CheckFirst(cfg, s, n, now).log;
            CheckFirst(cfg, s, n + 1, now).log == if GoesOffline(cfg, s, p, now) then NotifyAll(log, cfg.callbacks, p) else log
  {
    CheckEffect(cfg, s, n, now, n);
    CheckPeerNotifies(cfg, CheckFirst(cfg, s, n, now), s.order[n], now);
  }

  lemma CheckPeerNotifies(cfg: Config, s: Manager, p: string, now: real)
    requires p in s.lastSeen && p in s.states
    ensures CheckPeer(cfg, s, p, now).log ==
            if GoesOffline(cfg, s, p, now) then NotifyAll(s.log, cfg.callbacks, p) else s.log
  {
  }

  lemma NotifyEachAppend(log: seq<Entry>, callbacks: nat, peers: seq<string>, p: string)
    ensures NotifyEach(log, callbacks, peers + [p]) == NotifyAll(NotifyEach(log, callbacks, peers), callbacks, p)
  {
    assert (peers + [p])[..|peers|] == peers;
  }

  lemma SinceAppend(log: seq<Entry>, e: Entry, callback: nat, p: string)
    ensures Since(log + [e], callback, p) ==
            match e
            case Beat(q) => if q == p then 0 else Since(log, callback, p)
            case Notify(c, q) => Since(log, callback, p) + if c == callback && q == p then 1 else 0
  {
    assert (log + [e])[..|log|] == log;
  }

  lemma {:induction false} SinceNotifyAll(log: seq<Entry>, n: nat, q: string, callback: nat, p: string)
    ensures Since(NotifyAll(log, n, q), callback, p) == Since(log, callback, p) + if callback < n && q == p then 1 else 0
  {
    if n > 0 {
      SinceNotifyAll(log, n - 1, q, callback, p);
      SinceAppend(NotifyAll(log, n - 1, q), Notify(n - 1, q), callback, p);
    }
  }

  /** Between two notifications of one callback about one peer lies a heartbeat of that peer. */
  ghost predicate Separated(log: seq<Entry>) {
    forall i, j :: 0 <= i < j < |log| && log[i].Notify? && log[i] == log[j] ==> BeatBetween(log, i, j, log[i].peer)
  }

  ghost predicate BeatBetween(log: seq<Entry>, i: nat, j: nat, p: string) {
    exists m :: i < m < j && m < |log| && log[m] == Beat(p)
  }

  lemma {:induction false} ZeroMeansBeatAfter(log: seq<Entry>, callback: nat, p: string, i: nat)
    requires Since(log, callback, p) == 0 && i < |log| && log[i] == Notify(callback, p)
    ensures BeatBetween(log, i, |log|, p)
  {
    var front := log[..|log| - 1];
    if log[|log| - 1] == Beat(p) {
    } else {
      ZeroMeansBeatAfter(front, callback, p, i);
      var m :| i < m < |front| && front[m] == Beat(p);
      assert log[m] == Beat(p);
    }
  }

  lemma AppendSeparated(log: seq<Entry>, e: Entry)
    requires Separated(log) && (e.Notify? ==> Since(log, e.callback, e.peer) == 0)
    ensures Separated(log + [e])
  {
    var l := log + [e];
    forall i, j | 0 <= i < j < |l| && l[i].Notify? && l[i] == l[j]
      ensures BeatBetween(l, i, j, l[i].peer)
    {
      var p := l[i].peer;
      if j == |log| {
        ZeroMeansBeatAfter(log, e.callback, p, i);
      } else {
        assert BeatBetween(log, i, j, p);
      }
      var m :| i < m < j && log[m] == Beat(p);
      assert l[m] == Beat(p);
    }
  }

  lemma {:induction false} NotifyAllSeparated(log: seq<Entry>, n: nat, p: string)
    requires Separated(log) && forall c :: 0 <= c < n ==> Since(log, c, p) == 0
    ensures Separated(NotifyAll(log, n, p))
  {
    if n > 0 {
      NotifyAllSeparated(log, n - 1, p);
      assert Since(NotifyAll(log, n - 1, p), n - 1, p) == 0 by {
        SinceNotifyAll(log, n - 1, p, n - 1, p);
      }
      OneMoreSeparated(log, n - 1, p);
    }
  }

  lemma OneMoreSeparated(log: seq<Entry>, n: nat, p: string)
    requires Separated(NotifyAll(log, n, p)) && Since(NotifyAll(log, n, p), n, p) == 0
    ensures Separated(NotifyAll(log, n + 1, p))
  {
    AppendSeparated(NotifyAll(log, n, p), Notify(n, p));
  }

  /** A peer is offline exactly when every callback has been told once since its last heartbeat. */
  ghost predicate Told(cfg: Config, s: Manager) {
    && Separated(s.log)
    && forall c, p :: 0 <= c < cfg.callbacks ==>
         Since(s.log, c, p) == if p in s.states && s.states[p] == OFFLINE then 1 else 0
  }

  lemma CheckPeerTold(cfg: Config, s: Manager, p: string, now: real)
    requires Told(cfg, s)
    ensures Told(cfg, CheckPeer(cfg, s, p, now))
  {
    var r := CheckPeer(cfg, s, p, now);
    if r != s && r.states[p] == OFFLINE {
      NotifyAllSeparated(s.log, cfg.callbacks, p);
      forall c, q | 0 <= c < cfg.callbacks
        ensures Since(r.log, c, q) == if q in r.states && r.states[q] == OFFLINE then 1 else 0
      {
        SinceNotifyAll(s.log, cfg.callbacks, p, c, q);
      }
    } else {
      assert r.log == s.log;
    }
  }

  lemma {:induction false} CheckFirstTold(cfg: Config, s: Manager, n: nat, now: real)
    requires n <= |s.order| && Told(cfg, s)
    ensures Told(cfg, CheckFirst(cfg, s, n, now))
  {
    if n > 0 {
      CheckFirstTold(cfg, s, n - 1, now);
      CheckPeerTold(cfg, CheckFirst(cfg, s, n - 1, now), s.order[n - 1], now);
    }
  }

  lemma ProcessTold(cfg: Config, s: Manager, m: Message, now: real)
    requires Told(cfg, s)
    ensures Told(cfg, Process(cfg, s, m, now))
  {
    if Accepts(cfg, m) {
      var r, p := Process(cfg, s, m, now), m.sender.value;
      AppendSeparated(s.log, Beat(p));
      forall c, q | 0 <= c < cfg.callbacks
        ensures Since(r.log, c, q) == if q in r.states && r.states[q] == OFFLINE then 1 else 0
      {
        SinceAppend(s.log, Beat(p), c, q);
      }
    }
  }

  /** On every run and any clock, a peer is offline exactly when each registered callback has been told
      once since that peer's last accepted heartbeat, and otherwise none has; and two notifications
      of one callback about one peer are separated by a heartbeat of that peer. */
  lemma {:induction false} NotifiedExactlyOnce(cfg: Config, es: seq<Event>)
    ensures Told(cfg, Run(cfg, es))
  {
    if es != [] {
      var s, e := Run(cfg, es[..|es| - 1]), es[|es| - 1];
      NotifiedExactlyOnce(cfg, es[..|es| - 1]);
      match e
      case Heartbeat(m, now) => ProcessTold(cfg, s, m, now);
      case Check(now) => CheckFirstTold(cfg, s, |s.order|, now);
    }
  }

  // ---------------------------------------------------------------------------
  // The memoryless monitor
  // ---------------------------------------------------------------------------

  datatype Item = Item(lastSeen: real, state: Health)

  type Monitor = map<string, Item>

  function MonitorClassify(timeout: real, age: real): Health {
    if age <= timeout then ALIVE else if age <= timeout * 2.0 then SUSPECTED else OFFLINE
  }

  function Update(m: Monitor, p: string, now: real): Monitor {
    m[p := Item(now, ALIVE)]
  }

  function CheckOnce(m: Monitor, timeout: real, now: real): Monitor {
    map p | p in m :: Item(m[p].lastSeen, MonitorClassify(timeout, now - m[p].lastSeen))
  }

  /** The peers whose state a check changes, with their new state. */
  function Changed(m: Monitor, timeout: real, now: real): map<string, Health> {
    map p | p in m && m[p].state != MonitorClassify(timeout, now - m[p].lastSeen) :: MonitorClassify(timeout, now - m[p].lastSeen)
  }

  /** The monitor fed with the heartbeats that the manager accepts. */
  function RunMonitor(cfg: Config, timeout: real, es: seq<Event>): Monitor {
    if es == [] then map[]
    else
      var m := RunMonitor(cfg, timeout, es[..|es| - 1]);
      match es[|es| - 1]
      case Heartbeat(msg, now) => if Accepts(cfg, msg) then Update(m, msg.sender.value, now) else m
      case Check(now) => CheckOnce(m, timeout, now)
  }

  /** What the monitor says of a peer: one that it has never heard of is offline. */
  function StateOf(m: Monitor, p: string): Health {
    if p in m then m[p].state else OFFLINE
  }

  /** A check reports exactly the peers whose state it changes, each with the state it then has, and keeps
      the peers and their times. */
  lemma ChangedIff(m: Monitor, timeout: real, now: real, p: string)
    ensures var after, changed := CheckOnce(m, timeout, now), Changed(m, timeout, now);
            && after.Keys == m.Keys
            && (p in m ==> after[p].lastSeen == m[p].lastSeen)
            && (p in changed <==> p in m && after[p].state != m[p].state)
            && (p in changed ==> changed[p] == after[p].state)
  {
  }

  /** After a check, on any clock and whatever was stored before, the age of the last heartbeat alone
      decides: alive up to the timeout, suspected up to twice the timeout, offline beyond both or if
      there was none. After a heartbeat the peer is alive. */
  lemma MonitorStateAfterCheck(cfg: Config, timeout: real, es: seq<Event>, now: real, p: string)
    ensures var st, beat := StateOf(RunMonitor(cfg, timeout, es + [Check(now)]), p), LastBeat(cfg, es, p);
            && (st == ALIVE <==> beat.Some? && now - beat.value <= timeout)
            && (st == OFFLINE <==> beat.None? || (now - beat.value > timeout && now - beat.value > timeout * 2.0))
    ensures p != "" && p != cfg.nodeId ==>
              StateOf(RunMonitor(cfg, timeout, es + [Heartbeat(HeartbeatPing(Some(p)), now)]), p) == ALIVE
  {
    var beaten := es + [Heartbeat(HeartbeatPing(Some(p)), now)];
    assert beaten[..|beaten| - 1] == es;
    var all := es + [Check(now)];
    assert all[..|all| - 1] == es && all[|all| - 1] == Check(now);
    SameLastSeen(cfg, timeout, es);
    RunLastBeat(cfg, es, p);
  }

  /** The ages at which the two classifications differ. */
  predicate Disputed(timeout: real, age: real) {
    if timeout >= 0.0 then age == timeout || age == timeout * 2.0 else timeout * 2.0 <= age <= timeout
  }

  lemma {:induction false} SameLastSeen(cfg: Config, timeout: real, es: seq<Event>)
    ensures RunMonitor(cfg, timeout, es).Keys == Run(cfg, es).lastSeen.Keys
    ensures forall p :: p in Run(cfg, es).lastSeen ==>
                          RunMonitor(cfg, timeout, es)[p].lastSeen == Run(cfg, es).lastSeen[p]
  {
    if es != [] {
      SameLastSeen(cfg, timeout, es[..|es| - 1]);
    }
  }

  /** On the same schedule and with suspicion after T and offline after 2T, the sticky detector and
      the monitor with timeout T see the same peers and, after a check, differ on a peer exactly at
      a disputed age: for T >= 0, at age T or 2T. */
  lemma DetectorsDifferExactlyWhen(cfg: Config, timeout: real, es: seq<Event>, now: real, p: string)
    requires cfg.suspectAfter == timeout && cfg.offlineAfter == timeout * 2.0
    requires InOrder(es + [Check(now)])
    ensures var s, m := Run(cfg, es + [Check(now)]), RunMonitor(cfg, timeout, es + [Check(now)]);
            && (p in m <==> p in s.lastSeen)
            && (p in m ==> p in s.states && (s.states[p] != m[p].state <==> Disputed(timeout, now - s.lastSeen[p])))
  {
    var all := es + [Check(now)];
    StickyIsClassification(cfg, es, now, p);
    SameLastSeen(cfg, timeout, all);
    assert all[..|all| - 1] == es;
    assert RunMonitor(cfg, timeout, all) == CheckOnce(RunMonitor(cfg, timeout, es), timeout, now);
  }

  // ---------------------------------------------------------------------------
  // The detector objects
  // ---------------------------------------------------------------------------

  class HeartbeatManager {
    const cfg: Config
    var order: seq<string>
    var lastSeen: map<string, real>
    var peerStates: map<string, Health>
    /** Accepted heartbeats and callback invocations, in order. */
    var log: seq<Entry>

    constructor (cfg: Config)
      ensures this.cfg == cfg && State() == NEW_MANAGER
    {
      this.cfg := cfg;
      order, lastSeen, peerStates, log := [], map[], map[], [];
    }

    ghost function State(): Manager
      reads this
    {
      Manager(order, lastSeen, peerStates, log)
    }

    method ProcessIncomingHeartbeat(m: Message, now: real)
      modifies this
      ensures State() == Process(cfg, old(State()), m, now)
    {
      if !m.HeartbeatPing? {
        return;
      }
      if m.sender.None? || m.sender.value == "" || m.sender.value == cfg.nodeId {
        return;
      }
      var sender := m.sender.value;
      if sender !in lastSeen {
        order := order + [sender];
      }
      lastSeen := lastSeen[sender := now];
      peerStates := peerStates[sender := ALIVE];
      log := log + [Beat(sender)];
    }

    method CheckNodeHealth(now: real)
      requires ManagerOk(State())
      modifies this
      ensures State() == CheckHealth(cfg, old(State()), now)
      ensures ManagerOk(State())
    {
      ghost var s := State();
      assert forall i :: 0 <= i < |order| ==> order[i] in order && order[i] in lastSeen;
      for i := 0 to |order|
        invariant order == s.order && lastSeen == s.lastSeen
        invariant State() == CheckFirst(cfg, s, i, now)
      {
        CheckOne(order[i], now);
      }
      CheckKeepsOk(cfg, s, |s.order|, now);
    }

    /** The body of the loop over the known peers. */
    method CheckOne(peer: string, now: real)
      requires peer in lastSeen
      modifies this`peerStates, this`log
      ensures State() == CheckPeer(cfg, old(State()), peer, now)
    {
      var delta := now - lastSeen[peer];
      var st := if peer in peerStates then peerStates[peer] else ALIVE;
      if delta >= cfg.offlineAfter {
        if st != OFFLINE {
          peerStates := peerStates[peer := OFFLINE];
          FireCallbacks(peer);
        }
      } else if delta >= cfg.suspectAfter {
        if st == ALIVE {
          peerStates := peerStates[peer := SUSPECTED];
        }
      }
    }

    /** Every registered callback is called; one that raises does not stop the others. */
    method FireCallbacks(peer: string)
      modifies this`log
      ensures log == NotifyAll(old(log), cfg.callbacks, peer)
    {
      for c := 0 to cfg.callbacks
        invariant log == NotifyAll(old(log), c, peer)
      {
        log := log + [Notify(c, peer)];
      }
    }
  }

  class HeartbeatMonitor {
    const timeout: real
    var peers: Monitor

    constructor (timeout: real)
      ensures this.timeout == timeout && peers == map[]
    {
      this.timeout := timeout;
      peers := map[];
    }

    method UpdatePeer(p: string, now: real)
      modifies this
      ensures peers == Update(old(peers), p, now)
    {
      peers := peers[p := Item(now, ALIVE)];
    }

    method State(p: string) returns (h: Health)
      ensures h == StateOf(peers, p)
    {
      h := if p in peers then peers[p].state else OFFLINE;
    }

    method CheckOncePeers(now: real) returns (changed: map<string, Health>)
      modifies this
      ensures peers == CheckOnce(old(peers), timeout, now)
      ensures changed == Changed(old(peers), timeout, now)
    {
      changed := map[];
      var todo := peers.Keys;
      ghost var before := peers;
      while todo != {}
        invariant todo <= peers.Keys == before.Keys
        invariant forall p :: p in todo ==> peers[p] == before[p]
        invariant forall p :: p in before && p !in todo ==> peers[p] == CheckOnce(before, timeout, now)[p]
        invariant forall p :: p in changed <==> p !in todo && p in Changed(before, timeout, now)
        invariant forall p :: p in changed ==> changed[p] == Changed(before, timeout, now)[p]
        decreases todo
      {
        var p :| p in todo;
        todo := todo - {p};
        var age := now - peers[p].lastSeen;
        var newState := if age <= timeout then ALIVE else if age <= timeout * 2.0 then SUSPECTED else OFFLINE;
        if newState != peers[p].state {
          peers := peers[p := peers[p].(state := newState)];
          changed := changed[p := newState];
        }
      }
      assert peers == CheckOnce(before, timeout, now);
    }
  }
}
