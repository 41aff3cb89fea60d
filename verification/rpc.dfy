/** PING and FIND_NODE: message builders, the answers of a node, and the parsing of replies. */
module Rpc {
  import opened Wrappers
  import opened NodeIds
  import opened Sorting
  import opened RoutingTables
  import opened Lookups
  import opened PeerStores

  /** The type field of a message. */
  datatype Kind = PING | PONG | FIND_NODE | FOUND_NODES | OtherKind(name: string)

  /** One entry of a contact list on the wire; a missing key is None. */
  datatype WireContact = WireContact(nodeId: Option<string>, host: Option<string>, port: Option<int>)

  /** A decoded message; a missing key is None. */
  datatype Message = Message(
    kind: Kind,
    sender: string,
    token: Option<string>,
    target: Option<string>,
    contacts: Option<seq<WireContact>>)

  /** What comes back from a transport: it raised, it gave bytes that do not decode, or a message. */
  datatype Reply = NoReply | Garbled | Decoded(message: Message)

  type Peer = Message -> Reply

  function Decode(r: Reply): Result<Message> {
    match r
    case NoReply => Err(ConnectionError)
    case Garbled => Err(ValueError)
    case Decoded(m) => if m.kind == OtherKind("") || m.sender == "" then Err(ValueError) else Ok(m)
  }

  function Expect(m: Message, kind: Kind): Result<Message> {
    if m.kind != kind then Err(ValueError) else Ok(m)
  }

  // ---------------------------------------------------------------------------
  // Contact lists on the wire
  // ---------------------------------------------------------------------------

  function ContactToDict(c: Contact): WireContact {
    WireContact(Some(ToHex(c.id)), Some(c.host), Some(c.port))
  }

  function ContactsToDicts(cs: seq<Contact>): seq<WireContact> {
    seq(|cs|, i requires 0 <= i < |cs| => ContactToDict(cs[i]))
  }

  function DictToContact(w: WireContact): Result<Contact> {
    if w.nodeId.None? then Err(KeyError)
    else
      var id :- NodeIdFromHex(w.nodeId.value);
      if w.host.None? || w.port.None? then Err(KeyError)
      else MakeContact(id, w.host.value, w.port.value)
  }

  /** The first entry that does not parse ends the parsing. */
  function DictsToContacts(ws: seq<WireContact>): Result<seq<Contact>> {
    if ws == [] then Ok([])
    else
      var front :- DictsToContacts(ws[..|ws| - 1]);
      var last :- DictToContact(ws[|ws| - 1]);
      Ok(front + [last])
  }

  method ParseContacts(ws: seq<WireContact>) returns (r: Result<seq<Contact>>)
    ensures r == DictsToContacts(ws)
  {
    var result: seq<Contact> := [];
    for i := 0 to |ws|
      invariant DictsToContacts(ws[..i]) == Ok(result)
    {
      var entry := DictToContact(ws[i]);
      assert ws[..i + 1][..i] == ws[..i];
      if entry.Err? {
        PrefixErrorIsError(ws, i + 1);
        return Err(entry.error);
      }
      result := result + [entry.value];
    }
    assert ws[..|ws|] == ws;
    return Ok(result);
  }

  lemma {:induction false} PrefixErrorIsError(ws: seq<WireContact>, n: nat)
    requires n <= |ws| && DictsToContacts(ws[..n]).Err?
    ensures DictsToContacts(ws) == DictsToContacts(ws[..n])
    decreases |ws|
  {
    if n == |ws| {
      assert ws[..n] == ws;
    } else {
      assert ws[..|ws| - 1][..n] == ws[..n];
      PrefixErrorIsError(ws[..|ws| - 1], n);
    }
  }

  /** An entry parses exactly if all its fields are there, the id decodes and the port is one; the
      contact has these fields. */
  lemma DictOkIff(w: WireContact)
    ensures DictToContact(w).Ok? <==>
            && w.nodeId.Some? && NodeIdFromHex(w.nodeId.value).Ok?
            && w.host.Some? && w.port.Some? && 0 < w.port.value <= 65535
    ensures DictToContact(w).Ok? ==>
              var c := DictToContact(w).value;
              NodeIdFromHex(w.nodeId.value) == Ok(c.id) && w.host == Some(c.host) && w.port == Some(c.port)
  {
  }

  /** A list parses exactly if every entry does, and entry by entry. */
  lemma {:induction false} DictsOkIff(ws: seq<WireContact>)
    ensures DictsToContacts(ws).Ok? <==> forall i :: 0 <= i < |ws| ==> DictToContact(ws[i]).Ok?
    ensures DictsToContacts(ws).Ok? ==>
              var cs := DictsToContacts(ws).value;
              |cs| == |ws| && forall i :: 0 <= i < |ws| ==> DictToContact(ws[i]) == Ok(cs[i])
  {
    if ws != [] {
      var front := ws[..|ws| - 1];
      DictsOkIff(front);
      assert forall i :: 0 <= i < |front| ==> front[i] == ws[i];
    }
  }

  /** Otherwise the error is that of the first entry that does not parse. */
  lemma FirstBadEntry(ws: seq<WireContact>, i: nat)
    requires i < |ws| && DictToContact(ws[i]).Err? && forall j :: 0 <= j < i ==> DictToContact(ws[j]).Ok?
    ensures DictsToContacts(ws) == Err(DictToContact(ws[i]).error)
  {
    var good, bad := ws[..i], ws[..i + 1];
    assert bad[..|bad| - 1] == good;
    DictsOkIff(good);
    PrefixErrorIsError(ws, i + 1);
  }

  /** A contact list survives the wire: ids, hosts, ports and order. */
  lemma {:induction false} WireRoundTrip(cs: seq<Contact>)
    ensures DictsToContacts(ContactsToDicts(cs)) == Ok(cs)
  {
    var ws := ContactsToDicts(cs);
    if cs != [] {
      var front, last := cs[..|cs| - 1], cs[|cs| - 1];
      assert ws[..|ws| - 1] == ContactsToDicts(front);
      WireRoundTrip(front);
      HexRoundTrip(last.id);
      assert DictToContact(ws[|ws| - 1]) == Ok(last);
      assert cs == front + [last];
    }
  }

  // ---------------------------------------------------------------------------
  // PING
  // ---------------------------------------------------------------------------

  function BuildPing(localHex: string, token: string): Result<Message> {
    if localHex == "" || token == "" then Err(ValueError)
    else Ok(Message(PING, localHex, Some(token), None, None))
  }

  function HandlePing(localHex: string, request: Reply): Result<Message> {
    var m :- Decode(request);
    var m :- Expect(m, PING);
    if m.token.None? || m.token.value == "" || localHex == "" then Err(ValueError)
    else Ok(Message(PONG, localHex, m.token, None, None))
  }

  predicate ValidPong(reply: Reply, token: string) {
    var m := Decode(reply);
    m.Ok? && m.value.kind == PONG && m.value.token == Some(token)
  }

  predicate PingSucceeds(localHex: string, token: string, peer: Peer) {
    var request := BuildPing(localHex, token);
    request.Ok? && ValidPong(peer(request.value), token)
  }

  // ---------------------------------------------------------------------------
  // FIND_NODE
  // ---------------------------------------------------------------------------

  /** The configuration of a FindNodeHandler; construction demands Valid. */
  datatype Handler = Handler(localHex: string, k: nat) {
    predicate Valid() {
      localHex != "" && k >= 1
    }
  }

  /** The checked construction. */
  function MakeHandler(localHex: string, k: int): (r: Result<Handler>)
    ensures r.Ok? <==> localHex != "" && k >= 1
    ensures r.Ok? ==> r.value.Valid() && r.value.localHex == localHex && r.value.k == k
  {
    if localHex == "" then Err(ValueError)
    else if k < 1 then Err(ValueError)
    else Ok(Handler(localHex, k))
  }

  function BuildFindNode(h: Handler, targetHex: string): Result<Message> {
    if h.localHex == "" || targetHex == "" then Err(ValueError)
    else Ok(Message(FIND_NODE, h.localHex, None, Some(targetHex), None))
  }

  function ParseFoundNodes(h: Handler, reply: Reply, targetHex: string): Result<seq<Contact>> {
    var m :- Decode(reply);
    var m :- Expect(m, FOUND_NODES);
    if m.target != Some(targetHex) then Err(ValueError)
    else
      var contacts :- DictsToContacts(if m.contacts.None? then [] else m.contacts.value);
      var target :- NodeIdFromHex(targetHex);
      Ok(Take(SortBy(contacts, ByDistance(target)), h.k))
  }

  function HandleFindNode(h: Handler, t: Table, request: Reply): Result<(string, Message)> {
    var m :- Decode(request);
    var m :- Expect(m, FIND_NODE);
    if m.target.None? || m.target.value == "" || h.localHex == "" then Err(ValueError)
    else
      var target :- NodeIdFromHex(m.target.value);
      var closest := Take(FullOrder(t, target), h.k);
      Ok((m.target.value, Message(FOUND_NODES, h.localHex, None, m.target, Some(ContactsToDicts(closest)))))
  }

  /** The responder against a live store. */
  method HandleRequest(h: Handler, request: Reply, store: PeerStore) returns (r: Result<(string, Message)>)
    requires store.Valid()
    ensures r == HandleFindNode(h, store.table.State(), request)
  {
    var m := Decode(request);
    if m.Err? {
      return Err(m.error);
    }
    if m.value.kind != FIND_NODE {
      return Err(ValueError);
    }
    var targetHex := m.value.target;
    if targetHex.None? || targetHex.value == "" || h.localHex == "" {
      return Err(ValueError);
    }
    var target := NodeIdFromHex(targetHex.value);
    if target.Err? {
      return Err(target.error);
    }
    var all := store.table.GetAllContacts();
    all := SortBy(all, ByDistance(target.value));
    var closest := Take(all, h.k);
    return Ok((targetHex.value, Message(FOUND_NODES, h.localHex, None, targetHex, Some(ContactsToDicts(closest)))));
  }

  /** How a node answers a request: with its handler's message, or not at all when it raises. */
  function Answer(h: Handler, t: Table): Peer {
    (m: Message) =>
      if m.kind == PING then
        var pong := HandlePing(h.localHex, Decoded(m));
        if pong.Ok? then Decoded(pong.value) else NoReply
      else
        var found := HandleFindNode(h, t, Decoded(m));
        if found.Ok? then Decoded(found.value.1) else NoReply
  }

  lemma HonestFindNode(h: Handler, t: Table, sender: string, targetHex: string, target: NodeId)
    requires h.Valid() && sender != "" && NodeIdFromHex(targetHex) == Ok(target)
    ensures Answer(h, t)(Message(FIND_NODE, sender, None, Some(targetHex), None)) ==
            Decoded(Message(FOUND_NODES, h.localHex, None, Some(targetHex), Some(ContactsToDicts(Take(FullOrder(t, target), h.k)))))
  {
  }

  /** Parsing a list that was sent in order of distance gives it back, up to the requester's limit. */
  lemma ParseOfSorted(h: Handler, sender: string, targetHex: string, target: NodeId, sent: seq<Contact>)
    requires sender != "" && NodeIdFromHex(targetHex) == Ok(target)
    requires Sorted(sent, ByDistance(target))
    ensures ParseFoundNodes(h, Decoded(Message(FOUND_NODES, sender, None, Some(targetHex), Some(ContactsToDicts(sent)))), targetHex)
            == Ok(Take(sent, h.k))
  {
    WireRoundTrip(sent);
    SortOfSorted(sent, ByDistance(target));
  }

  lemma TakeSorted(s: seq<Contact>, key: Contact -> real, a: nat, b: nat)
    requires Sorted(s, key)
    ensures Sorted(Take(s, a), key)
    ensures Take(Take(s, a), b) == Take(s, if b <= a then b else a)
  {
  }

  /** What a requester takes for an answer: a FOUND_NODES message from someone, for the target it asked
      for, every entry of which parses. */
  ghost predicate GoodReply(reply: Reply, targetHex: string) {
    && reply.Decoded? && reply.message.kind == FOUND_NODES && reply.message.sender != ""
    && reply.message.target == Some(targetHex)
    && (reply.message.contacts.Some? ==>
          forall i :: 0 <= i < |reply.message.contacts.value| ==> DictToContact(reply.message.contacts.value[i]).Ok?)
    && NodeIdFromHex(targetHex).Ok?
  }

  lemma ParseOkIff(h: Handler, reply: Reply, targetHex: string)
    ensures ParseFoundNodes(h, reply, targetHex).Ok? <==> GoodReply(reply, targetHex)
  {
    if reply.Decoded? && reply.message.contacts.Some? {
      DictsOkIff(reply.message.contacts.value);
    }
  }

  /** A node answers FIND_NODE exactly if it can say who it is and the request is one, comes from someone and
      names a node id. */
  lemma HandleFindNodeOkIff(h: Handler, t: Table, m: Message)
    ensures HandleFindNode(h, t, Decoded(m)).Ok? <==>
            m.kind == FIND_NODE && m.sender != "" && h.localHex != ""
            && m.target.Some? && m.target.value != "" && NodeIdFromHex(m.target.value).Ok?
    ensures HandleFindNode(h, t, NoReply).Err? && HandleFindNode(h, t, Garbled).Err?
  {
  }

  /** A node answers PING exactly if it can say who it is and the request is one, comes from someone and
      carries a token; the PONG carries that token. */
  lemma HandlePingOkIff(localHex: string, m: Message)
    ensures HandlePing(localHex, Decoded(m)) ==
            if m.kind == PING && m.sender != "" && localHex != "" && m.token.Some? && m.token.value != ""
            then Ok(Message(PONG, localHex, m.token, None, None)) else Err(ValueError)
    ensures HandlePing(localHex, NoReply).Err? && HandlePing(localHex, Garbled).Err?
  {
  }

  /** A PING succeeds exactly if it can be built and a PONG from someone comes back with its token. */
  lemma PingSucceedsIff(localHex: string, token: string, peer: Peer)
    ensures PingSucceeds(localHex, token, peer) <==>
            && localHex != "" && token != ""
            && var reply := peer(Message(PING, localHex, Some(token), None, None));
               reply.Decoded? && reply.message.kind == PONG && reply.message.sender != "" && reply.message.token == Some(token)
  {
  }

  /** A remote FIND_NODE is a local lookup: whatever hexadecimal spelling of the target is sent, the
      requester gets the first min of both limits of the responder's own full order, unaltered. */
  lemma RemoteLookupIsLocal(requester: Handler, responder: Handler, t: Table, targetHex: string, target: NodeId)
    requires requester.Valid() && responder.Valid()
    requires NodeIdFromHex(targetHex) == Ok(target)
    ensures var k := if requester.k <= responder.k then requester.k else responder.k;
            var request := BuildFindNode(requester, targetHex);
            && request.Ok?
            && ParseFoundNodes(requester, Answer(responder, t)(request.value), targetHex) == Closest(t, k, target)
  {
    var all := FullOrder(t, target);
    SortSorts(AllContacts(t), ByDistance(target));
    TakeSorted(all, ByDistance(target), responder.k, requester.k);
    HonestFindNode(responder, t, requester.localHex, targetHex, target);
    ParseOfSorted(requester, responder.localHex, targetHex, target, Take(all, responder.k));
  }

  /** An answer to a FIND_NODE for one target is taken for an answer to another exactly when both are
      the same string. */
  lemma ReplyMatchesItsRequest(requester: Handler, responder: Handler, t: Table, asked: string, expected: string)
    requires requester.Valid() && responder.Valid()
    requires NodeIdFromHex(asked).Ok? && NodeIdFromHex(expected).Ok?
    ensures var request := BuildFindNode(requester, asked);
            && request.Ok?
            && (ParseFoundNodes(requester, Answer(responder, t)(request.value), expected).Ok? <==> asked == expected)
  {
    var target := NodeIdFromHex(asked).value;
    HonestFindNode(responder, t, requester.localHex, asked, target);
    if asked == expected {
      RemoteLookupIsLocal(requester, responder, t, asked, target);
    }
  }

  /** A PONG is accepted exactly for the token of the PING that it answers. */
  lemma PongMatchesItsPing(localHex: string, sent: string, expected: string, h: Handler, t: Table)
    requires h.Valid() && localHex != "" && sent != ""
    ensures var request := BuildPing(localHex, sent);
            && request.Ok?
            && (ValidPong(Answer(h, t)(request.value), expected) <==> sent == expected)
  {
  }

  /** An honest node answers every PING that a validator can build. */
  lemma HonestPing(localHex: string, token: string, h: Handler, t: Table)
    requires h.Valid()
    ensures PingSucceeds(localHex, token, Answer(h, t)) <==> localHex != "" && token != ""
  {
  }

  /** Whatever a peer sends, a parsed reply is in order of distance, holds no more than k contacts, and
      each of them was on the wire. */
  lemma ParsedReplyIsSound(h: Handler, reply: Reply, targetHex: string)
    requires ParseFoundNodes(h, reply, targetHex).Ok?
    ensures var r := ParseFoundNodes(h, reply, targetHex).value;
            && NodeIdFromHex(targetHex).Ok?
            && |r| <= h.k
            && Sorted(r, ByDistance(NodeIdFromHex(targetHex).value))
            && forall c :: c in r ==> WasSent(reply, c)
  {
    var r := ParseFoundNodes(h, reply, targetHex).value;
    var ws := if reply.message.contacts.None? then [] else reply.message.contacts.value;
    var contacts := DictsToContacts(ws).value;
    var key := ByDistance(NodeIdFromHex(targetHex).value);
    SortSorts(contacts, key);
    SortContents(contacts, key);
    forall c | c in r
      ensures WasSent(reply, c)
    {
      assert c in SortBy(contacts, key);
      assert c in multiset(SortBy(contacts, key));
      DictsMember(ws, c);
    }
  }

  /** And nothing nearer is left out: of the contacts cs on the wire, the parsed reply holds min(k, n), and
      the others are no nearer than any of these. */
  lemma ParsedReplyIsNearest(h: Handler, reply: Reply, targetHex: string, cs: seq<Contact>, target: NodeId)
    requires GoodReply(reply, targetHex) && reply.message.contacts.Some? && NodeIdFromHex(targetHex) == Ok(target)
    requires |cs| == |reply.message.contacts.value|
    requires forall i :: 0 <= i < |cs| ==> DictToContact(reply.message.contacts.value[i]) == Ok(cs[i])
    ensures ParseFoundNodes(h, reply, targetHex).Ok?
    ensures var r := ParseFoundNodes(h, reply, targetHex).value;
            && |r| == (if h.k <= |cs| then h.k else |cs|)
            && multiset(r) <= multiset(cs)
            && forall c, d :: c in r && d in multiset(cs) - multiset(r) ==> Distance(c.id, target) <= Distance(d.id, target)
  {
    ParseOkIff(h, reply, targetHex);
    DictsOkIff(reply.message.contacts.value);
    assert DictsToContacts(reply.message.contacts.value).value == cs;
    TakeIsNearest(cs, h.k, target);
  }

  lemma TakeIsNearest(cs: seq<Contact>, k: nat, target: NodeId)
    ensures var r := Take(SortBy(cs, ByDistance(target)), k);
            && |r| == (if k <= |cs| then k else |cs|)
            && multiset(r) <= multiset(cs)
            && forall c, d :: c in r && d in multiset(cs) - multiset(r) ==> Distance(c.id, target) <= Distance(d.id, target)
  {
    var key := ByDistance(target);
    var all := SortBy(cs, key);
    var r := Take(all, k);
    SortSorts(cs, key);
    SortContents(cs, key);
    SplitParts(all, |r|);
    assert |all| == |cs| by {
      assert |multiset(all)| == |multiset(cs)|;
    }
    forall c, d | c in r && d in multiset(cs) - multiset(r)
      ensures Distance(c.id, target) <= Distance(d.id, target)
    {
      SortedParts(all, |r|, key, c, d);
      assert key(c) == Distance(c.id, target) as real && key(d) == Distance(d.id, target) as real;
    }
  }

  lemma SplitParts(s: seq<Contact>, n: nat)
    requires n <= |s|
    ensures multiset(s) - multiset(s[..n]) == multiset(s[n..]) && multiset(s[..n]) <= multiset(s)
  {
    assert s == s[..n] + s[n..];
  }

  lemma SortedParts(s: seq<Contact>, n: nat, key: Contact -> real, c: Contact, d: Contact)
    requires n <= |s| && Sorted(s, key) && c in s[..n] && d in s[n..]
    ensures key(c) <= key(d)
  {
    var i :| 0 <= i < n && s[i] == c;
    var j :| n <= j < |s| && s[j] == d;
  }

  ghost predicate WasSent(reply: Reply, c: Contact) {
    && reply.Decoded? && reply.message.contacts.Some?
    && exists i :: 0 <= i < |reply.message.contacts.value| && DictToContact(reply.message.contacts.value[i]) == Ok(c)
  }

  lemma {:induction false} DictsMember(ws: seq<WireContact>, c: Contact)
    requires DictsToContacts(ws).Ok? && c in DictsToContacts(ws).value
    ensures exists i :: 0 <= i < |ws| && DictToContact(ws[i]) == Ok(c)
  {
    var front := ws[..|ws| - 1];
    if DictToContact(ws[|ws| - 1]) != Ok(c) {
      DictsMember(front, c);
      var i :| 0 <= i < |front| && DictToContact(front[i]) == Ok(c);
      assert ws[i] == front[i];
    }
  }
}
