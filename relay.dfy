/**
  The relay server's peer and session registry (signalling.py).

  The server keeps two dictionaries: `peers`, from uid to the peer's
  websocket, remote address and status (None or 'session'), and `sessions`,
  from uid to the uid of its partner. Each handler is modelled as a
  transition on a `Registry` value (the two dictionaries) together with the
  frames it sends and the connections it closes; a Python exception that
  ends a handler is the outcome `Raise`. The class `Server` holds the two
  dictionaries as fields and its methods are proved to perform exactly
  these transitions.
 */
module Relay {
  import opened PyStr

  type Uid = string

  /** Identity of one websocket connection. */
  type Conn = nat

  /** The third slot of a `peers` entry: Python's None, or a string. */
  datatype Status = NoStatus | Tag(name: string)

  const InSession: Status := Tag("session")

  datatype Peer = Peer(ws: Conn, raddr: string, status: Status)

  /** What a handler does to the websockets. */
  datatype Action =
    | Send(to: Conn, text: string)
    | Close(conn: Conn)                                 // `ws.close()` with the library's default code
    | CloseWith(conn: Conn, code: int, reason: string)  // `ws.close(code=..., reason=...)`

  /** The exceptions that end a handler. */
  datatype Fault =
    | InvalidHello          // `raise Exception("Invalid hello ...")`
    | InvalidUid            // `raise Exception("Invalid uid ...")`
    | UnpackFailed          // ValueError: `split(maxsplit=1)` did not give two parts
    | KeyMissing(key: Uid)  // KeyError on `peers[...]` or `sessions[...]`
    | PartnerNotInSession   // AssertionError of `assert(status == 'session')`
    | UnknownStatus(status: Status)

  datatype Outcome = Ok | Raise(fault: Fault)

  /** WebSocket close code "protocol error". */
  const PROTOCOL_ERROR: int := 1002

  datatype Registry = Registry(peers: map<Uid, Peer>, sessions: map<Uid, Uid>)

  /** The state after one handler step, the frames it sent and how it ended. */
  datatype Step = Step(reg: Registry, out: seq<Action>, outcome: Outcome)

  datatype Teardown = Teardown(reg: Registry, out: seq<Action>)

  datatype HelloOutcome = Welcome(uid: Uid) | Refused(fault: Fault)

  datatype Handshake = Handshake(outcome: HelloOutcome, out: seq<Action>)

  // ---------------------------------------------------------------------
  // Handshake

  /**
    `hello_peer`: the first frame must be `HELLO <uid>`; `known` is the set of
    uids already in `peers`.
   */
  function HelloPeer(known: set<Uid>, ws: Conn, frame: string): (h: Handshake)
    ensures h.outcome.Welcome? <==>
      && |SplitOnce(frame)| == 2 && SplitOnce(frame)[0] == "HELLO"
      && SplitOnce(frame)[1] !in known && NoSpace(SplitOnce(frame)[1])
    ensures h.outcome.Welcome? ==>
      && h.outcome.uid == SplitOnce(frame)[1]
      && h.outcome.uid != "" && NoSpace(h.outcome.uid) && h.outcome.uid !in known
      && h.out == [Send(ws, "HELLO")]
    ensures |SplitOnce(frame)| == 2 && SplitOnce(frame)[0] != "HELLO" ==>
      h == Handshake(Refused(InvalidHello), [CloseWith(ws, PROTOCOL_ERROR, "invalid protocol")])
    ensures |SplitOnce(frame)| == 2 && SplitOnce(frame)[0] == "HELLO" && h.outcome.Refused? ==>
      h == Handshake(Refused(InvalidUid), [CloseWith(ws, PROTOCOL_ERROR, "invalid peer uid")])
    ensures |SplitOnce(frame)| != 2 ==> h == Handshake(Refused(UnpackFailed), [])
  {
    var parts := SplitOnce(frame);
    if |parts| != 2 then Handshake(Refused(UnpackFailed), [])
    else
      var hello, uid := parts[0], parts[1];
      if hello != "HELLO" then
        Handshake(Refused(InvalidHello), [CloseWith(ws, PROTOCOL_ERROR, "invalid protocol")])
      else
        SplitIsSingleton(uid);
        if uid == "" || uid in known || Split(uid) != [uid] then
          Handshake(Refused(InvalidUid), [CloseWith(ws, PROTOCOL_ERROR, "invalid peer uid")])
        else
          Handshake(Welcome(uid), [Send(ws, "HELLO")])
  }

  /** A well-formed fresh uid, sent as `HELLO <uid>`, is accepted as that uid. */
  lemma HelloAcceptsFreshUid(known: set<Uid>, ws: Conn, uid: Uid)
    requires uid != "" && NoSpace(uid) && uid !in known
    ensures HelloPeer(known, ws, "HELLO " + uid) == Handshake(Welcome(uid), [Send(ws, "HELLO")])
  {
    assert "HELLO " + uid == "HELLO" + " " + uid;
    SplitOnceOfPair("HELLO", uid);
  }

  /** A uid already registered is refused with code 1002 even when well formed. */
  lemma HelloRefusesTakenUid(known: set<Uid>, ws: Conn, uid: Uid)
    requires uid != "" && NoSpace(uid) && uid in known
    ensures HelloPeer(known, ws, "HELLO " + uid)
         == Handshake(Refused(InvalidUid), [CloseWith(ws, PROTOCOL_ERROR, "invalid peer uid")])
  {
    assert "HELLO " + uid == "HELLO" + " " + uid;
    SplitOnceOfPair("HELLO", uid);
  }

  // ---------------------------------------------------------------------
  // Registry transitions

  /** Both halves of every session point at each other, and a peer's status says whether it is in one. */
  predicate Paired(r: Registry)
  {
    && r.sessions.Keys <= r.peers.Keys
    && (forall u :: u in r.sessions ==> r.sessions[u] in r.sessions && r.sessions[r.sessions[u]] == u)
    && (forall u :: u in r.peers ==> r.peers[u].status == (if u in r.sessions then InSession else NoStatus))
  }

  /** Registration at the start of `connection_handler`. */
  function Register(r: Registry, uid: Uid, ws: Conn, raddr: string): (r': Registry)
    ensures r'.peers.Keys == r.peers.Keys + {uid} && r'.peers[uid] == Peer(ws, raddr, NoStatus)
    ensures forall u :: u in r.peers && u != uid ==> r'.peers[u] == r.peers[u]
    ensures r'.sessions == r.sessions
  {
    Registry(r.peers[uid := Peer(ws, raddr, NoStatus)], r.sessions)
  }

  /** A uid that passed the handshake can be registered without breaking the pairing. */
  lemma RegisterKeepsPairing(r: Registry, uid: Uid, ws: Conn, raddr: string)
    requires Paired(r) && uid !in r.peers
    ensures Paired(Register(r, uid, ws, raddr))
  {
    var r' := Register(r, uid, ws, raddr);
    assert uid !in r.sessions;
    forall u | u in r'.peers
      ensures r'.peers[u].status == (if u in r'.sessions then InSession else NoStatus)
    {
      if u != uid {
        assert r'.peers[u] == r.peers[u];
      }
    }
  }

  /** The four assignments of a successful `SESSION <callee>` command. */
  function Open(r: Registry, uid: Uid, callee: Uid): (r': Registry)
    requires uid in r.peers && callee in r.peers
    ensures r'.peers.Keys == r.peers.Keys
    ensures r'.sessions.Keys == r.sessions.Keys + {uid, callee}
    ensures r'.peers[uid].status == InSession && r'.peers[callee].status == InSession
    ensures r'.sessions[uid] == callee && r'.sessions[callee] == uid
    ensures forall u :: u in r.peers ==>
      r'.peers[u].ws == r.peers[u].ws && r'.peers[u].raddr == r.peers[u].raddr
    ensures forall u :: u in r.peers && u != uid && u != callee ==> r'.peers[u] == r.peers[u]
    ensures forall u :: u in r.sessions && u != uid && u != callee ==> r'.sessions[u] == r.sessions[u]
  {
    var peers := r.peers[uid := r.peers[uid].(status := InSession)];
    var sessions := r.sessions[uid := callee];
    var peers' := peers[callee := peers[callee].(status := InSession)];
    Registry(peers', sessions[callee := uid])
  }

  /** Opening a session between two peers that are in none keeps the pairing. */
  lemma OpenKeepsPairing(r: Registry, uid: Uid, callee: Uid)
    requires Paired(r) && uid in r.peers && callee in r.peers
    requires uid !in r.sessions && callee !in r.sessions
    ensures Paired(Open(r, uid, callee))
  {
    var r' := Open(r, uid, callee);
    forall u | u in r'.sessions
      ensures r'.sessions[u] in r'.sessions && r'.sessions[r'.sessions[u]] == u
    {
      if u != uid && u != callee {
        var p := r.sessions[u];
        assert p != uid && p != callee;
      }
    }
  }

  function NotFoundReply(callee: Uid): string
  {
    "ERROR peer " + Repr(callee) + " not found"
  }

  function BusyReply(callee: Uid): string
  {
    "ERROR peer " + Repr(callee) + " busy"
  }

  /**
    One pass of the `while True` loop of `connection_handler` for peer `uid`,
    whose own websocket is `ws`, on the received frame `msg`.
   */
  function Receive(r: Registry, uid: Uid, ws: Conn, msg: string): (s: Step)
    ensures s.reg.peers.Keys == r.peers.Keys
    ensures s.outcome.Raise? ==> s.reg == r && s.out == []
    ensures |s.out| <= 1 && forall a :: a in s.out ==> a.Send?
  {
    if uid !in r.peers then Step(r, [], Raise(KeyMissing(uid)))
    else
      var status := r.peers[uid].status;
      if status != NoStatus then
        if status == InSession then
          if uid !in r.sessions then Step(r, [], Raise(KeyMissing(uid)))
          else
            var other := r.sessions[uid];
            if other !in r.peers then Step(r, [], Raise(KeyMissing(other)))
            else if r.peers[other].status != InSession then Step(r, [], Raise(PartnerNotInSession))
            else Step(r, [Send(r.peers[other].ws, msg)], Ok)
        else
          Step(r, [], Raise(UnknownStatus(status)))
      else if StartsWith(msg, "SESSION") then
        var parts := SplitOnce(msg);
        if |parts| != 2 then Step(r, [], Raise(UnpackFailed))
        else
          var callee := parts[1];
          if callee !in r.peers then Step(r, [Send(ws, NotFoundReply(callee))], Ok)
          else if status != NoStatus then Step(r, [Send(ws, BusyReply(callee))], Ok)
          else Step(Open(r, uid, callee), [Send(ws, "SESSION_OK")], Ok)
      else
        Step(r, [], Ok)
  }

  /** A peer in no session that sends anything but a `SESSION...` frame changes nothing and gets no reply. */
  lemma UnknownMessageIgnored(r: Registry, uid: Uid, ws: Conn, msg: string)
    requires uid in r.peers && r.peers[uid].status == NoStatus
    requires !StartsWith(msg, "SESSION")
    ensures Receive(r, uid, ws, msg) == Step(r, [], Ok)
  {
  }

  /** A peer whose status is neither None nor `'session'` raises `Unknown peer status`. */
  lemma UnknownStatusRaises(r: Registry, uid: Uid, ws: Conn, msg: string)
    requires uid in r.peers && r.peers[uid].status != NoStatus && r.peers[uid].status != InSession
    ensures Receive(r, uid, ws, msg) == Step(r, [], Raise(UnknownStatus(r.peers[uid].status)))
  {
  }

  /** In a session whose partner's status is not `'session'`, the `assert` fails before anything is sent. */
  lemma PartnerOutOfSessionRaises(r: Registry, uid: Uid, ws: Conn, msg: string)
    requires uid in r.peers && r.peers[uid].status == InSession && uid in r.sessions
    requires r.sessions[uid] in r.peers && r.peers[r.sessions[uid]].status != InSession
    ensures Receive(r, uid, ws, msg) == Step(r, [], Raise(PartnerNotInSession))
  {
  }

  /** `SESSION <callee>` naming an unknown callee: `ERROR peer ... not found`, nothing changed. */
  lemma SessionToUnknownPeer(r: Registry, uid: Uid, ws: Conn, callee: Uid)
    requires uid in r.peers && r.peers[uid].status == NoStatus
    requires callee != "" && !IsSpace(callee[0]) && callee !in r.peers
    ensures Receive(r, uid, ws, "SESSION " + callee) == Step(r, [Send(ws, NotFoundReply(callee))], Ok)
  {
    SessionCommandWords(callee);
  }

  /**
    `SESSION <callee>` naming a registered callee: `SESSION_OK`, both peers
    get status 'session', both `sessions` entries point at each other, and no
    other entry of either dictionary changes.
   */
  lemma SessionToKnownPeer(r: Registry, uid: Uid, ws: Conn, callee: Uid)
    requires uid in r.peers && r.peers[uid].status == NoStatus
    requires callee != "" && !IsSpace(callee[0]) && callee in r.peers
    ensures var s := Receive(r, uid, ws, "SESSION " + callee);
      && s.out == [Send(ws, "SESSION_OK")] && s.outcome == Ok
      && s.reg == Open(r, uid, callee)
      && s.reg.peers[uid].status == InSession && s.reg.peers[callee].status == InSession
      && s.reg.sessions[uid] == callee && s.reg.sessions[callee] == uid
      && s.reg.peers.Keys == r.peers.Keys
      && s.reg.sessions.Keys == r.sessions.Keys + {uid, callee}
      && (forall u :: u in r.peers && u != uid && u != callee ==> s.reg.peers[u] == r.peers[u])
      && (forall u :: u in r.sessions && u != uid && u != callee ==> s.reg.sessions[u] == r.sessions[u])
  {
    SessionCommandWords(callee);
  }

  /**
    Any frame that starts with `SESSION` and splits in two names the callee
    in its second part, whatever whitespace separates them: an unknown callee
    gets `ERROR peer ... not found`, a known one opens the session.
   */
  lemma SessionCommand(r: Registry, uid: Uid, ws: Conn, msg: string)
    requires uid in r.peers && r.peers[uid].status == NoStatus
    requires StartsWith(msg, "SESSION") && |SplitOnce(msg)| == 2
    ensures var callee := SplitOnce(msg)[1];
      Receive(r, uid, ws, msg) ==
        if callee in r.peers then Step(Open(r, uid, callee), [Send(ws, "SESSION_OK")], Ok)
        else Step(r, [Send(ws, NotFoundReply(callee))], Ok)
  {
  }

  /**
    Only the prefix is tested: any first word starting with `SESSION`
    (`SESSIONS`, `SESSION_OK`, ...) is taken as the command.
   */
  lemma SessionPrefixIsEnough(r: Registry, uid: Uid, ws: Conn, word: string, callee: Uid)
    requires uid in r.peers && r.peers[uid].status == NoStatus
    requires StartsWith(word, "SESSION") && NoSpace(word)
    requires callee != "" && !IsSpace(callee[0])
    ensures Receive(r, uid, ws, word + " " + callee) == Receive(r, uid, ws, "SESSION " + callee)
  {
    CommandWords(word, callee, "SESSION");
    SessionCommandWords(callee);
    SameCallee(r, uid, ws, word + " " + callee, "SESSION " + callee);
  }

  lemma SessionCommandWords(callee: Uid)
    requires callee != "" && !IsSpace(callee[0])
    ensures SplitOnce("SESSION " + callee) == ["SESSION", callee]
    ensures StartsWith("SESSION " + callee, "SESSION")
  {
    assert "SESSION " + callee == "SESSION" + " " + callee;
    CommandWords("SESSION", callee, "SESSION");
  }

  lemma SameCallee(r: Registry, uid: Uid, ws: Conn, m1: string, m2: string)
    requires uid in r.peers && r.peers[uid].status == NoStatus
    requires StartsWith(m1, "SESSION") && StartsWith(m2, "SESSION")
    requires |SplitOnce(m1)| == 2 && |SplitOnce(m2)| == 2 && SplitOnce(m1)[1] == SplitOnce(m2)[1]
    ensures Receive(r, uid, ws, m1) == Receive(r, uid, ws, m2)
  {
  }

  /** A bare `SESSION` (no callee) makes the tuple unpacking fail. */
  lemma BareSessionRaises(r: Registry, uid: Uid, ws: Conn)
    requires uid in r.peers && r.peers[uid].status == NoStatus
    ensures Receive(r, uid, ws, "SESSION") == Step(r, [], Raise(UnpackFailed))
  {
    SplitOnceOfWord("SESSION");
  }

  lemma LastOf(a: string, b: string)
    requires b != []
    ensures (a + b)[|a + b| - 1] == b[|b| - 1]
  {
  }

  /** The replies a `SESSION` command can produce end in 'd' and 'K'; the busy reply ends in 'y'. */
  lemma RepliesDifferFromBusy(c: Uid, callee: Uid)
    ensures NotFoundReply(c) != BusyReply(callee) && "SESSION_OK" != BusyReply(callee)
  {
    var busy := BusyReply(callee);
    var notFound := NotFoundReply(c);
    LastOf("ERROR peer " + Repr(callee), " busy");
    LastOf("ERROR peer " + Repr(c), " not found");
    assert busy[|busy| - 1] == 'y' && notFound[|notFound| - 1] == 'd';
    assert "SESSION_OK"[9] == 'K';
  }

  /**
    The `busy` reply can never be sent: it is guarded by the CALLER's status,
    and that status is None whenever a `SESSION` frame is examined.
   */
  lemma BusyReplyUnreachable(r: Registry, uid: Uid, ws: Conn, msg: string, callee: Uid)
    requires uid in r.peers && r.peers[uid].status == NoStatus
    ensures Send(ws, BusyReply(callee)) !in Receive(r, uid, ws, msg).out
  {
    if !StartsWith(msg, "SESSION") {
      UnknownMessageIgnored(r, uid, ws, msg);
    } else if |SplitOnce(msg)| != 2 {
      assert Receive(r, uid, ws, msg).out == [];
    } else {
      SessionCommand(r, uid, ws, msg);
      RepliesDifferFromBusy(SplitOnce(msg)[1], callee);
    }
  }

  /** The command would take a callee that is in a session with another peer. */
  predicate TakesBusyCallee(r: Registry, uid: Uid, msg: string)
  {
    && uid in r.peers && r.peers[uid].status == NoStatus
    && StartsWith(msg, "SESSION") && |SplitOnce(msg)| == 2
    && SplitOnce(msg)[1] in r.sessions
    && r.sessions[SplitOnce(msg)[1]] != SplitOnce(msg)[1]
  }

  /** Every frame keeps the pairing, except a `SESSION` that takes a callee paired with another peer. */
  lemma ReceiveKeepsPairing(r: Registry, uid: Uid, ws: Conn, msg: string)
    requires Paired(r) && !TakesBusyCallee(r, uid, msg)
    ensures Paired(Receive(r, uid, ws, msg).reg)
  {
    if uid in r.peers && r.peers[uid].status == NoStatus && StartsWith(msg, "SESSION") {
      var parts := SplitOnce(msg);
      if |parts| == 2 && parts[1] in r.peers {
        SessionCommand(r, uid, ws, msg);
        if parts[1] in r.sessions {
          OpenSelfPairedKeepsPairing(r, uid, parts[1]);
        } else {
          OpenKeepsPairing(r, uid, parts[1]);
        }
      }
    }
  }

  /** Taking a callee that is in a session with itself overwrites its only entry, so the pairing holds. */
  lemma OpenSelfPairedKeepsPairing(r: Registry, uid: Uid, callee: Uid)
    requires Paired(r) && uid in r.peers && callee in r.peers
    requires uid !in r.sessions && callee in r.sessions && r.sessions[callee] == callee
    ensures Paired(Open(r, uid, callee))
  {
    var r' := Open(r, uid, callee);
    assert uid != callee;
    assert r'.sessions.Keys == r.sessions.Keys + {uid};
    forall u | u in r'.peers
      ensures r'.peers[u].status == (if u in r'.sessions then InSession else NoStatus)
    {
      if u != uid && u != callee {
        assert r'.peers[u] == r.peers[u];
      }
    }
    forall u | u in r'.sessions
      ensures r'.sessions[u] in r'.sessions && r'.sessions[r'.sessions[u]] == u
    {
      if u != uid && u != callee {
        var p := r.sessions[u];
        assert p != uid && p != callee;
      }
    }
  }

  /**
    A `SESSION` that names a callee already paired with someone else succeeds
    and overwrites the callee's entry: its old partner still points at it,
    but it no longer points back.
   */
  lemma HijackBreaksPairing(r: Registry, uid: Uid, ws: Conn, msg: string)
    requires Paired(r) && TakesBusyCallee(r, uid, msg)
    ensures var callee := SplitOnce(msg)[1];
      var partner := r.sessions[callee];
      var s := Receive(r, uid, ws, msg);
      && s.out == [Send(ws, "SESSION_OK")]
      && s.reg.sessions[callee] == uid && s.reg.sessions[partner] == callee
      && !Paired(s.reg)
  {
    var callee := SplitOnce(msg)[1];
    var partner := r.sessions[callee];
    var s := Receive(r, uid, ws, msg);
    assert uid !in r.sessions;
    assert partner != uid && partner != callee;
    assert s.reg.sessions[s.reg.sessions[partner]] != partner;
  }

  /**
    Under the pairing, a peer in a session has its frame forwarded unchanged
    to its partner's websocket: none of the KeyErrors or the assertion of the
    relay branch can fire, and nothing changes.
   */
  lemma PairedPeerRelays(r: Registry, uid: Uid, ws: Conn, msg: string)
    requires Paired(r) && uid in r.peers && r.peers[uid].status == InSession
    ensures uid in r.sessions && r.sessions[uid] in r.peers
    ensures Receive(r, uid, ws, msg) == Step(r, [Send(r.peers[r.sessions[uid]].ws, msg)], Ok)
  {
    assert uid in r.sessions;
    var other := r.sessions[uid];
    assert other in r.sessions;
  }

  /** The frames received over the connection, handled in order until one raises. */
  function Run(r: Registry, uid: Uid, ws: Conn, msgs: seq<string>): (s: Step)
    ensures |s.out| <= |msgs|
    ensures forall a :: a in s.out ==> a.Send?
    decreases |msgs|
  {
    if msgs == [] then Step(r, [], Ok)
    else
      var first := Receive(r, uid, ws, msgs[0]);
      if first.outcome.Raise? then first
      else
        var rest := Run(first.reg, uid, ws, msgs[1..]);
        Step(rest.reg, first.out + rest.out, rest.outcome)
  }

  /** No frame adds or removes a key of `peers`. */
  lemma {:induction false} RunKeepsPeerKeys(r: Registry, uid: Uid, ws: Conn, msgs: seq<string>)
    ensures Run(r, uid, ws, msgs).reg.peers.Keys == r.peers.Keys
    decreases |msgs|
  {
    if msgs != [] {
      var first := Receive(r, uid, ws, msgs[0]);
      if first.outcome.Ok? {
        RunKeepsPeerKeys(first.reg, uid, ws, msgs[1..]);
      }
    }
  }

  /** A peer's websocket and address outlive every frame; only statuses and sessions change. */
  predicate SameConnections(r: Registry, r': Registry)
  {
    forall u :: u in r.peers ==>
      u in r'.peers && r'.peers[u].ws == r.peers[u].ws && r'.peers[u].raddr == r.peers[u].raddr
  }

  lemma ReceiveKeepsConnections(r: Registry, uid: Uid, ws: Conn, msg: string)
    ensures SameConnections(r, Receive(r, uid, ws, msg).reg)
  {
    if uid in r.peers && r.peers[uid].status == NoStatus && StartsWith(msg, "SESSION") && |SplitOnce(msg)| == 2 {
      SessionCommand(r, uid, ws, msg);
    }
  }

  /** No pass of the loop changes any peer's websocket or address. */
  lemma {:induction false} RunKeepsConnections(r: Registry, uid: Uid, ws: Conn, msgs: seq<string>)
    ensures SameConnections(r, Run(r, uid, ws, msgs).reg)
    decreases |msgs|
  {
    if msgs != [] {
      var first := Receive(r, uid, ws, msgs[0]);
      ReceiveKeepsConnections(r, uid, ws, msgs[0]);
      if first.outcome.Ok? {
        RunKeepsConnections(first.reg, uid, ws, msgs[1..]);
      }
    }
  }

  function Forwarded(to: Conn, msgs: seq<string>): (out: seq<Action>)
  {
    seq(|msgs|, i requires 0 <= i < |msgs| => Send(to, msgs[i]))
  }

  /** Once paired, every frame the peer sends is forwarded unchanged and in order to its partner. */
  lemma {:induction false} PairedPeerRelaysAll(r: Registry, uid: Uid, ws: Conn, msgs: seq<string>)
    requires Paired(r) && uid in r.peers && r.peers[uid].status == InSession
    ensures uid in r.sessions && r.sessions[uid] in r.peers
    ensures Run(r, uid, ws, msgs) == Step(r, Forwarded(r.peers[r.sessions[uid]].ws, msgs), Ok)
    decreases |msgs|
  {
    PairedPeerRelays(r, uid, ws, if msgs == [] then "" else msgs[0]);
    if msgs != [] {
      var to := r.peers[r.sessions[uid]].ws;
      PairedPeerRelaysAll(r, uid, ws, msgs[1..]);
      assert Forwarded(to, msgs) == [Send(to, msgs[0])] + Forwarded(to, msgs[1..]);
    }
  }

  // ---------------------------------------------------------------------
  // Teardown

  /** `cleanup_session`: drop `uid`'s session entry and, if its partner still has one, the partner's entry and peer. */
  function Cleanup(r: Registry, uid: Uid): (t: Teardown)
    ensures uid !in t.reg.sessions
    ensures uid !in r.sessions ==> t == Teardown(r, [])
    ensures uid in r.sessions ==> t.reg.sessions.Keys == r.sessions.Keys - {uid, r.sessions[uid]}
    ensures forall u :: u in t.reg.sessions ==> u in r.sessions && t.reg.sessions[u] == r.sessions[u]
    ensures var drops := uid in r.sessions && r.sessions[uid] != uid
                         && r.sessions[uid] in r.sessions && r.sessions[uid] in r.peers;
      && (drops ==> t.reg.peers == r.peers - {r.sessions[uid]}
                    && t.out == [Close(r.peers[r.sessions[uid]].ws)])
      && (!drops ==> t.reg.peers == r.peers && t.out == [])
  {
    if uid !in r.sessions then Teardown(r, [])
    else
      var other := r.sessions[uid];
      var sessions := r.sessions - {uid};
      if other !in sessions then Teardown(Registry(r.peers, sessions), [])
      else
        var sessions' := sessions - {other};
        if other !in r.peers then Teardown(Registry(r.peers, sessions'), [])
        else Teardown(Registry(r.peers - {other}, sessions'), [Close(r.peers[other].ws)])
  }

  /** `remove_peer`: clean up the session, then deregister `uid` and close its websocket. */
  function Deregister(r: Registry, uid: Uid): (t: Teardown)
    ensures uid !in t.reg.peers && uid !in t.reg.sessions
    ensures t.reg.peers.Keys <= r.peers.Keys - {uid}
    ensures t.reg.sessions.Keys <= r.sessions.Keys - {uid}
    ensures uid in r.peers ==> Close(r.peers[uid].ws) in t.out
    ensures var c := Cleanup(r, uid);
      && t.reg == Registry(c.reg.peers - {uid}, c.reg.sessions)
      && t.out == c.out + (if uid in r.peers then [Close(r.peers[uid].ws)] else [])
  {
    var c := Cleanup(r, uid);
    if uid in c.reg.peers then
      Teardown(Registry(c.reg.peers - {uid}, c.reg.sessions), c.out + [Close(c.reg.peers[uid].ws)])
    else c
  }

  /** Removing one half of a session removes both peers and both entries, and closes both sockets. */
  lemma RemovePairedPeer(r: Registry, uid: Uid)
    requires Paired(r) && uid in r.sessions
    ensures var p := r.sessions[uid];
      var t := Deregister(r, uid);
      && t.reg.peers == r.peers - {uid, p}
      && t.reg.sessions == r.sessions - {uid, p}
      && t.out == (if p == uid then [] else [Close(r.peers[p].ws)]) + [Close(r.peers[uid].ws)]
  {
  }

  /** Removing any peer keeps the pairing. */
  lemma RemoveKeepsPairing(r: Registry, uid: Uid)
    requires Paired(r)
    ensures Paired(Deregister(r, uid).reg)
  {
    var r' := Deregister(r, uid).reg;
    if uid in r.sessions {
      var p := r.sessions[uid];
      RemovePairedPeer(r, uid);
      forall u | u in r'.sessions
        ensures r'.sessions[u] in r'.sessions && r'.sessions[r'.sessions[u]] == u
      {
        var v := r.sessions[u];
        assert v != uid && v != p;
      }
    } else {
      assert r'.peers == r.peers - {uid} && r'.sessions == r.sessions;
    }
  }

  /**
    The `try`/`finally` of `handler` for an accepted `uid`: `connection_handler`
    over the frames, then `remove_peer`. The peer's own entry is gone at the
    end, at most one other peer (the partner `cleanup_session` closes) goes
    with it, and every peer left keeps its websocket and address.
   */
  function Connected(r: Registry, uid: Uid, ws: Conn, raddr: string, msgs: seq<string>): (s: Step)
    ensures uid !in s.reg.peers && uid !in s.reg.sessions
    ensures s.reg.peers.Keys <= r.peers.Keys
    ensures forall u, v :: u in r.peers && v in r.peers && u != v && u != uid && v != uid && u !in s.reg.peers ==> v in s.reg.peers
    ensures forall u :: u in s.reg.peers ==>
      u in r.peers && s.reg.peers[u].ws == r.peers[u].ws && s.reg.peers[u].raddr == r.peers[u].raddr
  {
    var start := Register(r, uid, ws, raddr);
    var run := Run(start, uid, ws, msgs);
    RunKeepsPeerKeys(start, uid, ws, msgs);
    RunKeepsConnections(start, uid, ws, msgs);
    var gone := Deregister(run.reg, uid);
    DeregisterKeepsOthers(run.reg, uid);
    Step(gone.reg, run.out + gone.out, run.outcome)
  }

  /**
    `handler`: the handshake, then `connection_handler` over the frames the
    peer sends, then `remove_peer` (the `finally` clause). A refused
    handshake raises before the `try`, so nothing is registered or removed.
   */
  function Serve(r: Registry, ws: Conn, raddr: string, frame: string, msgs: seq<string>): (s: Step)
    ensures var h := HelloPeer(r.peers.Keys, ws, frame);
      h.outcome.Refused? ==> s == Step(r, h.out, Raise(h.outcome.fault))
    ensures var h := HelloPeer(r.peers.Keys, ws, frame);
      h.outcome.Welcome? ==>
        && h.outcome.uid !in s.reg.peers && h.outcome.uid !in s.reg.sessions
        && s.reg.peers.Keys <= r.peers.Keys
        && |s.out| >= 1 && s.out[0] == Send(ws, "HELLO")
  {
    var h := HelloPeer(r.peers.Keys, ws, frame);
    if h.outcome.Refused? then Step(r, h.out, Raise(h.outcome.fault))
    else
      var uid := h.outcome.uid;
      var c := Connected(r, uid, ws, raddr, msgs);
      assert h.out == [Send(ws, "HELLO")];
      var out := h.out + c.out;
      assert out[0] == h.out[0];
      Step(c.reg, out, c.outcome)
  }

  /**
    When the hello is accepted, a connection that ends takes at most one
    peer that was registered before it (the partner), and every peer left
    keeps its websocket and address.
   */
  lemma ServeKeepsOtherPeers(r: Registry, ws: Conn, raddr: string, frame: string, msgs: seq<string>)
    requires HelloPeer(r.peers.Keys, ws, frame).outcome.Welcome?
    ensures var s := Serve(r, ws, raddr, frame, msgs);
      && (forall u, v :: u in r.peers && v in r.peers && u != v && u !in s.reg.peers ==> v in s.reg.peers)
      && (forall u :: u in s.reg.peers ==>
            u in r.peers && s.reg.peers[u].ws == r.peers[u].ws && s.reg.peers[u].raddr == r.peers[u].raddr)
  {
    var h := HelloPeer(r.peers.Keys, ws, frame);
    var uid := h.outcome.uid;
    assert uid !in r.peers;
    var c := Connected(r, uid, ws, raddr, msgs);
    var s := Serve(r, ws, raddr, frame, msgs);
    assert s.reg == c.reg;
    forall u, v | u in r.peers && v in r.peers && u != v && u !in s.reg.peers
      ensures v in s.reg.peers
    {
      assert u != uid && v != uid;
    }
  }

  /** `remove_peer(uid)` removes `uid` and at most one other peer, and changes no entry it keeps. */
  lemma DeregisterKeepsOthers(r: Registry, uid: Uid)
    ensures var t := Deregister(r, uid).reg;
      && (forall u :: u in t.peers ==> u in r.peers && t.peers[u] == r.peers[u])
      && (forall u, v :: u in r.peers && v in r.peers && u != v && u != uid && v != uid && u !in t.peers ==> v in t.peers)
  {
  }

  // ---------------------------------------------------------------------
  // The server object

  /** The module-level `peers` and `sessions` dictionaries and the handlers that update them in place. */
  class Server {
    var peers: map<Uid, Peer>
    var sessions: map<Uid, Uid>

    function State(): Registry
      reads this
    {
      Registry(peers, sessions)
    }

    constructor ()
      ensures peers == map[] && sessions == map[]
    {
      peers := map[];
      sessions := map[];
    }

    /** One iteration of the receive loop of `connection_handler`. */
    method HandleMessage(uid: Uid, ws: Conn, msg: string) returns (out: seq<Action>, outcome: Outcome)
      modifies this
      ensures Step(State(), out, outcome) == Receive(old(State()), uid, ws, msg)
    {
      out := [];
      if uid !in peers {
        return [], Raise(KeyMissing(uid));
      }
      var peerStatus := peers[uid].status;
      if peerStatus != NoStatus {
        if peerStatus == InSession {
          if uid !in sessions {
            return [], Raise(KeyMissing(uid));
          }
          var otherId := sessions[uid];
          if otherId !in peers {
            return [], Raise(KeyMissing(otherId));
          }
          var other := peers[otherId];
          if other.status != InSession {
            return [], Raise(PartnerNotInSession);
          }
          return [Send(other.ws, msg)], Ok;
        }
        return [], Raise(UnknownStatus(peerStatus));
      } else if StartsWith(msg, "SESSION") {
        var parts := SplitOnce(msg);
        if |parts| != 2 {
          return [], Raise(UnpackFailed);
        }
        var calleeId := parts[1];
        if calleeId !in peers {
          return [Send(ws, NotFoundReply(calleeId))], Ok;
        }
        if peerStatus != NoStatus {
          return [Send(ws, BusyReply(calleeId))], Ok;
        }
        out := [Send(ws, "SESSION_OK")];
        peers := peers[uid := peers[uid].(status := InSession)];
        sessions := sessions[uid := calleeId];
        peers := peers[calleeId := peers[calleeId].(status := InSession)];
        sessions := sessions[calleeId := uid];
      }
      outcome := Ok;
    }

    /** `connection_handler`: register the peer, then handle the frames `msgs` in order until one raises. */
    method ConnectionHandler(ws: Conn, raddr: string, uid: Uid, msgs: seq<string>)
      returns (out: seq<Action>, outcome: Outcome)
      modifies this
      ensures Step(State(), out, outcome) == Run(Register(old(State()), uid, ws, raddr), uid, ws, msgs)
    {
      peers := peers[uid := Peer(ws, raddr, NoStatus)];
      ghost var final := Run(State(), uid, ws, msgs);
      out, outcome := [], Ok;
      var i := 0;
      while i < |msgs|
        invariant 0 <= i <= |msgs|
        invariant var rest := Run(State(), uid, ws, msgs[i..]);
          rest.reg == final.reg && out + rest.out == final.out && rest.outcome == final.outcome
      {
        assert msgs[i..][0] == msgs[i] && msgs[i..][1..] == msgs[i + 1..];
        var reply, o := HandleMessage(uid, ws, msgs[i]);
        out := out + reply;
        if o.Raise? {
          return out, o;
        }
        i := i + 1;
      }
    }

    method CleanupSession(uid: Uid) returns (out: seq<Action>)
      modifies this
      ensures Teardown(State(), out) == Cleanup(old(State()), uid)
    {
      out := [];
      if uid in sessions {
        var otherId := sessions[uid];
        sessions := sessions - {uid};
        if otherId in sessions {
          sessions := sessions - {otherId};
          if otherId in peers {
            var wso := peers[otherId].ws;
            peers := peers - {otherId};
            out := [Close(wso)];
          }
        }
      }
    }

    method RemovePeer(uid: Uid) returns (out: seq<Action>)
      modifies this
      ensures Teardown(State(), out) == Deregister(old(State()), uid)
    {
      out := CleanupSession(uid);
      if uid in peers {
        var ws := peers[uid].ws;
        peers := peers - {uid};
        out := out + [Close(ws)];
      }
    }

    /** `handler`: one websocket connection from its first frame to its end. */
    method Handler(ws: Conn, raddr: string, frame: string, msgs: seq<string>)
      returns (out: seq<Action>, outcome: Outcome)
      modifies this
      ensures Step(State(), out, outcome) == Serve(old(State()), ws, raddr, frame, msgs)
    {
      var hello := HelloPeer(peers.Keys, ws, frame);
      if hello.outcome.Refused? {
        return hello.out, Raise(hello.outcome.fault);
      }
      var uid := hello.outcome.uid;
      var relayed, o := ConnectionHandler(ws, raddr, uid, msgs);
      var closed := RemovePeer(uid);
      out, outcome := hello.out + (relayed + closed), o;
    }
  }
}
