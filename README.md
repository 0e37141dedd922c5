# webrtcbin test client and its signalling relay, in Dafny

This project models two pieces of a small WebRTC test setup and proves properties of them.

- **The relay server** (`signalling.py`) keeps two dictionaries. `peers` maps a uid to its websocket, remote address and status (None or `'session'`). `sessions` maps a uid to its partner's uid. A peer connects and sends `HELLO <uid>`. It may then send `SESSION <callee>` to pair itself with another peer. After that, every frame it sends is relayed to its partner. When a connection ends, the peer and its session are removed.
- **The client** (`main.c`) builds two JSON messages for the relay: `{"ice":{"candidate":…,"sdpMLineIndex":…}}` and `{"sdp":{"type":"offer","sdp":…}}`. It reacts to webrtcbin's negotiation-needed signal by requesting an offer. When the offer arrives, it sets that offer as the local description and then sends it. At start-up it checks that nine GStreamer plugins are installed.

Files:

- `pystr.dfy`, module `PyStr`: the Python string operations the relay uses. These are `str.split()`, `split(maxsplit=1)`, `startswith` and `repr`. Whitespace means exactly the characters `str.isspace()` accepts.
- `relay.dfy`, module `Relay`. Each handler is a pure function on a `Registry` value, which holds the two dictionaries. The result is the new registry, the actions taken on websockets (`Send`, `Close`, `CloseWith(code, reason)`) and an outcome. The outcome is `Ok`, or `Raise(fault)` when the Python code raises: KeyError, ValueError from tuple unpacking, AssertionError, or the `Exception`s of `hello_peer`. The class `Relay.Server` holds `peers` and `sessions` as `map` fields. Each of its methods updates those fields step by step and is proved to make exactly the transition its function describes. `Paired` is the invariant the relay relies on: each half of a session points at the other, and a peer's status is `'session'` exactly when it has an entry in `sessions`.
- `json.dfy`, module `Json`: JSON values. Object members keep their insertion order. `SetMember` models `json_object_set_*_member`.
- `client.dfy`, module `Client`: the two message builders and the reactions to webrtcbin's signals. The class `Client.Endpoint` records, in order, every signal emitted on `webrtc1` and every frame sent on `ws_conn`. `CheckPlugins` is the start-up check.

`Client.ReadSignal` is a reference reader. It reads a message the way the receiving peer reads it off the wire. It is not part of `main.c`. It serves as the inverse against which the builders are proved.

Behaviour of the relay that the lemmas bring out:

- The "busy" guard on `SESSION` (signalling.py:87) tests the caller's own status. That status is always None on this path, because line 81 is reached only when it is None. So the `ERROR peer … busy` reply can never be sent (`BusyReplyUnreachable`).
- A `SESSION` naming a callee that is in a session with another peer still succeeds. It overwrites the callee's `sessions` entry, and the callee's old partner is left pointing at it (`HijackBreaksPairing`). Every other frame keeps the pairing (`ReceiveKeepsPairing`), including one that takes a callee in a session with itself, whose only entry is overwritten (`OpenSelfPairedKeepsPairing`).
- The command is recognised by prefix only. `SESSIONX bob` is treated as `SESSION bob` (`SessionPrefixIsEnough`). A bare `SESSION` raises ValueError (`BareSessionRaises`).
- `split(maxsplit=1)` strips the whitespace before the uid. So the `not uid` test of line 114 never fires, and `HELLO` followed by nothing is a ValueError, not a 1002 close.
- A peer may open a session with itself. Its frames are then relayed back to it.

`main.c` issues one create-offer per negotiation-needed event; repeated events are not coalesced (`OneOfferRequestPerEvent`).

## Model

| member | source | states |
|---|---|---|
| `PyStr.Split` | signalling.py:114 | every word `str.split()` returns is non-empty and free of whitespace |
| `PyStr.SplitFirstWord` | signalling.py:114 | `str.split()` returns no words exactly when the string is blank; otherwise its first word is the leading whitespace-free run of the string, after leading whitespace, ending at whitespace or at the end |
| `PyStr.SplitOnce` | signalling.py:109 | `split(maxsplit=1)` gives at most two non-empty parts; the first has no whitespace and the second does not start with whitespace; no parts exactly when the string is blank |
| `PyStr.SplitOnceParts` | signalling.py:109 | the first part of `split(maxsplit=1)` is the first word of the string; a second part is present exactly when something other than whitespace follows that word, and it is everything after the word with the leading whitespace removed |
| `PyStr.SplitIsSingleton` | signalling.py:114 | `uid.split() == [uid]` holds exactly when the uid is non-empty and contains no whitespace |
| `PyStr.StartsWith` | signalling.py:81 | no ensures; `str.startswith` as a prefix test; `SessionPrefixIsEnough` and `CommandWords` carry its use at line 81 |
| `PyStr.Repr` | signalling.py:85 | no ensures; the `{!r}` of a string in the error replies; `ReprIsQuoted` states its shape |
| `PyStr.ReprIsQuoted` | signalling.py:85-88 | `repr(s)` is at least two characters longer than `s`, starts and ends with the same quote, and uses double quotes exactly when `s` has a single quote and no double quote |
| `Relay.HelloPeer` | signalling.py:101-121 | the hello is accepted exactly when it splits into `HELLO` and a uid that is whitespace-free and not yet in `peers`; the server then replies `HELLO` and returns that uid; a first word other than `HELLO` closes with 1002 "invalid protocol", a bad or taken uid closes with 1002 "invalid peer uid", and a frame that does not split in two raises without a close |
| `Relay.HelloAcceptsFreshUid` | signalling.py:109-121 | `HELLO <uid>` with a fresh, whitespace-free uid is accepted as that uid and answered with `HELLO` |
| `Relay.HelloRefusesTakenUid` | signalling.py:114-116 | `HELLO <uid>` with a uid already in `peers` is closed with code 1002 "invalid peer uid" |
| `Relay.Register` | signalling.py:59-64 | registration adds `peers[uid]` with the connection, the address and status None; it changes no other entry and leaves `sessions` alone |
| `Relay.RegisterKeepsPairing` | signalling.py:62-63 | registering a uid not yet in `peers` keeps the pairing invariant |
| `Relay.Open` | signalling.py:93-97 | a session sets both statuses to `'session'` and both `sessions` entries to each other; no key of `peers` is added or removed, and no other entry changes |
| `Relay.OpenKeepsPairing` | signalling.py:90-97 | opening a session between two peers that are in none keeps the pairing invariant |
| `Relay.OpenSelfPairedKeepsPairing` | signalling.py:90-97 | opening a session with a callee that is in a session with itself overwrites the callee's only entry and keeps the pairing invariant |
| `Relay.Receive` | signalling.py:65-99 | one frame never adds or removes a key of `peers`; a frame that raises changes nothing and sends nothing; at most one frame is sent |
| `Relay.NotFoundReply` | signalling.py:85 | no ensures; the text `ERROR peer <repr(callee)> not found`; `RepliesDifferFromBusy` (in `BusyReplyUnreachable`) proves it never equals the busy reply |
| `Relay.BusyReply` | signalling.py:88 | no ensures; the text `ERROR peer <repr(callee)> busy`; `BusyReplyUnreachable` proves it is never sent |
| `Relay.UnknownMessageIgnored` | signalling.py:98-99 | a peer in no session that sends something not starting with `SESSION` gets no reply and changes nothing |
| `Relay.UnknownStatusRaises` | signalling.py:71-80 | a peer whose status is neither None nor `'session'` raises the unknown-status AssertionError, sending nothing and changing nothing |
| `Relay.PartnerOutOfSessionRaises` | signalling.py:73-76 | a peer in a session whose partner's status is not `'session'` fails the `assert` before anything is sent, with no change of state |
| `Relay.SessionToUnknownPeer` | signalling.py:81-86 | `SESSION <callee>` for a callee not in `peers` replies `ERROR peer <repr(callee)> not found` and changes nothing |
| `Relay.SessionToKnownPeer` | signalling.py:81-97 | `SESSION <callee>` for a registered callee replies `SESSION_OK`, and the new registry is exactly `Open(r, uid, callee)`: both statuses become `'session'`, `sessions[uid] = callee` and `sessions[callee] = uid`, every websocket and address is kept, and nothing else changes |
| `Relay.SessionCommand` | signalling.py:81-97 | any frame starting with `SESSION` that splits in two, whatever whitespace separates the parts, takes its second part as the callee; an unknown callee gets the `not found` reply with no change, and a known one gets `SESSION_OK` and `Open` |
| `Relay.SessionPrefixIsEnough` | signalling.py:81-83 | any first word starting with `SESSION` is handled exactly like `SESSION` |
| `Relay.BareSessionRaises` | signalling.py:83 | a bare `SESSION` raises the unpacking error and changes nothing |
| `Relay.BusyReplyUnreachable` | signalling.py:69-89 | the `busy` reply is never sent to a peer whose status is None, which is the only case that reaches the `SESSION` branch |
| `Relay.ReceiveKeepsPairing` | signalling.py:65-99 | every frame keeps the pairing invariant, except a `SESSION` naming a callee paired with another peer |
| `Relay.HijackBreaksPairing` | signalling.py:87-97 | a `SESSION` naming a callee paired with another peer is accepted; it makes the callee point at the caller while the old partner still points at the callee, which breaks the pairing |
| `Relay.PairedPeerRelays` | signalling.py:71-78 | under the pairing, a frame from a peer in a session is forwarded unchanged to its partner's websocket; the partner's status is `'session'`, no lookup fails and nothing changes |
| `Relay.RunKeepsPeerKeys` | signalling.py:65-99 | any sequence of frames leaves the key set of `peers` as it was |
| `Relay.ReceiveKeepsConnections` | signalling.py:69-99 | one frame never changes a registered peer's websocket or address, and removes no peer |
| `Relay.RunKeepsConnections` | signalling.py:65-99 | no sequence of frames changes a registered peer's websocket or address, or removes a peer |
| `Relay.Run` | signalling.py:65-99 | the `while True` loop over the received frames, stopping at the first that raises: it only ever sends (it closes nothing) and sends at most one frame per frame received; `RunKeepsPeerKeys` and `PairedPeerRelaysAll` carry its other properties |
| `Relay.PairedPeerRelaysAll` | signalling.py:65-78 | under the pairing, every frame a peer in a session sends is forwarded, unchanged and in order, to its partner |
| `Relay.Cleanup` | signalling.py:36-49 | `cleanup_session` removes `uid` and its partner from `sessions`; it removes the partner from `peers`, and closes the partner's socket, exactly when the partner is another uid still in `sessions` and in `peers`; every remaining entry is unchanged |
| `Relay.Deregister` | signalling.py:51-57 | `remove_peer(uid)` leaves exactly the registry `cleanup_session` leaves, minus `peers[uid]`; every other entry is kept; its actions are the cleanup's closes followed by closing the peer's own socket when `uid` was registered; afterwards `uid` is in neither `peers` nor `sessions` |
| `Relay.DeregisterKeepsOthers` | signalling.py:36-57 | `remove_peer(uid)` removes `uid` and at most one other peer, and every peer it keeps is unchanged |
| `Relay.RemovePairedPeer` | signalling.py:36-57 | removing one half of a session removes both peers and both `sessions` entries and closes both sockets, the partner's first |
| `Relay.RemoveKeepsPairing` | signalling.py:36-57 | removing any peer keeps the pairing invariant |
| `Relay.Serve` | signalling.py:123-132 | a refused hello raises before anything is registered; otherwise the first frame sent is `HELLO` and, once the connection ends, the uid is in neither dictionary and no key of `peers` was added |
| `Relay.Connected` | signalling.py:127-132 | the `try`/`finally` of `handler` for an accepted uid: at the end the uid is in neither dictionary, no key of `peers` was added, at most one other peer registered before (the partner) is gone, and every peer left keeps its websocket and address |
| `Relay.ServeKeepsOtherPeers` | signalling.py:123-132 | when the hello is accepted, a finished connection takes at most one peer registered before it, and every peer left keeps its websocket and address |
| `Relay.Server.constructor` | signalling.py:19-20 | both dictionaries start empty |
| `Relay.Server.HandleMessage` | signalling.py:66-99 | the in-place updates of one loop pass produce exactly the state, replies and outcome of `Receive` |
| `Relay.Server.ConnectionHandler` | signalling.py:59-99 | registration followed by the receive loop produces exactly the state and frames of `Register` then `Run` |
| `Relay.Server.CleanupSession` | signalling.py:36-49 | the `del` steps produce exactly the state and closes of `Cleanup` |
| `Relay.Server.RemovePeer` | signalling.py:51-57 | produces exactly the state and closes of `Deregister` |
| `Relay.Server.Handler` | signalling.py:123-132 | hello, handler loop and `finally: remove_peer` produce exactly the state and frames of `Serve` |
| `Json.Get` | main.c:47-51 | a member is absent exactly when its name is not among the object's keys |
| `Json.SetMember` | main.c:47-51 | after setting, the member holds the new value and every other member is unchanged; a new name is appended to the key order and an existing one keeps its place |
| `Client.IceCandidateMessage` | main.c:42-52 | the ICE message is an object whose only key is `ice`; its value has exactly the keys `candidate` and `sdpMLineIndex`, holding the candidate text and the m-line index |
| `Client.SdpOfferMessage` | main.c:59-73 | the SDP message is an object whose only key is `sdp`; its value has exactly the keys `type` and `sdp`, holding `"offer"` and the SDP text |
| `Client.IceMessageRoundTrip` | main.c:47-51 | the ICE message reads back as the same candidate and m-line index |
| `Client.SdpMessageRoundTrip` | main.c:66-72 | the SDP message reads back as an offer with the same SDP text |
| `Client.ReactionSetsLocalFirst` | main.c:82-98 | within the reaction to a created offer, setting the local description comes immediately before the frame carrying that SDP |
| `Client.Reaction` | main.c:42-105 | the effects of one callback: one or two, and a create-offer request exactly for negotiation-needed (line 104); `ReactionSetsLocalFirst` states the order of lines 91 and 96 |
| `Client.Trace` | main.c:42-105 | the effects of callbacks run one after another: at least one and at most two per event; `OfferAppliedBeforeSent`, `OneOfferRequestPerEvent` and `NeverSendsAnswer` are about it |
| `Client.OfferAppliedBeforeSent` | main.c:82-105 | in the effects of any sequence of events, every SDP frame sent comes immediately after setting that same SDP as the local description |
| `Client.OneOfferRequestPerEvent` | main.c:100-105 | the number of create-offer requests equals the number of negotiation-needed events; none are coalesced |
| `Client.NeverSendsAnswer` | main.c:42-79 | every frame the client sends reads as a valid ICE or SDP signal, and none is an SDP answer |
| `Client.Endpoint.constructor` | main.c:13-15 | nothing has been emitted on `webrtc1` or sent on `ws_conn` yet |
| `Client.Endpoint.SendIceCandidateMessage` | main.c:42-57 | appends exactly one text frame, the ICE message |
| `Client.Endpoint.SendSdpOffer` | main.c:59-79 | appends exactly one text frame, the SDP offer message built from the description's SDP text |
| `Client.Endpoint.OnOfferCreated` | main.c:82-98 | emits set-local-description with the offer, then sends the offer, and nothing else |
| `Client.Endpoint.OnNegotiationNeeded` | main.c:100-105 | emits exactly one create-offer |
| `Client.Missing` | main.c:163-176 | a name is reported missing exactly when it is in the needed list and not in the registry |
| `Client.CheckPlugins` | main.c:158-178 | returns true exactly when every needed plugin is in the registry; every missing name is reported, in list order, and the loop does not stop at the first one |

## Left out

- Websocket transport, asyncio scheduling and the keepalive loop of `recv_msg_ping` (signalling.py:22-34). A connection's frames are a parameter, and closing a socket is a `Close` action.
- Interleaving between connections. Each `await` in the relay lets another handler run. For example, two connections with the same uid could both pass the check at signalling.py:114 before either registers. `Register` then overwrites, as the dictionary assignment does. The lemmas assume the handlers run one at a time.
- A failing `ws.send` (ConnectionClosed while sending), and binary frames, on which `startswith` with a `str` argument would raise.
- `print` logging, argparse and the server bootstrap (signalling.py:8-17, 134-142).
- `PyStr.Repr`: the escapes `repr` applies to non-printable characters other than newline, tab and carriage return (`\xNN`, `\uNNNN`) are not modelled.
- `get_string_from_json_object` (main.c:26-40): messages are JSON values, not serialised text.
- `get_sdp_message_as_text` (main.c:63) is not part of this model. A description carries its SDP as text already.
- `start_pipeline`, the GMainLoop, GOption parsing and `main` (main.c:112-156, 180-216): these are calls into GStreamer and GLib.
- `connect_to_websocket_server_async` and `on_server_message` are not part of this model. So there is no inbound handling, no answer application and no candidate buffering on the client side. Sends assume `ws_conn` is open.
- `Client.Trace`: webrtcbin's callbacks (`on_negotiation_needed`, `send_ice_candidate_message`, and `on_offer_created` run as a promise change function) are assumed to run one at a time and to completion. `main.c` takes no lock around `ws_conn`. A frame sent by another callback between main.c:91 and main.c:96 is not modelled, and `LocalSetBeforeSend`'s "immediately preceded" holds only under this assumption.
- `Client.Endpoint.OnOfferCreated`: the local description is interrupted rather than awaited (main.c:92). The model records only the order of emissions. A create-offer reply without an `offer` field, which would pass NULL on, is not modelled.

