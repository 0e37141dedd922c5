/**
  The sending side of the webrtcbin client (main.c): the two JSON messages
  it sends to the signalling server, the order of its reactions to the
  events webrtcbin emits, and the start-up plugin check.

  The globals `webrtc1` and `ws_conn` are folded into one object, an
  `Endpoint`, whose `log` records every signal emitted on `webrtc1` and
  every text frame sent on `ws_conn`, in the order they happen.
 */
module Client {
  import opened Json

  /** C `guint`. */
  type Guint = x: int | 0 <= x < 0x1_0000_0000

  // ---------------------------------------------------------------------
  // Messages

  /** `send_ice_candidate_message`: `{"ice": {"candidate": ..., "sdpMLineIndex": ...}}`. */
  function IceCandidateMessage(mlineindex: Guint, candidate: string): (m: Json)
    ensures m.JObject? && Keys(m.members) == ["ice"]
    ensures var ice := Get(m.members, "ice");
      && ice.Some? && ice.value.JObject?
      && Keys(ice.value.members) == ["candidate", "sdpMLineIndex"]
      && Get(ice.value.members, "candidate") == Some(JString(candidate))
      && Get(ice.value.members, "sdpMLineIndex") == Some(JInt(mlineindex))
  {
    var ice := SetMember(SetMember([], "candidate", JString(candidate)), "sdpMLineIndex", JInt(mlineindex));
    JObject(SetMember([], "ice", JObject(ice)))
  }

  /**
    `send_sdp_offer`: `{"sdp": {"type": "offer", "sdp": ...}}`. The type is
    the literal "offer", whatever the description passed in.
   */
  function SdpOfferMessage(sdpText: string): (m: Json)
    ensures m.JObject? && Keys(m.members) == ["sdp"]
    ensures var sdp := Get(m.members, "sdp");
      && sdp.Some? && sdp.value.JObject?
      && Keys(sdp.value.members) == ["type", "sdp"]
      && Get(sdp.value.members, "type") == Some(JString("offer"))
      && Get(sdp.value.members, "sdp") == Some(JString(sdpText))
  {
    var sdp := SetMember(SetMember([], "type", JString("offer")), "sdp", JString(sdpText));
    JObject(SetMember([], "sdp", JObject(sdp)))
  }

  datatype SdpType = Offer | Answer

  /** A signalling message as the receiving peer reads it. */
  datatype Signal = Ice(mlineindex: nat, candidate: string) | Sdp(kind: SdpType, text: string)

  function ReadSdpType(j: Json): Option<SdpType>
  {
    if j == JString("offer") then Some(Offer)
    else if j == JString("answer") then Some(Answer)
    else None
  }

  /**
    How a peer reads a message off the wire: an "sdp" member holding
    "type" ("offer" or "answer") and "sdp" text, or an "ice" member holding
    "candidate" text and a non-negative "sdpMLineIndex".
   */
  function ReadSignal(m: Json): (s: Option<Signal>)
    ensures s.Some? ==> m.JObject?
  {
    if !m.JObject? then None
    else
      match Get(m.members, "sdp")
      case Some(JObject(sdp)) =>
        (match (Get(sdp, "type"), Get(sdp, "sdp"))
         case (Some(t), Some(JString(text))) =>
           (match ReadSdpType(t)
            case Some(kind) => Some(Sdp(kind, text))
            case None => None)
         case _ => None)
      case Some(_) => None
      case None =>
        match Get(m.members, "ice")
        case Some(JObject(ice)) =>
          (match (Get(ice, "candidate"), Get(ice, "sdpMLineIndex"))
           case (Some(JString(c)), Some(JInt(i))) => if i >= 0 then Some(Ice(i, c)) else None
           case _ => None)
        case _ => None
  }

  /** The ICE message reads back as the candidate it was built from. */
  lemma IceMessageRoundTrip(mlineindex: Guint, candidate: string)
    ensures ReadSignal(IceCandidateMessage(mlineindex, candidate)) == Some(Ice(mlineindex, candidate))
  {
    var m := IceCandidateMessage(mlineindex, candidate);
    assert "sdp" !in Keys(m.members);
  }

  /** The SDP message reads back as an offer carrying the same text. */
  lemma SdpMessageRoundTrip(sdpText: string)
    ensures ReadSignal(SdpOfferMessage(sdpText)) == Some(Sdp(Offer, sdpText))
  {
  }

  // ---------------------------------------------------------------------
  // Reactions to webrtcbin's signals

  /** A `GstWebRTCSessionDescription`, with its SDP already rendered as text. */
  datatype SessionDescription = SessionDescription(kind: SdpType, sdp: string)

  datatype EngineEvent =
    | NegotiationNeeded                                    // "on-negotiation-needed"
    | OfferCreated(offer: SessionDescription)              // the create-offer promise is replied
    | IceCandidate(mlineindex: Guint, candidate: string)   // "on-ice-candidate"

  datatype Effect =
    | CreateOffer                                 // "create-offer" emitted on webrtc1
    | SetLocalDescription(desc: SessionDescription)  // "set-local-description" emitted on webrtc1
    | SendText(msg: Json)                         // a text frame sent on ws_conn

  /** What the client does, in order, when webrtcbin delivers `e`. */
  function Reaction(e: EngineEvent): (fx: seq<Effect>)
    ensures 1 <= |fx| <= 2
    ensures CreateOffer in fx <==> e.NegotiationNeeded?
  {
    match e
    case NegotiationNeeded => [CreateOffer]
    case OfferCreated(offer) => [SetLocalDescription(offer), SendText(SdpOfferMessage(offer.sdp))]
    case IceCandidate(i, c) => [SendText(IceCandidateMessage(i, c))]
  }

  /** The effects of a sequence of events, handled one after another. */
  function Trace(events: seq<EngineEvent>): (t: seq<Effect>)
    ensures |events| <= |t| <= 2 * |events|
  {
    if events == [] then [] else Reaction(events[0]) + Trace(events[1..])
  }

  predicate SendsSdp(e: Effect)
  {
    e.SendText? && ReadSignal(e.msg).Some? && ReadSignal(e.msg).value.Sdp?
  }

  /** Every SDP frame is immediately preceded by setting that same SDP as the local description. */
  predicate LocalSetBeforeSend(t: seq<Effect>)
  {
    forall i :: 0 <= i < |t| && SendsSdp(t[i]) ==>
      && 0 < i && t[i - 1].SetLocalDescription?
      && t[i] == SendText(SdpOfferMessage(t[i - 1].desc.sdp))
  }

  lemma ReactionSetsLocalFirst(e: EngineEvent)
    ensures LocalSetBeforeSend(Reaction(e))
  {
    match e
    case NegotiationNeeded =>
    case OfferCreated(offer) =>
      SdpMessageRoundTrip(offer.sdp);
    case IceCandidate(i, c) =>
      IceMessageRoundTrip(i, c);
  }

  lemma LocalSetBeforeSendAppend(a: seq<Effect>, b: seq<Effect>)
    requires LocalSetBeforeSend(a) && LocalSetBeforeSend(b)
    ensures LocalSetBeforeSend(a + b)
  {
    var t := a + b;
    forall i | 0 <= i < |t| && SendsSdp(t[i])
      ensures 0 < i && t[i - 1].SetLocalDescription? && t[i] == SendText(SdpOfferMessage(t[i - 1].desc.sdp))
    {
      if i >= |a| {
        assert t[i] == b[i - |a|];
        assert t[i - 1] == b[i - 1 - |a|];
      }
    }
  }

  /** Whatever webrtcbin delivers, every offer is applied locally before it is sent. */
  lemma {:induction false} OfferAppliedBeforeSent(events: seq<EngineEvent>)
    ensures LocalSetBeforeSend(Trace(events))
  {
    if events != [] {
      ReactionSetsLocalFirst(events[0]);
      OfferAppliedBeforeSent(events[1..]);
      LocalSetBeforeSendAppend(Reaction(events[0]), Trace(events[1..]));
    }
  }

  function CountNeeded(events: seq<EngineEvent>): nat
  {
    if events == [] then 0 else (if events[0] == NegotiationNeeded then 1 else 0) + CountNeeded(events[1..])
  }

  function CountCreateOffers(t: seq<Effect>): nat
  {
    if t == [] then 0 else (if t[0] == CreateOffer then 1 else 0) + CountCreateOffers(t[1..])
  }

  lemma {:induction false} CountCreateOffersAppend(a: seq<Effect>, b: seq<Effect>)
    ensures CountCreateOffers(a + b) == CountCreateOffers(a) + CountCreateOffers(b)
  {
    if a == [] {
      assert a + b == b;
    } else {
      assert (a + b)[0] == a[0] && (a + b)[1..] == a[1..] + b;
      CountCreateOffersAppend(a[1..], b);
    }
  }

  /** Each negotiation-needed event issues exactly one create-offer: repeated events are not coalesced. */
  lemma {:induction false} OneOfferRequestPerEvent(events: seq<EngineEvent>)
    ensures CountCreateOffers(Trace(events)) == CountNeeded(events)
  {
    if events != [] {
      OneOfferRequestPerEvent(events[1..]);
      CountCreateOffersAppend(Reaction(events[0]), Trace(events[1..]));
    }
  }

  predicate IsAnswer(s: Signal)
  {
    s.Sdp? && s.kind == Answer
  }

  /** Every frame the client sends is a well-formed signal, and none is an SDP answer. */
  lemma {:induction false} NeverSendsAnswer(events: seq<EngineEvent>)
    ensures forall e :: e in Trace(events) && e.SendText? ==>
      ReadSignal(e.msg).Some? && !IsAnswer(ReadSignal(e.msg).value)
  {
    if events != [] {
      NeverSendsAnswer(events[1..]);
      match events[0]
      case NegotiationNeeded =>
      case OfferCreated(offer) =>
        SdpMessageRoundTrip(offer.sdp);
      case IceCandidate(i, c) =>
        IceMessageRoundTrip(i, c);
    }
  }

  /** The globals `webrtc1` and `ws_conn`, seen through what is emitted on them. */
  class Endpoint {
    var log: seq<Effect>

    constructor ()
      ensures log == []
    {
      log := [];
    }

    method SendIceCandidateMessage(mlineindex: Guint, candidate: string)
      modifies this
      ensures log == old(log) + [SendText(IceCandidateMessage(mlineindex, candidate))]
    {
      var ice := SetMember([], "candidate", JString(candidate));
      ice := SetMember(ice, "sdpMLineIndex", JInt(mlineindex));
      var msg := SetMember([], "ice", JObject(ice));
      log := log + [SendText(JObject(msg))];
    }

    method SendSdpOffer(offer: SessionDescription)
      modifies this
      ensures log == old(log) + [SendText(SdpOfferMessage(offer.sdp))]
    {
      var sdp := SetMember([], "type", JString("offer"));
      sdp := SetMember(sdp, "sdp", JString(offer.sdp));
      var msg := SetMember([], "sdp", JObject(sdp));
      log := log + [SendText(JObject(msg))];
    }

    /** `on_offer_created`: set the offer as local description, then send it to the peer. */
    method OnOfferCreated(offer: SessionDescription)
      modifies this
      ensures log == old(log) + Reaction(OfferCreated(offer))
    {
      log := log + [SetLocalDescription(offer)];
      SendSdpOffer(offer);
    }

    /** `on_negotiation_needed`: one create-offer request per event. */
    method OnNegotiationNeeded()
      modifies this
      ensures log == old(log) + Reaction(NegotiationNeeded)
    {
      log := log + [CreateOffer];
    }
  }

  // ---------------------------------------------------------------------
  // Start-up check

  const NEEDED_PLUGINS: seq<string> :=
    ["opus", "vpx", "nice", "webrtc", "dtls", "srtp", "rtpmanager", "videotestsrc", "audiotestsrc"]

  /** The names of `needed` missing from `registry`, in list order. */
  function Missing(needed: seq<string>, registry: set<string>): (m: seq<string>)
    ensures forall n :: n in m <==> n in needed && n !in registry
  {
    if needed == [] then []
    else
      var last := needed[|needed| - 1];
      assert needed == needed[..|needed| - 1] + [last];
      Missing(needed[..|needed| - 1], registry) + (if last in registry then [] else [last])
  }

  /**
    `check_plugins`: look every needed plugin up in the registry, report
    each one that is missing, and succeed only if none is.
   */
  method CheckPlugins(registry: set<string>) returns (ok: bool, reported: seq<string>)
    ensures ok <==> forall i :: 0 <= i < |NEEDED_PLUGINS| ==> NEEDED_PLUGINS[i] in registry
    ensures reported == Missing(NEEDED_PLUGINS, registry)
  {
    ok, reported := true, [];
    var i := 0;
    while i < |NEEDED_PLUGINS|
      invariant 0 <= i <= |NEEDED_PLUGINS|
      invariant reported == Missing(NEEDED_PLUGINS[..i], registry)
      invariant ok <==> forall j :: 0 <= j < i ==> NEEDED_PLUGINS[j] in registry
    {
      assert NEEDED_PLUGINS[..i + 1][..i] == NEEDED_PLUGINS[..i];
      var name := NEEDED_PLUGINS[i];
      if name !in registry {
        reported := reported + [name];
        ok := false;
        i := i + 1;
        continue;
      }
      i := i + 1;
    }
    assert NEEDED_PLUGINS[..i] == NEEDED_PLUGINS;
  }
}
