// The signer: nonce lanes (src/rosetta_signer/nonce_store.py) and the signing protocol
// (src/rosetta_signer/protocol.py, src/rosetta_signer/did.py).
module Signer {
  import opened Wrappers
  import opened Canonical

  // ---- signatures ----

  // An ideal signature: it verifies for exactly the identity and the bytes it was made from.
  datatype Signature = Signature(did: string, payload: string)

  predicate VerifySignature(did: string, payload: string, signature: Signature) {
    signature == Signature(did, payload)
  }

  // ---- nonce lanes ----

  // The largest value an SQLite INTEGER column holds.
  const MAX_SQL_INTEGER: nat := 0x7FFF_FFFF_FFFF_FFFF

  type Lanes = map<string, nat>

  function Lane(lanes: Lanes, scope: string): nat {
    if scope in lanes then lanes[scope] else 0
  }

  function NextNonce(lanes: Lanes, scope: string, requested: Option<int>): (r: Result<nat, string>)
    ensures r.Ok? ==> Lane(lanes, scope) < r.value
    ensures r.Ok? ==> NonceInRange(r.value)
  {
    var current := Lane(lanes, scope);
    var candidate := match requested case None => current + 1 case Some(n) => n;
    if candidate <= current || candidate < 1 || candidate > MAX_NONCE then Err("nonce is not strictly increasing")
    else if candidate > MAX_SQL_INTEGER then Err("nonce does not fit the column")
    else Ok(candidate)
  }

  datatype SignEvent = SignEvent(action: Action, scope: string, payload: string, nonce: Option<nat>)

  class NonceStore {
    var lanes: Lanes
    var events: seq<SignEvent>

    constructor ()
      ensures lanes == map[] && events == []
    {
      lanes := map[];
      events := [];
    }

    // One transaction: a refused nonce leaves the lane as it was.
    method Next(scope: string, requested: Option<int>) returns (r: Result<nat, string>)
      modifies this`lanes
      ensures r == NextNonce(old(lanes), scope, requested)
      ensures lanes == if r.Ok? then old(lanes)[scope := r.value] else old(lanes)
    {
      var current := 0;
      if scope in lanes {
        current := lanes[scope];
      }
      var candidate: int := current + 1;
      if requested.Some? {
        candidate := requested.value;
      }
      if candidate <= current || candidate < 1 || candidate > MAX_NONCE {
        return Err("nonce is not strictly increasing");
      }
      if candidate > MAX_SQL_INTEGER {
        return Err("nonce does not fit the column");
      }
      lanes := lanes[scope := candidate];
      r := Ok(candidate);
    }

    method Record(event: SignEvent)
      modifies this`events
      ensures events == old(events) + [event]
    {
      events := events + [event];
    }
  }

  // ---- requests ----

  datatype Action = TechnocoreMessage | TechnocoreNote | ArtifactRoot | ServiceDocument | EvolutionProposal

  datatype SignRequest = SignRequest(
    action: Action,
    scope: string,
    nonce: Option<int>,
    room: Option<string>,
    text: Option<string>,
    digest: Option<string>,
    namespace: Option<string>,
    key: Option<string>,
    value: Option<string>)

  datatype SignResponse = SignResponse(did: string, signature: Signature, nonce: Option<nat>)

  function PresentFields(q: SignRequest): set<string> {
    (if q.room.Some? then {"room"} else {}) + (if q.text.Some? then {"text"} else {})
    + (if q.digest.Some? then {"digest"} else {}) + (if q.namespace.Some? then {"namespace"} else {})
    + (if q.key.Some? then {"key"} else {}) + (if q.value.Some? then {"value"} else {})
  }

  function RequiredFields(action: Action): set<string> {
    match action
    case TechnocoreMessage => {"room", "text"}
    case TechnocoreNote => {"namespace", "key", "value"}
    case _ => {"digest"}
  }

  function MessageRequest(scope: string, room: string, text: string): SignRequest {
    SignRequest(TechnocoreMessage, scope, None, Some(room), Some(text), None, None, None, None)
  }

  function Domain(action: Action): string
    requires action.ArtifactRoot? || action.ServiceDocument? || action.EvolutionProposal?
  {
    match action
    case ArtifactRoot => "rosetta.artifact.v1\0"
    case ServiceDocument => "rosetta.service-document.v1\0"
    case EvolutionProposal => "rosetta.evolution-proposal.v1\0"
  }

  predicate ValidDigest(digest: string) {
    && "sha256:" <= digest && |digest| == 71
    && forall i :: 7 <= i < |digest| ==> '0' <= digest[i] <= '9' || 'a' <= digest[i] <= 'f'
  }

  // The lane or label a request is filed under: one lane per room, and one per note key
  // shared by both namespaces, whatever role label the caller gives.
  function ScopeOf(q: SignRequest): string
    requires PresentFields(q) == RequiredFields(q.action)
  {
    match q.action
    case TechnocoreMessage => FieldsArePresent(q); "message:" + q.room.value
    case TechnocoreNote => FieldsArePresent(q); "note:" + q.key.value
    case ArtifactRoot => "artifact:" + q.scope
    case ServiceDocument => "service:" + q.scope
    case EvolutionProposal => "evolution:" + q.scope
  }

  lemma {:induction false} FieldsArePresent(q: SignRequest)
    requires PresentFields(q) == RequiredFields(q.action)
    ensures q.action.TechnocoreMessage? ==> q.room.Some? && q.text.Some?
    ensures q.action.TechnocoreNote? ==> q.namespace.Some? && q.key.Some? && q.value.Some?
    ensures !Laned(q.action) ==> q.digest.Some?
  {
    assert "room" in PresentFields(q) <==> q.room.Some?;
    assert "text" in PresentFields(q) <==> q.text.Some?;
    assert "digest" in PresentFields(q) <==> q.digest.Some?;
    assert "namespace" in PresentFields(q) <==> q.namespace.Some?;
    assert "key" in PresentFields(q) <==> q.key.Some?;
    assert "value" in PresentFields(q) <==> q.value.Some?;
  }

  predicate Laned(action: Action) {
    action.TechnocoreMessage? || action.TechnocoreNote?
  }

  function PayloadOf(q: SignRequest, nonce: nat): Result<string, string>
    requires PresentFields(q) == RequiredFields(q.action)
  {
    FieldsArePresent(q);
    match q.action
    case TechnocoreMessage => RoomPayload(q.room.value, nonce, q.text.value)
    case TechnocoreNote => NotePayload(q.namespace.value, q.key.value, nonce, q.value.value)
    case _ =>
      if ValidDigest(q.digest.value) then Ok(Domain(q.action) + q.digest.value)
      else Err("artifact digest must be sha256:<64 lowercase hex>")
  }

  // ---- the protocol ----

  datatype SignerState = SignerState(lanes: Lanes, events: seq<SignEvent>)

  // The lanes once a request has drawn its nonce; the nonce is spent even if signing then fails.
  function AfterNonce(lanes: Lanes, q: SignRequest): (Lanes, Result<Option<nat>, string>) {
    if PresentFields(q) != RequiredFields(q.action) then (lanes, Err("invalid signing fields"))
    else if !Laned(q.action) then (lanes, Ok(None))
    else match NextNonce(lanes, ScopeOf(q), q.nonce)
      case Err(e) => (lanes, Err(e))
      case Ok(n) => (lanes[ScopeOf(q) := n], Ok(Some(n)))
  }

  function Handled(did: string, s: SignerState, q: SignRequest): (SignerState, Result<SignResponse, string>) {
    var (lanes, drawn) := AfterNonce(s.lanes, q);
    match drawn
    case Err(e) => (s.(lanes := lanes), Err(e))
    case Ok(nonce) =>
      match PayloadOf(q, if nonce.Some? then nonce.value else 0)
      case Err(e) => (s.(lanes := lanes), Err(e))
      case Ok(payload) =>
        (SignerState(lanes, s.events + [SignEvent(q.action, ScopeOf(q), payload, nonce)]),
         Ok(SignResponse(did, Signature(did, payload), nonce)))
  }

  class SignerProtocol {
    const did: string
    const store: NonceStore

    constructor (did: string, store: NonceStore)
      ensures this.did == did && this.store == store
    {
      this.did := did;
      this.store := store;
    }

    function State(): SignerState
      reads store
    {
      SignerState(store.lanes, store.events)
    }

    method Handle(q: SignRequest) returns (r: Result<SignResponse, string>)
      modifies store
      ensures (State(), r) == Handled(did, old(State()), q)
    {
      if PresentFields(q) != RequiredFields(q.action) {
        return Err("invalid signing fields");
      }
      FieldsArePresent(q);
      var nonce: Option<nat> := None;
      var scope := ScopeOf(q);
      if Laned(q.action) {
        var drawn := store.Next(scope, q.nonce);
        if drawn.Err? {
          return Err(drawn.error);
        }
        nonce := Some(drawn.value);
      }
      var payload := PayloadOf(q, if nonce.Some? then nonce.value else 0);
      if payload.Err? {
        return Err(payload.error);
      }
      store.Record(SignEvent(q.action, scope, payload.value, nonce));
      r := Ok(SignResponse(did, Signature(did, payload.value), nonce));
    }
  }

  // ---- how a request is answered ----

  // The nonce a request asks for, the next one of its lane if it asks for none.
  function Asked(lanes: Lanes, lane: string, requested: Option<int>): int {
    if requested.Some? then requested.value else 1 + if lane in lanes then lanes[lane] else 0
  }

  // It is above all its lane has given out, and a column can hold it.
  predicate Free(lanes: Lanes, lane: string, nonce: int) {
    0 < nonce <= MAX_SQL_INTEGER && (lane in lanes ==> lanes[lane] < nonce)
  }

  // A request is signed over this payload, or refused.
  ghost predicate SignedOver(did: string, s: SignerState, q: SignRequest, lane: string, nonce: Option<nat>,
                             payload: Option<string>) {
    var spent := s.(lanes := if nonce.Some? then s.lanes[lane := nonce.value] else s.lanes);
    var (s', r) := Handled(did, s, q);
    if payload.None? then r.Err? && s' == spent
    else
      && r == Ok(SignResponse(did, Signature(did, payload.value), nonce))
      && s' == spent.(events := s.events + [SignEvent(q.action, lane, payload.value, nonce)])
  }

  lemma {:induction false} NonceIsAsked(lanes: Lanes, lane: string, requested: Option<int>)
    ensures var n := Asked(lanes, lane, requested);
            if Free(lanes, lane, n) then NextNonce(lanes, lane, requested) == Ok(n)
            else NextNonce(lanes, lane, requested).Err?
  {
  }

  lemma {:induction false} OnlyRequired(q: SignRequest)
    ensures PresentFields(q) == RequiredFields(q.action) <==>
              if q.action.TechnocoreMessage? then
                && q.room.Some? && q.text.Some? && q.digest.None? && q.namespace.None? && q.key.None? && q.value.None?
              else if q.action.TechnocoreNote? then
                && q.room.None? && q.text.None? && q.digest.None? && q.namespace.Some? && q.key.Some? && q.value.Some?
              else
                && q.room.None? && q.text.None? && q.digest.Some? && q.namespace.None? && q.key.None? && q.value.None?
  {
    assert "room" in PresentFields(q) <==> q.room.Some?;
    assert "text" in PresentFields(q) <==> q.text.Some?;
    assert "digest" in PresentFields(q) <==> q.digest.Some?;
    assert "namespace" in PresentFields(q) <==> q.namespace.Some?;
    assert "key" in PresentFields(q) <==> q.key.Some?;
    assert "value" in PresentFields(q) <==> q.value.Some?;
  }

  // A message is signed exactly if its nonce is free, its room is one field and its text sweeps to
  // something of at most 4096 characters; the nonce is spent even if it is not signed for the others.
  lemma {:induction false} MessageAnswered(did: string, s: SignerState, scope: string, nonce: Option<int>,
                                           room: string, text: string)
    ensures var q := SignRequest(TechnocoreMessage, scope, nonce, Some(room), Some(text), None, None, None, None);
            var lane := "message:" + room;
            var n := Asked(s.lanes, lane, nonce);
            if !Free(s.lanes, lane, n) then SignedOver(did, s, q, lane, None, None)
            else
              SignedOver(did, s, q, lane, Some(n),
                         if room != "" && '|' !in room && SweepText(text, 4096).Ok?
                         then Some(room + "|" + Decimal(n) + "|" + SweepText(text, 4096).value) else None)
  {
    var q := SignRequest(TechnocoreMessage, scope, nonce, Some(room), Some(text), None, None, None, None);
    OnlyRequired(q);
    NonceIsAsked(s.lanes, "message:" + room, nonce);
  }

  // A note is signed exactly if its nonce is free, its namespace is one of the two, its key is one field
  // and its value sweeps to something of at most 8192 characters.
  lemma {:induction false} NoteAnswered(did: string, s: SignerState, scope: string, nonce: Option<int>,
                                        namespace: string, key: string, value: string)
    ensures var q := SignRequest(TechnocoreNote, scope, nonce, None, None, None, Some(namespace), Some(key),
                                 Some(value));
            var lane := "note:" + key;
            var n := Asked(s.lanes, lane, nonce);
            if !Free(s.lanes, lane, n) then SignedOver(did, s, q, lane, None, None)
            else
              SignedOver(did, s, q, lane, Some(n),
                         if (namespace == "room-owners" || namespace == "room-allow") && key != "" && '|' !in key
                            && SweepText(value, 8192).Ok?
                         then Some(namespace + "|" + key + "|" + Decimal(n) + "|" + SweepText(value, 8192).value)
                         else None)
  {
    var q := SignRequest(TechnocoreNote, scope, nonce, None, None, None, Some(namespace), Some(key), Some(value));
    OnlyRequired(q);
    NonceIsAsked(s.lanes, "note:" + key, nonce);
  }

  // Every other request is refused for its fields, or signs its digest in its domain exactly if it is
  // one, and spends no nonce.
  lemma {:induction false} OtherRequestsAnswered(did: string, s: SignerState, q: SignRequest)
    ensures PresentFields(q) != RequiredFields(q.action) ==> Handled(did, s, q).0 == s && Handled(did, s, q).1.Err?
    ensures PresentFields(q) == RequiredFields(q.action) && !Laned(q.action) ==>
              q.digest.Some? && SignedOver(did, s, q, ScopeOf(q), None,
                                           if ValidDigest(q.digest.value) then Some(Domain(q.action) + q.digest.value)
                                           else None)
  {
    OnlyRequired(q);
  }

  // ---- every run of the signer ----

  // A request that is answered, or one whose process dies after the nonce is committed.
  datatype SignStep = Answer(q: SignRequest) | DieAfterNonce(q: SignRequest)

  function Ran(did: string, s: SignerState, steps: seq<SignStep>): SignerState {
    if steps == [] then s
    else
      var before := Ran(did, s, steps[..|steps| - 1]);
      match steps[|steps| - 1]
      case Answer(q) => Handled(did, before, q).0
      case DieAfterNonce(q) => before.(lanes := AfterNonce(before.lanes, q).0)
  }

  // An event says which payload its request had, under a nonce its lane has reached.
  ghost predicate EventFiled(lanes: Lanes, e: SignEvent) {
    match e.action
    case TechnocoreMessage =>
      e.nonce.Some? && e.nonce.value <= Lane(lanes, e.scope)
      && exists room, text :: e.scope == "message:" + room && RoomPayload(room, e.nonce.value, text) == Ok(e.payload)
    case TechnocoreNote =>
      e.nonce.Some? && e.nonce.value <= Lane(lanes, e.scope)
      && exists ns, key, value :: e.scope == "note:" + key
                                  && NotePayload(ns, key, e.nonce.value, value) == Ok(e.payload)
    case _ =>
      exists digest :: ValidDigest(digest) && e.payload == Domain(e.action) + digest
  }

  ghost predicate LanesRise(events: seq<SignEvent>) {
    forall i, j :: 0 <= i < j < |events| && Laned(events[i].action) && events[i].scope == events[j].scope
                   && events[i].nonce.Some? && events[j].nonce.Some?
      ==> events[i].nonce.value < events[j].nonce.value
  }

  ghost predicate SignerInv(s: SignerState) {
    && (forall i :: 0 <= i < |s.events| ==> EventFiled(s.lanes, s.events[i]))
    && LanesRise(s.events)
  }

  lemma {:induction false} NewEventFiled(lanes: Lanes, q: SignRequest, nonce: Option<nat>, payload: string)
    requires PresentFields(q) == RequiredFields(q.action)
    requires AfterNonce(lanes, q).1 == Ok(nonce)
    requires PayloadOf(q, if nonce.Some? then nonce.value else 0) == Ok(payload)
    ensures EventFiled(AfterNonce(lanes, q).0, SignEvent(q.action, ScopeOf(q), payload, nonce))
  {
    FieldsArePresent(q);
    if q.action.TechnocoreMessage? {
      assert RoomPayload(q.room.value, nonce.value, q.text.value) == Ok(payload);
    } else if q.action.TechnocoreNote? {
      assert NotePayload(q.namespace.value, q.key.value, nonce.value, q.value.value) == Ok(payload);
    }
  }

  lemma {:induction false} LanesOnlyRise(lanes: Lanes, q: SignRequest, scope: string)
    ensures Lane(lanes, scope) <= Lane(AfterNonce(lanes, q).0, scope)
  {
  }

  lemma {:induction false} OldEventsStayFiled(lanes: Lanes, lanes': Lanes, e: SignEvent)
    requires EventFiled(lanes, e)
    requires Lane(lanes, e.scope) <= Lane(lanes', e.scope)
    ensures EventFiled(lanes', e)
  {
  }

  lemma {:induction false} HandledKeepsInv(did: string, s: SignerState, q: SignRequest)
    requires SignerInv(s)
    ensures SignerInv(Handled(did, s, q).0)
    ensures SignerInv(s.(lanes := AfterNonce(s.lanes, q).0))
  {
    var (lanes, drawn) := AfterNonce(s.lanes, q);
    var s' := Handled(did, s, q).0;
    forall i | 0 <= i < |s.events| ensures EventFiled(lanes, s.events[i]) {
      LanesOnlyRise(s.lanes, q, s.events[i].scope);
      OldEventsStayFiled(s.lanes, lanes, s.events[i]);
    }
    if s'.events != s.events {
      var e := s'.events[|s.events|];
      NewEventFiled(s.lanes, q, drawn.value, e.payload);
    }
  }

  lemma {:induction false} RunKeepsInv(did: string, s: SignerState, steps: seq<SignStep>)
    requires SignerInv(s)
    ensures SignerInv(Ran(did, s, steps))
  {
    if steps == [] {
    } else {
      var before := Ran(did, s, steps[..|steps| - 1]);
      RunKeepsInv(did, s, steps[..|steps| - 1]);
      HandledKeepsInv(did, before, steps[|steps| - 1].q);
    }
  }

  lemma {:induction false} DomainsHaveNoBar(action: Action, digest: string)
    requires !Laned(action) && ValidDigest(digest)
    ensures '|' !in Domain(action) + digest
  {
    assert forall i :: 0 <= i < 7 ==> digest[i] == "sha256:"[i];
  }

  lemma {:induction false} DomainsDiffer(a: Action, x: string, b: Action, y: string)
    requires !Laned(a) && !Laned(b) && Domain(a) + x == Domain(b) + y
    ensures a == b && x == y
  {
    var s := Domain(a) + x;
    assert s[8] == Domain(a)[8] && s[8] == Domain(b)[8];
    assert x == s[|Domain(a)|..] && y == s[|Domain(b)|..];
  }

  lemma {:induction false} SamePayloadSameLaneAndNonce(lanes: Lanes, d: SignEvent, e: SignEvent)
    requires EventFiled(lanes, d) && EventFiled(lanes, e) && d.payload == e.payload
    requires d.action == e.action && Laned(d.action)
    ensures d.scope == e.scope && d.nonce == e.nonce
  {
    if d.action.TechnocoreMessage? {
      var r1, t1 :| d.scope == "message:" + r1 && RoomPayload(r1, d.nonce.value, t1) == Ok(d.payload);
      var r2, t2 :| e.scope == "message:" + r2 && RoomPayload(r2, e.nonce.value, t2) == Ok(e.payload);
      RoomPayloadDetermines(r1, d.nonce.value, t1, r2, e.nonce.value, t2);
    } else {
      var p1, k1, v1 :| d.scope == "note:" + k1 && NotePayload(p1, k1, d.nonce.value, v1) == Ok(d.payload);
      var p2, k2, v2 :| e.scope == "note:" + k2 && NotePayload(p2, k2, e.nonce.value, v2) == Ok(e.payload);
      NotePayloadDetermines(p1, k1, d.nonce.value, v1, p2, k2, e.nonce.value, v2);
    }
  }

  lemma {:induction false} LanedPayloadHasBar(lanes: Lanes, e: SignEvent)
    requires EventFiled(lanes, e) && Laned(e.action)
    ensures '|' in e.payload
  {
    if e.action.TechnocoreMessage? {
      var r, t :| e.scope == "message:" + r && RoomPayload(r, e.nonce.value, t) == Ok(e.payload);
      assert e.payload[|r|] == '|';
    } else {
      var p, k, v :| e.scope == "note:" + k && NotePayload(p, k, e.nonce.value, v) == Ok(e.payload);
      assert e.payload[|p|] == '|';
    }
  }

  // A note that reads as a message: its key is the message's nonce in decimal, and its namespace is
  // the message's room.
  ghost predicate ReadsAsMessage(note: SignEvent, message: SignEvent) {
    && message.action.TechnocoreMessage? && note.action.TechnocoreNote?
    && message.nonce.Some? && message.nonce.value > 0 && note.scope == "note:" + Decimal(message.nonce.value)
    && exists namespace :: && (namespace == "room-owners" || namespace == "room-allow")
                           && message.scope == "message:" + namespace && namespace + "|" <= note.payload
  }

  lemma {:induction false} NoteStartsWithNamespace(namespace: string, key: string, nonce: int, value: string)
    requires NotePayload(namespace, key, nonce, value).Ok?
    ensures namespace == "room-owners" || namespace == "room-allow"
    ensures namespace + "|" <= NotePayload(namespace, key, nonce, value).value
  {
    NoteInParts(namespace, key, nonce, value);
  }

  lemma {:induction false} NamedReading(message: SignEvent, note: SignEvent, room: string, text: string,
                                        namespace: string, key: string, nonce: nat, value: string)
    requires message.action.TechnocoreMessage? && note.action.TechnocoreNote? && message.payload == note.payload
    requires message.scope == "message:" + room && note.scope == "note:" + key && message.nonce.Some?
    requires RoomPayload(room, message.nonce.value, text) == Ok(message.payload)
    requires NotePayload(namespace, key, nonce, value) == Ok(note.payload)
    ensures ReadsAsMessage(note, message)
  {
    RoomReadingNeedsNonceKey(namespace, key, nonce, value, room, message.nonce.value, text);
    NoteStartsWithNamespace(namespace, key, nonce, value);
  }

  lemma {:induction false} SameBytesReadAlike(lanes: Lanes, message: SignEvent, note: SignEvent)
    requires EventFiled(lanes, message) && EventFiled(lanes, note) && message.payload == note.payload
    requires message.action.TechnocoreMessage? && note.action.TechnocoreNote?
    ensures ReadsAsMessage(note, message)
  {
    var room, text :|
      message.scope == "message:" + room && RoomPayload(room, message.nonce.value, text) == Ok(message.payload);
    var ns, key, value :| note.scope == "note:" + key
      && NotePayload(ns, key, note.nonce.value, value) == Ok(note.payload);
    NamedReading(message, note, room, text, ns, key, note.nonce.value, value);
  }

  lemma {:induction false} LanedNeverDocument(lanes: Lanes, d: SignEvent, e: SignEvent)
    requires EventFiled(lanes, d) && EventFiled(lanes, e) && Laned(d.action) && !Laned(e.action)
    ensures d.payload != e.payload
  {
    LanedPayloadHasBar(lanes, d);
    var y :| ValidDigest(y) && e.payload == Domain(e.action) + y;
    DomainsHaveNoBar(e.action, y);
  }

  // In any run, across any deaths and restarts, two signatures over the same bytes are either two
  // of one kind of domain document, or a message and a note that reads as it: never two messages,
  // never two notes.
  lemma {:induction false} SignaturesOverSameBytes(did: string, steps: seq<SignStep>, i: nat, j: nat)
    requires i < j < |Ran(did, SignerState(map[], []), steps).events|
    requires var es := Ran(did, SignerState(map[], []), steps).events; es[i].payload == es[j].payload
    ensures var es := Ran(did, SignerState(map[], []), steps).events;
            if Laned(es[i].action) then ReadsAsMessage(es[i], es[j]) || ReadsAsMessage(es[j], es[i])
            else es[i].action == es[j].action
  {
    var s := Ran(did, SignerState(map[], []), steps);
    RunKeepsInv(did, SignerState(map[], []), steps);
    var d, e := s.events[i], s.events[j];
    if Laned(d.action) && !Laned(e.action) { LanedNeverDocument(s.lanes, d, e); }
    if !Laned(d.action) && Laned(e.action) { LanedNeverDocument(s.lanes, e, d); }
    if Laned(d.action) && Laned(e.action) {
      if d.action == e.action {
        SamePayloadSameLaneAndNonce(s.lanes, d, e);
      } else if d.action.TechnocoreMessage? {
        SameBytesReadAlike(s.lanes, d, e);
      } else {
        SameBytesReadAlike(s.lanes, e, d);
      }
    }
    if !Laned(d.action) && !Laned(e.action) {
      var x :| ValidDigest(x) && d.payload == Domain(d.action) + x;
      var y :| ValidDigest(y) && e.payload == Domain(e.action) + y;
      DomainsDiffer(d.action, x, e.action, y);
    }
  }

  function NoteRequest(scope: string, namespace: string, key: string, value: string): SignRequest {
    SignRequest(TechnocoreNote, scope, None, None, None, None, Some(namespace), Some(key), Some(value))
  }

  lemma {:induction false} FirstAnswer(did: string, s: SignerState, q: SignRequest)
    requires PresentFields(q) == RequiredFields(q.action) && Laned(q.action) && q.nonce.None?
    requires Lane(s.lanes, ScopeOf(q)) == 0 && PayloadOf(q, 1).Ok?
    ensures var e := SignEvent(q.action, ScopeOf(q), PayloadOf(q, 1).value, Some(1));
            Handled(did, s, q).0 == SignerState(s.lanes[ScopeOf(q) := 1], s.events + [e])
  {
  }

  lemma {:induction false} RanTwice(did: string, s: SignerState, first: SignRequest, second: SignRequest)
    ensures Ran(did, s, [Answer(first), Answer(second)]) == Handled(did, Handled(did, s, first).0, second).0
  {
    var one, two := [Answer(first)], [Answer(first), Answer(second)];
    assert one[..|one| - 1] == [] && two[..|two| - 1] == one;
    assert Ran(did, s, one) == Handled(did, s, first).0;
  }

  // The coincidence is there: two requests to a fresh signer, a message and then a note, whatever
  // the note's namespace and value.
  lemma {:induction false} MessageAndNoteCoincide(did: string, scope: string, namespace: string, value: string)
    requires (namespace == "room-owners" || namespace == "room-allow") && SweepText(value, 8192).Ok?
    requires |NoteRest(1, value)| <= 4096
    ensures var es := Ran(did, SignerState(map[], []),
                          [Answer(MessageRequest(scope, namespace, NoteRest(1, value))),
                           Answer(NoteRequest(scope, namespace, Decimal(1), value))]).events;
            |es| == 2 && es[0].payload == es[1].payload && ReadsAsMessage(es[1], es[0])
  {
    var s0 := SignerState(map[], []);
    var first, second := MessageRequest(scope, namespace, NoteRest(1, value)),
      NoteRequest(scope, namespace, Decimal(1), value);
    assert '|' !in Decimal(1);
    NonceKeyReadsAsRoom(namespace, 1, 1, value);
    FieldsArePresent(first);
    FieldsArePresent(second);
    FirstAnswer(did, s0, first);
    var s1 := Handled(did, s0, first).0;
    assert ScopeOf(first)[0] == 'm' && ScopeOf(second)[0] == 'n';
    FirstAnswer(did, s1, second);
    RanTwice(did, s0, first, second);
    var es := Handled(did, s1, second).0.events;
    NamedReading(es[0], es[1], namespace, NoteRest(1, value), namespace, Decimal(1), 1, value);
    assert es == Ran(did, s0, [Answer(first), Answer(second)]).events;
    assert ReadsAsMessage(es[1], es[0]);
  }
}
