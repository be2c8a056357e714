// Crash-safe delivery as a state machine (src/rosetta/delivery.py): any number of senders,
// each at some point of send_text, interleaved at every durable step with deaths, foreign
// posts, injected faults and other uses of the signer.
module DeliveryProtocol {
  import opened Wrappers
  import opened Canonical
  import opened Signer
  import opened Technocore

  // ---- durable state ----

  datatype Status = Prepared | Confirmed

  // A row of outbound_deliveries.
  datatype Row = Row(actor: string, room: string, did: string, nonce: nat, text: string, signature: Signature,
                     status: Status, sequence: Option<nat>)

  // What the network does to one post on its way to the log and back.
  datatype Fault = Pass | Limit(seconds: nat) | Refuse(status: nat, landed: bool) | LoseRequest | LoseReply

  datatype World = World(
    signer: SignerState,
    rows: map<string, Row>,
    remote: Remote,
    network: seq<Fault>,
    gateOpen: bool)

  function Transported(w: World, actor: string, room: string, did: string, nonce: nat, text: string,
                       signature: Signature): (World, PostResult)
  {
    var fault := if w.network == [] then Pass else w.network[0];
    var w' := w.(network := if w.network == [] then [] else w.network[1..]);
    if fault.Limit? then (w', RateLimited(fault.seconds))
    else if fault.LoseRequest? then (w', UncertainWrite)
    else if fault.Refuse? && !fault.landed then (w', Refusal(fault.status))
    else
      var (remote, result) := PostSigned(w.remote, actor, room, did, nonce, text, signature);
      (w'.(remote := remote),
       match fault
       case LoseReply => UncertainWrite
       case Refuse(status, _) => Refusal(status)
       case _ => result)
  }

  // ---- one sender ----

  datatype Request = Request(key: string, actor: string, room: string, text: string)

  datatype SendError =
    | GateClosed
    | SignerFailed(reason: string)
    | KeyTaken
    | KeyConflict
    | MissingSequence
    | StillRateLimited
    | NotFoundUpstream
    | RefusedUpstream(status: nat)
    | InvalidUpstream(reason: string)
    | DuplicateRemote

  datatype Outcome = Delivered(record: Record) | Failed(error: SendError)

  datatype Point =
    | Starting
    | Signing
    | Signed(did: string, nonce: nat, signature: Signature)
    | Sending(row: Row, attempt: nat)
    | Reconciling(row: Row)
    | Confirming(row: Row, record: Record)
    | Finished(outcome: Outcome)

  datatype Sender = Sender(request: Request, at: Point)

  function Looked(w: World, q: Request): Point {
    if !w.gateOpen then Finished(Failed(GateClosed))
    else if q.key !in w.rows then Signing
    else
      var row := w.rows[q.key];
      if row.actor != q.actor || row.room != q.room || row.text != q.text then Finished(Failed(KeyConflict))
      else if row.status.Prepared? then Sending(row, 0)
      else match row.sequence
        case None => Finished(Failed(MissingSequence))
        case Some(n) => Finished(Delivered(Record(n, q.room, row.did, row.nonce, row.text, row.signature)))
  }

  function Answered(row: Row, attempt: nat, result: PostResult): Point {
    match result
    case Posted(record) => Confirming(row, record)
    case RateLimited(seconds) =>
      if attempt > 0 || seconds > 2 then Finished(Failed(StillRateLimited)) else Sending(row, attempt + 1)
    case UncertainWrite => Reconciling(row)
    case Refusal(status) =>
      if status != 403 && status != 409 && status != 422 then Finished(Failed(RefusedUpstream(status)))
      else Reconciling(row)
    case InvalidRequest(reason) => Finished(Failed(InvalidUpstream(reason)))
  }

  function Matches(records: seq<Record>, row: Row): (ms: seq<Record>)
    ensures forall m :: m in ms <==> m in records && m.did == row.did && m.nonce == row.nonce && m.text == row.text
  {
    if records == [] then []
    else
      var last := records[|records| - 1];
      Matches(records[..|records| - 1], row)
      + (if last.did == row.did && last.nonce == row.nonce && last.text == row.text then [last] else [])
  }

  function Reconciled(t: Remote, row: Row): Point {
    var ms := Matches(ReadRoom(t, row.room, 0, 100), row);
    if |ms| > 1 then Finished(Failed(DuplicateRemote))
    else if |ms| == 0 then Finished(Failed(NotFoundUpstream))
    else Confirming(row, Record(ms[0].sequence, row.room, row.did, row.nonce, row.text, row.signature))
  }

  // One step of one sender; a finished sender stays as it is.
  function Step(own: string, w: World, s: Sender): (World, Sender) {
    var q := s.request;
    match s.at
    case Starting => (w, s.(at := Looked(w, q)))
    case Signing =>
      var (signer, r) := Handled(own, w.signer, MessageRequest(q.actor, q.room, q.text));
      (w.(signer := signer),
       s.(at := match r
               case Err(e) => Finished(Failed(SignerFailed(e)))
               case Ok(a) =>
                 if a.nonce.None? then Finished(Failed(SignerFailed("signer omitted message nonce")))
                 else Signed(a.did, a.nonce.value, a.signature)))
    case Signed(did, nonce, signature) =>
      if q.key in w.rows then (w, s.(at := Finished(Failed(KeyTaken))))
      else
        var row := Row(q.actor, q.room, did, nonce, q.text, signature, Prepared, None);
        (w.(rows := w.rows[q.key := row]), s.(at := Sending(row, 0)))
    case Sending(row, attempt) =>
      var (w', result) := Transported(w, q.actor, q.room, row.did, row.nonce, row.text, row.signature);
      (w', s.(at := Answered(row, attempt, result)))
    case Reconciling(row) => (w, s.(at := Reconciled(w.remote, row)))
    case Confirming(row, record) =>
      if q.key !in w.rows then (w, s.(at := Finished(Failed(InvalidUpstream("unknown outbound delivery")))))
      else
        (w.(rows := w.rows[q.key := w.rows[q.key].(status := Confirmed, sequence := Some(record.sequence))]),
         s.(at := Finished(Delivered(record))))
    case Finished(_) => (w, s)
  }

  // A sender running alone for n steps; cut off there, its volatile half is lost.
  function Solo(own: string, w: World, s: Sender, n: nat): (World, Sender)
    decreases n
  {
    if n == 0 then (w, s)
    else
      var (w', s') := Step(own, w, s);
      Solo(own, w', s', n - 1)
  }

  lemma {:induction false} FinishedStays(own: string, w: World, s: Sender, n: nat)
    requires s.at.Finished?
    ensures Solo(own, w, s, n) == (w, s)
  {
    if n == 0 {
    } else {
      FinishedStays(own, w, s, n - 1);
    }
  }

  // ---- the whole machine ----

  datatype State = State(w: World, senders: map<nat, Sender>)

  datatype Event =
    | Begin(id: nat, request: Request)
    | Advance(id: nat)
    | Die(id: nat)
    | ForeignPost(actor: string, room: string, did: string, nonce: int, text: string, signature: Signature)
    | InjectRateLimit(actor: string, room: string)
    | InjectUncertainWrite(actor: string, room: string)
    | Network(plan: seq<Fault>)
    | Gate(open: bool)
    | OtherSign(q: SignRequest)
    | DieAfterNonce(q: SignRequest)

  function Exec(own: string, s: State, e: Event): State {
    match e
    case Begin(id, request) =>
      if id in s.senders then s else s.(senders := s.senders[id := Sender(request, Starting)])
    case Advance(id) =>
      if id !in s.senders then s
      else
        var (w, sender) := Step(own, s.w, s.senders[id]);
        State(w, s.senders[id := sender])
    case Die(id) => s.(senders := s.senders - {id})
    case ForeignPost(actor, room, did, nonce, text, signature) =>
      if did == own then s
      else s.(w := s.w.(remote := PostSigned(s.w.remote, actor, room, did, nonce, text, signature).0))
    case InjectRateLimit(actor, room) =>
      s.(w := s.w.(remote := s.w.remote.(rateLimitOnce := s.w.remote.rateLimitOnce + {(actor, room)})))
    case InjectUncertainWrite(actor, room) =>
      s.(w := s.w.(remote := s.w.remote.(uncertainOnce := s.w.remote.uncertainOnce + {(actor, room)})))
    case Network(plan) => s.(w := s.w.(network := plan))
    case Gate(open) => s.(w := s.w.(gateOpen := open))
    case OtherSign(q) => s.(w := s.w.(signer := Handled(own, s.w.signer, q).0))
    case DieAfterNonce(q) => s.(w := s.w.(signer := s.w.signer.(lanes := AfterNonce(s.w.signer.lanes, q).0)))
  }

  function Run(own: string, s: State, es: seq<Event>): State {
    if es == [] then s else Exec(own, Run(own, s, es[..|es| - 1]), es[|es| - 1])
  }

  // Where runs start: no rows, no senders, any lanes, any good log without own records.
  ghost predicate Initial(own: string, s: State) {
    && s.w.rows == map[] && s.senders == map[]
    && GoodRemote(s.w.remote)
    && forall room, x :: x in Log(s.w.remote, room) ==> x.did != own
  }

  // ---- the invariant ----

  function RoomLane(w: World, room: string): nat {
    Lane(w.signer.lanes, "message:" + room)
  }

  // The record carries the row's exact bytes.
  predicate Carries(x: Record, row: Row) {
    x.room == row.room && x.did == row.did && x.nonce == row.nonce && x.text == row.text && x.signature == row.signature
  }

  ghost predicate SignedBy(own: string, w: World, room: string, nonce: nat, text: string, signature: Signature) {
    && 1 <= nonce <= RoomLane(w, room)
    && signature.did == own
    && RoomPayload(room, nonce, text) == Ok(signature.payload)
  }

  ghost predicate Landed(w: World, row: Row, x: Record) {
    x in Log(w.remote, row.room) && Carries(x, row)
  }

  ghost predicate RowOk(own: string, w: World, row: Row) {
    && row.did == own
    && SignedBy(own, w, row.room, row.nonce, row.text, row.signature)
    && (row.status.Prepared? ==> row.sequence.None?)
    && (row.status.Confirmed? ==>
          row.sequence.Some? && exists x :: Landed(w, row, x) && x.sequence == row.sequence.value)
  }

  ghost predicate NonceUnused(w: World, room: string, nonce: nat) {
    forall k :: k in w.rows && w.rows[k].room == room ==> w.rows[k].nonce != nonce
  }

  ghost predicate RowsDistinct(w: World) {
    forall j, k :: j in w.rows && k in w.rows && w.rows[j].room == w.rows[k].room && w.rows[j].nonce == w.rows[k].nonce
      ==> j == k
  }

  ghost predicate HasRow(w: World, x: Record) {
    exists k :: k in w.rows && Carries(x, w.rows[k])
  }

  ghost predicate WorldOk(own: string, w: World) {
    && GoodRemote(w.remote)
    && (forall k :: k in w.rows ==> RowOk(own, w, w.rows[k]))
    && RowsDistinct(w)
    && (forall room, x :: x in Log(w.remote, room) && x.did == own ==> HasRow(w, x))
  }

  predicate SameBytes(a: Row, b: Row) {
    a.(status := Prepared, sequence := None) == b.(status := Prepared, sequence := None)
  }

  // The sender's row is the persisted one, byte for byte, and is what the caller asked for.
  predicate Holds(w: World, q: Request, row: Row) {
    && q.key in w.rows && SameBytes(w.rows[q.key], row)
    && row.actor == q.actor && row.room == q.room && row.text == q.text
  }

  predicate Impossible(e: SendError) {
    e.InvalidUpstream? || e.DuplicateRemote? || e.MissingSequence?
  }

  ghost predicate SenderOk(own: string, w: World, s: Sender) {
    var q := s.request;
    match s.at
    case Starting => true
    case Signing => true
    case Signed(did, nonce, signature) =>
      did == own && SignedBy(own, w, q.room, nonce, q.text, signature) && NonceUnused(w, q.room, nonce)
    case Sending(row, _) => Holds(w, q, row)
    case Reconciling(row) => Holds(w, q, row)
    case Confirming(row, record) => Holds(w, q, row) && Landed(w, row, record)
    case Finished(Delivered(record)) =>
      && q.key in w.rows && Holds(w, q, w.rows[q.key])
      && w.rows[q.key].status.Confirmed? && w.rows[q.key].sequence == Some(record.sequence)
      && Landed(w, w.rows[q.key], record)
    case Finished(Failed(e)) => !Impossible(e)
  }

  // Two senders never hold one nonce of one room between signing and preparing.
  ghost predicate SendersDistinct(senders: map<nat, Sender>) {
    forall i, j :: i in senders && j in senders && i != j && senders[i].at.Signed? && senders[j].at.Signed?
                   && senders[i].request.room == senders[j].request.room
      ==> senders[i].at.nonce != senders[j].at.nonce
  }

  ghost predicate Inv(own: string, s: State) {
    && WorldOk(own, s.w)
    && (forall i :: i in s.senders ==> SenderOk(own, s.w, s.senders[i]))
    && SendersDistinct(s.senders)
  }

  // ---- growth: what no step ever takes back ----

  ghost predicate RowKept(row: Row, row': Row) {
    SameBytes(row, row') && (row.status.Confirmed? ==> row' == row)
  }

  ghost predicate Grows(w: World, w': World) {
    && (forall room :: RoomLane(w, room) <= RoomLane(w', room))
    && (forall k :: k in w.rows ==> k in w'.rows && RowKept(w.rows[k], w'.rows[k]))
    && LogsGrow(w.remote, w'.remote)
  }

  lemma {:induction false} GrowsTransitive(a: World, b: World, c: World)
    requires Grows(a, b) && Grows(b, c)
    ensures Grows(a, c)
  {
  }

  lemma {:induction false} LandedStays(w: World, w': World, row: Row, x: Record)
    requires Grows(w, w') && Landed(w, row, x)
    ensures Landed(w', row, x)
  {
    assert Log(w.remote, row.room) <= Log(w'.remote, row.room);
  }

  lemma {:induction false} SenderStays(own: string, w: World, w': World, s: Sender)
    requires Grows(w, w') && SenderOk(own, w, s)
    requires s.at.Signed? ==> NonceUnused(w', s.request.room, s.at.nonce)
    ensures SenderOk(own, w', s)
  {
    if s.at.Signed? {
      assert RoomLane(w, s.request.room) <= RoomLane(w', s.request.room);
    } else if s.at.Confirming? {
      LandedStays(w, w', s.at.row, s.at.record);
    } else if s.at.Finished? && s.at.outcome.Delivered? {
      LandedStays(w, w', w.rows[s.request.key], s.at.outcome.record);
    }
  }

  lemma {:induction false} RowStays(own: string, w: World, w': World, row: Row)
    requires Grows(w, w') && RowOk(own, w, row)
    ensures RowOk(own, w', row)
  {
    assert RoomLane(w, row.room) <= RoomLane(w', row.room);
    if row.status.Confirmed? {
      var x :| Landed(w, row, x) && x.sequence == row.sequence.value;
      LandedStays(w, w', row, x);
    }
  }
}
