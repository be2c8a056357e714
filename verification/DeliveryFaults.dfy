// How a call ends by what stands in its way: a closed gate, another request under its key, a message
// that cannot be signed, or one fault of the network (src/rosetta/delivery.py:58-118). The endings
// are told by what the caller sees and what the rows and the log hold.
module DeliveryFaults {
  import opened Wrappers
  import opened Canonical
  import opened Signer
  import opened Technocore
  import opened DeliveryProtocol
  import opened DeliverySafety
  import opened DeliveryProgress

  function Ending(own: string, w: World, q: Request, n: nat): Point {
    Solo(own, w, Sender(q, Starting), n).1.at
  }

  function After(own: string, w: World, q: Request, n: nat): World {
    Solo(own, w, Sender(q, Starting), n).0
  }

  // ---- calls that never post ----

  lemma {:induction false} LooksFirst(own: string, w: World, q: Request, n: nat)
    requires n >= 1
    ensures Solo(own, w, Sender(q, Starting), n) == Solo(own, w, Sender(q, Looked(w, q)), n - 1)
  {
    SoloStep(own, w, Sender(q, Starting), n);
  }

  // Behind a closed gate nothing happens.
  lemma {:induction false} ClosedGateStops(own: string, w: World, q: Request, n: nat)
    requires !w.gateOpen && n >= 1
    ensures Ending(own, w, q, n) == Finished(Failed(GateClosed)) && After(own, w, q, n) == w
  {
    LooksFirst(own, w, q, n);
    FinishedStays(own, w, Sender(q, Looked(w, q)), n - 1);
  }

  // A key is not reused for another request: exactly then the call is a conflict, and nothing happens.
  lemma {:induction false} OtherRequestIsConflict(own: string, w: World, q: Request, n: nat)
    requires w.gateOpen && q.key in w.rows && n >= 1
    requires !(w.rows[q.key].actor == q.actor && w.rows[q.key].room == q.room && w.rows[q.key].text == q.text)
    ensures Ending(own, w, q, n) == Finished(Failed(KeyConflict)) && After(own, w, q, n) == w
  {
    LooksFirst(own, w, q, n);
    FinishedStays(own, w, Sender(q, Looked(w, q)), n - 1);
  }

  // A confirmed request is answered from its row, whatever the network would do.
  lemma {:induction false} ConfirmedIsAnswered(own: string, w: World, q: Request, n: nat)
    requires WorldOk(own, w) && w.gateOpen && q.key in w.rows && w.rows[q.key].status.Confirmed? && n >= 1
    requires w.rows[q.key].actor == q.actor && w.rows[q.key].room == q.room && w.rows[q.key].text == q.text
    ensures After(own, w, q, n) == w
    ensures exists x :: Ending(own, w, q, n) == Finished(Delivered(x)) && Landed(w, w.rows[q.key], x)
  {
    var row := w.rows[q.key];
    assert RowOk(own, w, row);
    LooksFirst(own, w, q, n);
    FinishedStays(own, w, Sender(q, Looked(w, q)), n - 1);
    var x :| Landed(w, row, x) && x.sequence == row.sequence.value;
    LandedIsNamed(w, row, x);
  }

  lemma {:induction false} LandedIsNamed(w: World, row: Row, x: Record)
    requires GoodRemote(w.remote) && Landed(w, row, x)
    ensures x == Record(x.sequence, row.room, row.did, row.nonce, row.text, row.signature)
  {
    LogsMakeRemote(w.remote);
    assert GoodLog(Log(w.remote, row.room), row.room, w.remote.nextSequence);
  }

  // A message that cannot be signed leaves no row and no record.
  lemma {:induction false} UnsignableIsRefused(own: string, w: World, q: Request, n: nat)
    requires w.gateOpen && q.key !in w.rows && n >= 2
    requires !(SingleField(q.room) && SweepText(q.text, 4096).Ok? && RoomLane(w, q.room) < MAX_SQL_INTEGER)
    ensures Ending(own, w, q, n).Finished? && Ending(own, w, q, n).outcome.Failed?
            && Ending(own, w, q, n).outcome.error.SignerFailed?
    ensures After(own, w, q, n).rows == w.rows && After(own, w, q, n).remote == w.remote
  {
    LooksFirst(own, w, q, n);
    var s := Sender(q, Signing);
    var (w', s') := Step(own, w, s);
    SoloStep(own, w, s, n - 1);
    FieldsArePresent(MessageRequest(q.actor, q.room, q.text));
    assert s'.at.Finished?;
    FinishedStays(own, w', s', n - 2);
  }

  // ---- one fault of the network ----

  // A request that a quiet network would serve by a post, with one fault to come and no 429 waiting.
  ghost predicate OneFault(own: string, w: World, q: Request, fault: Fault) {
    && WorldOk(own, w) && w.network == [fault] && Servable(w.(network := []), q)
    && (q.key in w.rows ==> w.rows[q.key].status.Prepared?)
    && !Pending(w.remote.rateLimitOnce, w.remote.rateLimitConsumed, q)
  }

  // The sender is at its first post.
  ghost predicate AtPost(own: string, w: World, s: Sender, fault: Fault) {
    match s.at
    case Sending(row, attempt) =>
      && attempt == 0 && WorldOk(own, w) && SenderOk(own, w, s)
      && w.gateOpen && w.network == [fault] && w.rows[s.request.key] == row && row.status.Prepared?
      && !Pending(w.remote.rateLimitOnce, w.remote.rateLimitConsumed, s.request)
    case _ => false
  }

  lemma {:induction false} HeldIsAtPost(own: string, w: World, q: Request, fault: Fault)
    requires OneFault(own, w, q, fault) && q.key in w.rows
    ensures AtPost(own, w, Sender(q, Looked(w, q)), fault) && Looked(w, q) == Sending(w.rows[q.key], 0)
  {
  }

  function Ended(own: string, w: World, s: Sender, n: nat): (World, Sender) {
    Solo(own, w, s, n)
  }

  // Two senders that end alike, n and m steps on.
  ghost predicate EndAlike(own: string, w: World, s: Sender, n: nat, w1: World, s1: Sender, m: nat) {
    Ended(own, w, s, n) == Ended(own, w1, s1, m)
  }

  lemma {:induction false} FreshLooks(own: string, w: World, q: Request, n: nat)
    requires w.gateOpen && q.key !in w.rows && n >= 1
    ensures Solo(own, w, Sender(q, Starting), n) == Solo(own, w, Sender(q, Signing), n - 1)
  {
    LooksFirst(own, w, q, n);
  }

  lemma {:induction false} FreshSigns(own: string, w: World, q: Request, fault: Fault)
    requires OneFault(own, w, q, fault) && q.key !in w.rows
    ensures var (w', s') := Step(own, w, Sender(q, Signing));
            && WorldOk(own, w') && SenderOk(own, w', s') && s'.at.Signed? && s'.request == q
            && w' == w.(signer := w'.signer)
  {
    SigningStep(own, w, Sender(q, Signing));
    FieldsArePresent(MessageRequest(q.actor, q.room, q.text));
  }

  lemma {:induction false} FreshToPost(own: string, w: World, q: Request, fault: Fault, n: nat)
    returns (w1: World, s1: Sender)
    requires OneFault(own, w, q, fault) && q.key !in w.rows && n >= 3
    ensures AtPost(own, w1, s1, fault) && s1.request == q && w1.remote == w.remote && !IsLanded(w1, s1.at.row)
    ensures EndAlike(own, w, Sender(q, Starting), n, w1, s1, n - 3)
  {
    var s := Sender(q, Signing);
    FreshLooks(own, w, q, n);
    FreshSigns(own, w, q, fault);
    SoloStep(own, w, s, n - 1);
    var (w0, s0) := Step(own, w, s);
    SignedToPost(own, w0, s0, fault, n - 2);
    w1, s1 := Step(own, w0, s0).0, Step(own, w0, s0).1;
  }

  lemma {:induction false} LooksAlike(own: string, w: World, q: Request, n: nat)
    requires n >= 1
    ensures EndAlike(own, w, Sender(q, Starting), n, w, Sender(q, Looked(w, q)), n - 1)
  {
    LooksFirst(own, w, q, n);
  }

  // The call of n steps comes to its post with m left and the log as it was.
  ghost predicate ComesTo(own: string, w: World, q: Request, fault: Fault, n: nat, w1: World, s1: Sender, m: nat) {
    && AtPost(own, w1, s1, fault) && s1.request == q && w1.remote == w.remote && n <= m + 3
    && EndAlike(own, w, Sender(q, Starting), n, w1, s1, m)
    && (q.key in w.rows ==> w1 == w && s1.at.row == w.rows[q.key]) && (q.key !in w.rows ==> !IsLanded(w1, s1.at.row))
  }

  lemma {:induction false} HeldComes(own: string, w: World, q: Request, fault: Fault, n: nat)
    returns (w1: World, s1: Sender, m: nat)
    requires OneFault(own, w, q, fault) && q.key in w.rows && n >= 3
    ensures ComesTo(own, w, q, fault, n, w1, s1, m)
  {
    w1, s1, m := w, Sender(q, Looked(w, q)), n - 1;
    HeldIsAtPost(own, w, q, fault);
    LooksAlike(own, w, q, n);
  }

  lemma {:induction false} FreshComes(own: string, w: World, q: Request, fault: Fault, n: nat)
    returns (w1: World, s1: Sender, m: nat)
    requires OneFault(own, w, q, fault) && q.key !in w.rows && n >= 3
    ensures ComesTo(own, w, q, fault, n, w1, s1, m)
  {
    w1, s1 := FreshToPost(own, w, q, fault, n);
    m := n - 3;
  }

  lemma {:induction false} ComesToPost(own: string, w: World, q: Request, fault: Fault, n: nat)
    returns (w1: World, s1: Sender, m: nat)
    requires OneFault(own, w, q, fault) && n >= 3
    ensures ComesTo(own, w, q, fault, n, w1, s1, m)
  {
    if q.key in w.rows { w1, s1, m := HeldComes(own, w, q, fault, n); }
      else { w1, s1, m := FreshComes(own, w, q, fault, n); }
  }

  lemma {:induction false} SignedToPost(own: string, w: World, s: Sender, fault: Fault, n: nat)
    requires WorldOk(own, w) && SenderOk(own, w, s) && s.at.Signed? && s.request.key !in w.rows && n >= 1
    requires w.gateOpen && w.network == [fault]
             && !Pending(w.remote.rateLimitOnce, w.remote.rateLimitConsumed, s.request)
    ensures var (w', s') := Step(own, w, s);
            && AtPost(own, w', s', fault) && s'.request == s.request && w'.remote == w.remote
            && !IsLanded(w', s'.at.row)
            && Solo(own, w, s, n) == Solo(own, w', s', n - 1)
  {
    UnusedNonceNotLanded(own, w, s.request.room, s.at.nonce);
    PreparingStep(own, w, s);
    SoloStep(own, w, s, n);
  }

  // ---- faults after which the record is looked for ----

  // The caller cannot know whether these landed.
  predicate Unclear(fault: Fault) {
    fault == LoseRequest || fault == LoseReply
    || (fault.Refuse? && (fault.status == 403 || fault.status == 409 || fault.status == 422))
  }

  predicate ReachesLog(fault: Fault) {
    fault == LoseReply || (fault.Refuse? && fault.landed)
  }

  // Among the first hundred records of its room one carries the row.
  ghost predicate InReach(w: World, row: Row) {
    exists i :: 0 <= i < 100 && i < |Log(w.remote, row.room)| && Carries(Log(w.remote, row.room)[i], row)
  }

  lemma {:induction false} InReachIsRead(w: World, row: Row)
    requires GoodRemote(w.remote)
    ensures InReach(w, row) <==> exists x :: x in ReadRoom(w.remote, row.room, 0, 100) && Carries(x, row)
  {
    WholeRead(w.remote, row.room);
    var log, read := Log(w.remote, row.room), ReadRoom(w.remote, row.room, 0, 100);
    if InReach(w, row) {
      var i :| 0 <= i < 100 && i < |log| && Carries(log[i], row);
      assert read[i] == log[i];
    }
    if x :| x in read && Carries(x, row) {
      var i :| 0 <= i < |read| && read[i] == x;
      assert log[i] == x;
    }
  }

  // Looking for a held row finds it exactly if it lies in reach.
  lemma {:induction false} LookedForExactly(own: string, w: World, q: Request, row: Row)
    requires WorldOk(own, w) && Holds(w, q, row)
    ensures InReach(w, row) ==> Reconciled(w.remote, row).Confirming?
    ensures !InReach(w, row) ==> Reconciled(w.remote, row) == Finished(Failed(NotFoundUpstream))
  {
    var read := ReadRoom(w.remote, row.room, 0, 100);
    InReachIsRead(w, row);
    AtMostOneMatch(w.remote, row);
    ReadsAreLogged(w.remote, row.room, 100);
    var ms := Matches(read, row);
    FirstIsMember(ms);
    if x :| x in read && Carries(x, row) { assert x in ms; }
    if ms != [] { MatchIsLanded(own, w, q, row, ms[0]); }
  }

  lemma {:induction false} ConfirmsAndEnds(own: string, w: World, s: Sender, n: nat)
    requires s.at.Confirming? && s.request.key in w.rows && n >= 1
    ensures DeliversWithin(own, w, s, n) && Solo(own, w, s, n).0 == w.(rows := Solo(own, w, s, n).0.rows)
  {
    SoloStep(own, w, s, n);
    FinishedStays(own, Step(own, w, s).0, Step(own, w, s).1, n - 1);
  }

  lemma {:induction false} LooksUp(own: string, w: World, s: Sender, n: nat)
    requires s.at.Reconciling? && n >= 1
    ensures Solo(own, w, s, n) == Solo(own, w, s.(at := Reconciled(w.remote, s.at.row)), n - 1)
  {
    SoloStep(own, w, s, n);
  }

  lemma {:induction false} LookingFinds(own: string, w: World, s: Sender, n: nat)
    requires WorldOk(own, w) && SenderOk(own, w, s) && s.at.Reconciling? && n >= 2 && InReach(w, s.at.row)
    ensures DeliversWithin(own, w, s, n) && Solo(own, w, s, n).0 == w.(rows := Solo(own, w, s, n).0.rows)
  {
    LooksUp(own, w, s, n);
    LookedForExactly(own, w, s.request, s.at.row);
    ConfirmsAndEnds(own, w, s.(at := Reconciled(w.remote, s.at.row)), n - 1);
  }

  lemma {:induction false} LookingMisses(own: string, w: World, s: Sender, n: nat)
    requires WorldOk(own, w) && SenderOk(own, w, s) && s.at.Reconciling? && n >= 2 && !InReach(w, s.at.row)
    ensures Solo(own, w, s, n) == (w, s.(at := Finished(Failed(NotFoundUpstream))))
  {
    LooksUp(own, w, s, n);
    LookedForExactly(own, w, s.request, s.at.row);
    FinishedStays(own, w, s.(at := Finished(Failed(NotFoundUpstream))), n - 1);
  }

  // From looking on: delivered exactly if in reach; the log is not touched any more.
  lemma {:induction false} LookingEnds(own: string, w: World, s: Sender, n: nat)
    requires WorldOk(own, w) && SenderOk(own, w, s) && s.at.Reconciling? && n >= 2
    ensures Solo(own, w, s, n).0.remote == w.remote && Solo(own, w, s, n).0.network == w.network
    ensures if InReach(w, s.at.row) then DeliversWithin(own, w, s, n)
            else Solo(own, w, s, n) == (w, s.(at := Finished(Failed(NotFoundUpstream))))
  {
    if InReach(w, s.at.row) { LookingFinds(own, w, s, n); } else { LookingMisses(own, w, s, n); }
  }

  lemma {:induction false} UnclearTransport(w: World, q: Request, row: Row, attempt: nat, fault: Fault)
    requires w.network == [fault] && Unclear(fault)
    ensures var (w', result) := Transported(w, q.actor, q.room, row.did, row.nonce, row.text, row.signature);
            var t' := PostSigned(w.remote, q.actor, q.room, row.did, row.nonce, row.text, row.signature).0;
            && w' == w.(network := [], remote := if ReachesLog(fault) then t' else w.remote)
            && Answered(row, attempt, result) == Reconciling(row)
  {
  }

  // The post under such a fault: the network is quiet after it, and the log has the record if the
  // fault let it through.
  lemma {:induction false} UnclearPost(own: string, w: World, s: Sender, fault: Fault)
    requires AtPost(own, w, s, fault) && Unclear(fault)
    ensures var (w', s') := Step(own, w, s);
            && s' == s.(at := Reconciling(s.at.row)) && w'.rows == w.rows && w'.network == []
            && (ReachesLog(fault) ==> IsLanded(w', s.at.row))
            && (!ReachesLog(fault) ==> w'.remote == w.remote)
  {
    UnclearTransport(w, s.request, s.at.row, s.at.attempt, fault);
    if ReachesLog(fault) { PostLands(own, w, s); }
  }

  lemma {:induction false} PostLands(own: string, w: World, s: Sender)
    requires WorldOk(own, w) && SenderOk(own, w, s) && s.at.Sending?
    requires !Pending(w.remote.rateLimitOnce, w.remote.rateLimitConsumed, s.request)
    ensures var row, q := s.at.row, s.request;
            var t' := PostSigned(w.remote, q.actor, q.room, row.did, row.nonce, row.text, row.signature).0;
            Find(Log(t', row.room), row.did, row.nonce).Some?
  {
    var row, q := s.at.row, s.request;
    assert RowOk(own, w, w.rows[q.key]);
    if x :| x in Log(w.remote, q.room) && x.did == row.did && x.nonce == row.nonce {
      UsedNonceAnswered(w.remote, q.actor, q.room, x, row.text, row.signature);
    } else {
      FreshNonceAnswered(w.remote, q.actor, q.room, row.did, row.nonce, row.text, row.signature);
    }
  }

  // What the next call finds: the request's row, and a quiet network.
  lemma {:induction false} StaysServable(own: string, w: World, s: Sender, w': World)
    requires s.request.key in w.rows && Holds(w, s.request, w.rows[s.request.key]) && Grows(w, w')
    requires w'.gateOpen && w'.network == []
    ensures Servable(w', s.request) && SameBytes(w.rows[s.request.key], w'.rows[s.request.key])
  {
    assert RowKept(w.rows[s.request.key], w'.rows[s.request.key]);
  }

  // How a send ends at its post under such a fault.
  lemma {:induction false} UnclearPostEnds(own: string, w: World, s: Sender, fault: Fault, n: nat)
    requires AtPost(own, w, s, fault) && Unclear(fault) && n >= 3
    ensures var (w', s') := Solo(own, w, s, n);
            && WorldOk(own, w') && Servable(w', s.request)
            && (if InReach(w', s.at.row) then DeliversWithin(own, w, s, n)
                else s'.at == Finished(Failed(NotFoundUpstream)))
            && (ReachesLog(fault) ==> IsLanded(w', s.at.row)) && (!ReachesLog(fault) ==> w'.remote == w.remote)
  {
    var (w1, s1) := Step(own, w, s);
    SoloStep(own, w, s, n);
    StepKeeps(own, w, s);
    UnclearPost(own, w, s, fault);
    LookingEnds(own, w1, s1, n - 1);
    SoloKeeps(own, w1, s1, n - 1);
    SoloFrame(own, w1, s1, n - 1);
    StaysServable(own, w1, s1, Solo(own, w1, s1, n - 1).0);
  }

  // Under a refusal with 403, 409 or 422, a lost request or a lost reply, a send delivers exactly if
  // its record then lies among the first hundred of its room, and is not found otherwise; the record
  // is in the log if the fault let it through, and if not the log is as it was. The next call is one a
  // quiet network serves.
  lemma {:induction false} UnclearSendEnds(own: string, w: World, q: Request, fault: Fault, n: nat)
    requires OneFault(own, w, q, fault) && Unclear(fault) && n >= 7
    ensures var w' := After(own, w, q, n);
            && WorldOk(own, w') && Servable(w', q) && q.key in w'.rows
            && (if InReach(w', w'.rows[q.key]) then DeliversWithin(own, w, Sender(q, Starting), n)
                else Ending(own, w, q, n) == Finished(Failed(NotFoundUpstream)))
            && (ReachesLog(fault) ==> IsLanded(w', w'.rows[q.key])) && (!ReachesLog(fault) ==> w'.remote == w.remote)
  {
    var w1, s1, m := ComesToPost(own, w, q, fault, n);
    UnclearPostEnds(own, w1, s1, fault, m);
    var w' := After(own, w, q, n);
    SoloKeeps(own, w1, s1, m);
    assert RowKept(w1.rows[q.key], w'.rows[q.key]);
    SameBytesSameReach(w', s1.at.row, w'.rows[q.key]);
  }

  lemma {:induction false} SameBytesSameReach(w: World, row: Row, row': Row)
    requires SameBytes(row, row')
    ensures InReach(w, row) == InReach(w, row') && IsLanded(w, row) == IsLanded(w, row')
  {
    assert forall x :: Carries(x, row) == Carries(x, row');
  }

  // ---- faults that end the call ----

  lemma {:induction false} PostStops(own: string, w: World, s: Sender, error: SendError, n: nat)
    requires n >= 1 && Step(own, w, s).1 == s.(at := Finished(Failed(error)))
    ensures Solo(own, w, s, n) == Step(own, w, s)
  {
    SoloStep(own, w, s, n);
    FinishedStays(own, Step(own, w, s).0, Step(own, w, s).1, n - 1);
  }

  lemma {:induction false} RefusedPost(own: string, w: World, s: Sender, fault: Fault)
    requires AtPost(own, w, s, fault) && fault.Refuse? && !Unclear(fault)
    ensures var (w', s') := Step(own, w, s);
            && s' == s.(at := Finished(Failed(RefusedUpstream(fault.status)))) && w'.rows == w.rows && w'.network == []
            && (fault.landed ==> IsLanded(w', s.at.row)) && (!fault.landed ==> w'.remote == w.remote)
  {
    if fault.landed { PostLands(own, w, s); }
  }

  // Any other refusal is shown to the caller with its status, and the row stays prepared, for the next
  // call, which a quiet network serves.
  lemma {:induction false} RefusedSendEnds(own: string, w: World, q: Request, fault: Fault, n: nat)
    requires OneFault(own, w, q, fault) && fault.Refuse? && n >= 5
    requires fault.status != 403 && fault.status != 409 && fault.status != 422
    ensures var w' := After(own, w, q, n);
            && Ending(own, w, q, n) == Finished(Failed(RefusedUpstream(fault.status)))
            && WorldOk(own, w') && Servable(w', q) && q.key in w'.rows && w'.rows[q.key].status.Prepared?
            && (fault.landed ==> IsLanded(w', w'.rows[q.key])) && (!fault.landed ==> w'.remote == w.remote)
  {
    var w1, s1, m := ComesToPost(own, w, q, fault, n);
    RefusedPost(own, w1, s1, fault);
    StepKeeps(own, w1, s1);
    PostStops(own, w1, s1, RefusedUpstream(fault.status), m);
    StaysServable(own, w1, s1, Step(own, w1, s1).0);
  }

  // ---- being limited ----

  lemma {:induction false} LongLimitStops(own: string, w: World, s: Sender, seconds: nat)
    requires AtPost(own, w, s, Limit(seconds)) && seconds > 2
    ensures Step(own, w, s) == (w.(network := []), s.(at := Finished(Failed(StillRateLimited))))
  {
  }

  lemma {:induction false} ShortLimitRetries(own: string, w: World, s: Sender, seconds: nat)
    requires AtPost(own, w, s, Limit(seconds)) && seconds <= 2
    ensures Step(own, w, s) == (w.(network := []), s.(at := Sending(s.at.row, 1)))
  {
  }

  // A 429 that asks for more than two seconds ends the call with nothing posted.
  lemma {:induction false} LongLimitEnds(own: string, w: World, q: Request, seconds: nat, n: nat)
    requires OneFault(own, w, q, Limit(seconds)) && seconds > 2 && n >= 5
    ensures var w' := After(own, w, q, n);
            && Ending(own, w, q, n) == Finished(Failed(StillRateLimited)) && w'.remote == w.remote
            && WorldOk(own, w') && Servable(w', q) && q.key in w'.rows && w'.rows[q.key].status.Prepared?
  {
    var w1, s1, m := ComesToPost(own, w, q, Limit(seconds), n);
    LongLimitStops(own, w1, s1, seconds);
    StepKeeps(own, w1, s1);
    PostStops(own, w1, s1, StillRateLimited, m);
    StaysServable(own, w1, s1, Step(own, w1, s1).0);
  }

  lemma {:induction false} RetryEnds(own: string, w: World, s: Sender, seconds: nat, n: nat)
    requires AtPost(own, w, s, Limit(seconds)) && seconds <= 2 && n >= 4
    ensures EndsAs(own, w, s, n, LostBeyondReach(w, s.request, IsLanded(w, s.at.row)))
    ensures var w' := Solo(own, w, s, n).0; WorldOk(own, w') && Servable(w', s.request) && IsLanded(w', s.at.row)
  {
    var (w1, s1) := Step(own, w, s);
    ShortLimitRetries(own, w, s, seconds);
    SoloStep(own, w, s, n);
    StepKeeps(own, w, s);
    FromPost(own, w1, s1, n - 1);
    SoloKeeps(own, w1, s1, n - 1);
    SoloFrame(own, w1, s1, n - 1);
    StaysServable(own, w1, s1, Solo(own, w1, s1, n - 1).0);
  }

  // One that asks for two seconds or less is waited out, and the call ends as without it.
  lemma {:induction false} ShortLimitEnds(own: string, w: World, q: Request, seconds: nat, n: nat)
    requires OneFault(own, w, q, Limit(seconds)) && seconds <= 2 && n >= 8
    ensures EndsAs(own, w, Sender(q, Starting), n, Loses(w, q))
    ensures var w' := After(own, w, q, n); WorldOk(own, w') && Servable(w', q)
  {
    var w1, s1, m := ComesToPost(own, w, q, Limit(seconds), n);
    RetryEnds(own, w1, s1, seconds, m);
    assert LostBeyondReach(w1, q, IsLanded(w1, s1.at.row)) == Loses(w, q);
  }

  // A second 429 in the same call is not waited out: it is retried once.
  lemma {:induction false} SecondLimitStops(own: string, w: World, s: Sender, seconds: nat)
    requires s.at.Sending? && s.at.attempt > 0 && w.network == [Limit(seconds)]
    ensures Step(own, w, s) == (w.(network := []), s.(at := Finished(Failed(StillRateLimited))))
  {
  }

  // A post the log finds badly signed ends the call at once: nothing is looked for.
  lemma {:induction false} InvalidStops(own: string, w: World, s: Sender)
    requires s.at.Sending? && w.network == []
    requires var q, row := s.request, s.at.row;
             && !Waiting(w.remote.rateLimitOnce, w.remote.rateLimitConsumed, q.actor, q.room)
             && !WellSigned(q.room, row.did, row.nonce, row.text, row.signature)
    ensures var (w', s') := Step(own, w, s);
            w' == w && s'.request == s.request && s'.at.Finished? && s'.at.outcome.Failed?
              && s'.at.outcome.error.InvalidUpstream?
  {
    var q, row := s.request, s.at.row;
    OtherPostsAnswered(w.remote, q.actor, q.room, row.did, row.nonce, row.text, row.signature);
  }

  // After any of these faults the next call on a quiet network ends as SendEnds says.
  lemma {:induction false} NextCallEnds(own: string, w: World, q: Request, fault: Fault, n: nat, k: nat)
    requires OneFault(own, w, q, fault) && n >= 8 && k >= 7 && fault != Pass
    ensures var w' := After(own, w, q, n); Servable(w', q) && EndsAs(own, w', Sender(q, Starting), k, Loses(w', q))
  {
    if Unclear(fault) {
      UnclearSendEnds(own, w, q, fault, n);
    } else if fault.Refuse? {
      RefusedSendEnds(own, w, q, fault, n);
    } else if fault.seconds > 2 {
      LongLimitEnds(own, w, q, fault.seconds, n);
    } else {
      ShortLimitEnds(own, w, q, fault.seconds, n);
    }
    SendEnds(own, After(own, w, q, n), q, k);
  }
}
