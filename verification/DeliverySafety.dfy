// What every run of the delivery machine keeps, and what that means for its callers.
module DeliverySafety {
  import opened Wrappers
  import opened Canonical
  import opened Signer
  import opened Technocore
  import opened DeliveryProtocol

  // What one step of one sender keeps, gains and leaves free.
  ghost predicate StepOk(own: string, w: World, s: Sender, w': World, s': Sender) {
    && WorldOk(own, w') && Grows(w, w') && SenderOk(own, w', s')
    && (s'.at.Signed? ==> s'.at.nonce > RoomLane(w, s.request.room))
    && (forall room, nonce ::
          NonceUnused(w, room, nonce) && !(s.at.Signed? && room == s.request.room && nonce == s.at.nonce)
          ==> NonceUnused(w', room, nonce))
  }

  // A step that only moves the sender on.
  lemma {:induction false} OnlySenderMoves(own: string, w: World, s: Sender, at: Point)
    requires WorldOk(own, w) && SenderOk(own, w, s.(at := at)) && !at.Signed?
    ensures StepOk(own, w, s, w, s.(at := at))
  {
  }

  // ---- one lemma per kind of step ----

  // A step that leaves the rows alone and adds no own record without a row.
  lemma {:induction false} RowsUntouched(own: string, w: World, w': World)
    requires WorldOk(own, w) && Grows(w, w') && w'.rows == w.rows && GoodRemote(w'.remote)
    requires forall room, x :: x in Log(w'.remote, room) && x.did == own ==> x in Log(w.remote, room) || HasRow(w, x)
    ensures WorldOk(own, w')
  {
    forall k | k in w'.rows ensures RowOk(own, w', w'.rows[k]) {
      RowStays(own, w, w', w.rows[k]);
    }
    forall room, x | x in Log(w'.remote, room) && x.did == own ensures HasRow(w', x) {
      assert HasRow(w, x);
    }
  }

  lemma {:induction false} SameLogsKeep(own: string, w: World, w': World)
    requires WorldOk(own, w) && w'.signer == w.signer && w'.rows == w.rows
    requires w'.remote.rooms == w.remote.rooms && w'.remote.nextSequence == w.remote.nextSequence
    ensures WorldOk(own, w') && Grows(w, w')
  {
    assert forall room :: Log(w'.remote, room) == Log(w.remote, room);
    RowsUntouched(own, w, w');
  }

  lemma {:induction false} SignKeeps(own: string, w: World, w': World, q: SignRequest)
    requires WorldOk(own, w)
    requires w' == w.(signer := w'.signer) && w'.signer.lanes == AfterNonce(w.signer.lanes, q).0
    ensures WorldOk(own, w') && Grows(w, w')
  {
    forall room ensures RoomLane(w, room) <= RoomLane(w', room) {
      LanesOnlyRise(w.signer.lanes, q, "message:" + room);
    }
    RowsUntouched(own, w, w');
  }

  lemma {:induction false} SigningStep(own: string, w: World, s: Sender)
    requires WorldOk(own, w) && s.at.Signing?
    ensures StepOk(own, w, s, Step(own, w, s).0, Step(own, w, s).1) && Step(own, w, s).0.rows == w.rows
  {
    var q := MessageRequest(s.request.actor, s.request.room, s.request.text);
    var (w', s') := Step(own, w, s);
    FieldsArePresent(q);
    SignKeeps(own, w, w', q);
    if s'.at.Signed? {
      var room, nonce := s.request.room, s'.at.nonce;
      assert RoomLane(w', room) == nonce > RoomLane(w, room);
      forall k | k in w.rows && w.rows[k].room == room ensures w.rows[k].nonce != nonce {
        assert RowOk(own, w, w.rows[k]);
      }
    }
  }

  lemma {:induction false} AddedRowStaysDistinct(w: World, key: string, row: Row)
    requires RowsDistinct(w) && key !in w.rows && NonceUnused(w, row.room, row.nonce)
    ensures RowsDistinct(w.(rows := w.rows[key := row]))
  {
  }

  // Rows may be added or moved on; own records keep the row that carries them.
  lemma {:induction false} OwnRecordsKeepRows(own: string, w: World, w': World)
    requires forall room, x :: x in Log(w.remote, room) && x.did == own ==> HasRow(w, x)
    requires w'.remote == w.remote
    requires forall k :: k in w.rows ==> k in w'.rows && SameBytes(w.rows[k], w'.rows[k])
    ensures forall room, x :: x in Log(w'.remote, room) && x.did == own ==> HasRow(w', x)
  {
    forall room, x | x in Log(w'.remote, room) && x.did == own ensures HasRow(w', x) {
      assert HasRow(w, x);
      var k :| k in w.rows && Carries(x, w.rows[k]);
      assert Carries(x, w'.rows[k]);
    }
  }

  lemma {:induction false} AllRowsStay(own: string, w: World, w': World, key: string)
    requires WorldOk(own, w) && Grows(w, w')
    requires key in w'.rows && w'.rows.Keys == w.rows.Keys + {key} && RowOk(own, w', w'.rows[key])
    requires forall k :: k in w'.rows && k != key ==> w'.rows[k] == w.rows[k]
    ensures forall k :: k in w'.rows ==> RowOk(own, w', w'.rows[k])
  {
    forall k | k in w'.rows && k != key ensures RowOk(own, w', w'.rows[k]) {
      RowStays(own, w, w', w.rows[k]);
    }
  }

  lemma {:induction false} RowAdded(own: string, w: World, key: string, row: Row)
    requires WorldOk(own, w) && key !in w.rows && RowOk(own, w, row) && NonceUnused(w, row.room, row.nonce)
    ensures var w' := w.(rows := w.rows[key := row]);
            && WorldOk(own, w') && Grows(w, w')
            && (forall room, nonce :: NonceUnused(w, room, nonce) && !(room == row.room && nonce == row.nonce)
                  ==> NonceUnused(w', room, nonce))
  {
    var w' := w.(rows := w.rows[key := row]);
    assert Grows(w, w');
    RowStays(own, w, w', row);
    AllRowsStay(own, w, w', key);
    AddedRowStaysDistinct(w, key, row);
    OwnRecordsKeepRows(own, w, w');
  }

  lemma {:induction false} PreparingStep(own: string, w: World, s: Sender)
    requires WorldOk(own, w) && SenderOk(own, w, s) && s.at.Signed?
    ensures StepOk(own, w, s, Step(own, w, s).0, Step(own, w, s).1)
  {
    var q := s.request;
    if q.key !in w.rows {
      var row := Row(q.actor, q.room, s.at.did, s.at.nonce, q.text, s.at.signature, Prepared, None);
      RowAdded(own, w, q.key, row);
      assert Step(own, w, s) == (w.(rows := w.rows[q.key := row]), s.(at := Sending(row, 0)));
    } else {
      OnlySenderMoves(own, w, s, Finished(Failed(KeyTaken)));
    }
  }

  // What a post of a held row can come back with; a replay conflict is not among it.
  lemma {:induction false} PostOfHeldRow(own: string, w: World, q: Request, row: Row)
    requires WorldOk(own, w) && Holds(w, q, row)
    ensures var (t', result) := PostSigned(w.remote, q.actor, q.room, row.did, row.nonce, row.text, row.signature);
            && GoodRemote(t') && LogsGrow(w.remote, t')
            && (forall room, x :: x in Log(t', room) && x.did == own ==> x in Log(w.remote, room) || HasRow(w, x))
            && !result.InvalidRequest?
            && (result.Posted? ==> result.record in Log(t', row.room) && Carries(result.record, row))
  {
    var mine := w.rows[q.key];
    assert RowOk(own, w, mine);
    PostKeepsRemote(w.remote, q.actor, q.room, row.did, row.nonce, row.text, row.signature);
    PostAppends(w.remote, q.actor, q.room, row.did, row.nonce, row.text, row.signature);
    var (t', result) := PostSigned(w.remote, q.actor, q.room, row.did, row.nonce, row.text, row.signature);
    var appended := Record(w.remote.nextSequence, q.room, row.did, row.nonce, row.text, row.signature);
    assert Carries(appended, mine) && HasRow(w, appended);
    var found := Find(Log(w.remote, q.room), row.did, row.nonce);
    if found.Some? {
      assert HasRow(w, found.value);
      var k :| k in w.rows && Carries(found.value, w.rows[k]);
      LogsMakeRemote(w.remote);
      assert GoodLog(Log(w.remote, q.room), q.room, w.remote.nextSequence);
      assert found.value.room == q.room;
      assert k == q.key;
    }
  }

  // The network lets a post through to the log or does not; a reply may be lost either way.
  predicate Carried(w: World, w': World, result: PostResult, remote: Remote, posted: PostResult) {
    && w' == w.(network := w'.network, remote := w'.remote)
    && (w'.remote == w.remote || w'.remote == remote)
    && (result.Posted? || result.InvalidRequest? ==> result == posted && w'.remote == remote)
  }

  lemma {:induction false} TransportCarries(w: World, actor: string, room: string, did: string, nonce: nat,
                                            text: string, signature: Signature)
    ensures var (w', result) := Transported(w, actor, room, did, nonce, text, signature);
            var (remote, posted) := PostSigned(w.remote, actor, room, did, nonce, text, signature);
            Carried(w, w', result, remote, posted)
  {
  }

  lemma {:induction false} CarriedKeeps(own: string, w: World, w': World, result: PostResult, remote: Remote,
                                        posted: PostResult)
    requires WorldOk(own, w) && Carried(w, w', result, remote, posted)
    requires GoodRemote(remote) && LogsGrow(w.remote, remote)
    requires forall room, x :: x in Log(remote, room) && x.did == own ==> x in Log(w.remote, room) || HasRow(w, x)
    ensures WorldOk(own, w') && Grows(w, w')
  {
    if w'.remote == w.remote {
      SameLogsKeep(own, w, w');
    } else {
      RowsUntouched(own, w, w');
    }
  }

  lemma {:induction false} TransportOfHeldRow(own: string, w: World, q: Request, row: Row)
    requires WorldOk(own, w) && Holds(w, q, row)
    ensures var (w', result) := Transported(w, q.actor, q.room, row.did, row.nonce, row.text, row.signature);
            && w'.rows == w.rows && WorldOk(own, w') && Grows(w, w')
            && !result.InvalidRequest?
            && (result.Posted? ==> Landed(w', row, result.record))
  {
    var (w', result) := Transported(w, q.actor, q.room, row.did, row.nonce, row.text, row.signature);
    var (remote, posted) := PostSigned(w.remote, q.actor, q.room, row.did, row.nonce, row.text, row.signature);
    TransportCarries(w, q.actor, q.room, row.did, row.nonce, row.text, row.signature);
    PostOfHeldRow(own, w, q, row);
    CarriedKeeps(own, w, w', result, remote, posted);
  }

  lemma {:induction false} SendingStep(own: string, w: World, s: Sender)
    requires WorldOk(own, w) && SenderOk(own, w, s) && s.at.Sending?
    ensures StepOk(own, w, s, Step(own, w, s).0, Step(own, w, s).1)
  {
    TransportOfHeldRow(own, w, s.request, s.at.row);
  }

  lemma {:induction false} FirstIsMember<T>(s: seq<T>)
    ensures s != [] ==> s[0] in s
  {
  }

  lemma {:induction false} LastIsAlone(log: seq<Record>, n: nat, room: string, bound: nat)
    requires GoodLog(log, room, bound) && n < |log|
    ensures forall m :: m in log[..n] ==> !(m.did == log[n].did && m.nonce == log[n].nonce)
  {
  }

  lemma {:induction false} MatchesDistinct(log: seq<Record>, n: nat, row: Row, room: string, bound: nat)
    requires GoodLog(log, room, bound) && n <= |log|
    ensures |Matches(log[..n], row)| <= 1
  {
    if n == 0 {
    } else {
      var last, front := log[n - 1], log[..n - 1];
      assert log[..n][..n - 1] == front;
      MatchesDistinct(log, n - 1, row, room, bound);
      LastIsAlone(log, n - 1, room, bound);
      if last.did == row.did && last.nonce == row.nonce && last.text == row.text {
        FirstIsMember(Matches(front, row));
      }
    }
  }

  lemma {:induction false} ReadsAreLogged(t: Remote, room: string, limit: nat)
    requires GoodRemote(t)
    ensures ReadRoom(t, room, 0, limit) <= Log(t, room)
  {
    LogsMakeRemote(t);
    var log := Log(t, room);
    assert GoodLog(log, room, t.nextSequence);
    if log != [] { assert GoodRecord(log[0], room, t.nextSequence); }
    NewerIsSuffix(log, 0, 0);
    assert log[0..] == log;
  }

  // An own record that matches the sender's row carries it.
  lemma {:induction false} MatchIsLanded(own: string, w: World, q: Request, row: Row, m: Record)
    requires WorldOk(own, w) && Holds(w, q, row)
    requires m in Log(w.remote, row.room) && m.did == row.did && m.nonce == row.nonce && m.text == row.text
    ensures Landed(w, row, m) && m == Record(m.sequence, row.room, row.did, row.nonce, row.text, row.signature)
  {
    assert RowOk(own, w, w.rows[q.key]);
    assert HasRow(w, m);
    var k :| k in w.rows && Carries(m, w.rows[k]);
    LogsMakeRemote(w.remote);
    assert GoodLog(Log(w.remote, row.room), row.room, w.remote.nextSequence);
    assert m.room == row.room;
    assert k == q.key;
  }

  lemma {:induction false} AtMostOneMatch(t: Remote, row: Row)
    requires GoodRemote(t)
    ensures |Matches(ReadRoom(t, row.room, 0, 100), row)| <= 1
  {
    var log, read := Log(t, row.room), ReadRoom(t, row.room, 0, 100);
    ReadsAreLogged(t, row.room, 100);
    LogsMakeRemote(t);
    assert read == log[..|read|];
    MatchesDistinct(log, |read|, row, row.room, t.nextSequence);
  }

  lemma {:induction false} ReconciledOk(own: string, w: World, s: Sender, row: Row)
    requires WorldOk(own, w) && Holds(w, s.request, row)
    ensures SenderOk(own, w, s.(at := Reconciled(w.remote, row)))
  {
    var read := ReadRoom(w.remote, row.room, 0, 100);
    ReadsAreLogged(w.remote, row.room, 100);
    AtMostOneMatch(w.remote, row);
    var ms := Matches(read, row);
    FirstIsMember(ms);
    if |ms| == 1 {
      assert ms[0] in read;
      MatchIsLanded(own, w, s.request, row, ms[0]);
    }
  }

  lemma {:induction false} ReconcilingStep(own: string, w: World, s: Sender)
    requires WorldOk(own, w) && SenderOk(own, w, s) && s.at.Reconciling?
    ensures StepOk(own, w, s, Step(own, w, s).0, Step(own, w, s).1)
  {
    ReconciledOk(own, w, s, s.at.row);
    OnlySenderMoves(own, w, s, Reconciled(w.remote, s.at.row));
  }

  function ConfirmedRow(row: Row, record: Record): Row {
    row.(status := Confirmed, sequence := Some(record.sequence))
  }

  // Confirming a row whose record landed; confirming it again changes nothing.
  lemma {:induction false} ConfirmingKeepsRow(own: string, w: World, row: Row, record: Record)
    requires WorldOk(own, w) && RowOk(own, w, row) && Landed(w, row, record)
    ensures RowKept(row, ConfirmedRow(row, record))
    ensures RowOk(own, w, ConfirmedRow(row, record))
  {
    if row.status.Confirmed? {
      var x :| Landed(w, row, x) && x.sequence == row.sequence.value;
      LogsMakeRemote(w.remote);
      OneRecordPerNonce(Log(w.remote, row.room), row.room, w.remote.nextSequence, x, record);
    }
    assert Landed(w, ConfirmedRow(row, record), record);
  }

  lemma {:induction false} MovedRowStaysDistinct(w: World, key: string, row: Row)
    requires RowsDistinct(w) && key in w.rows && SameBytes(w.rows[key], row)
    ensures RowsDistinct(w.(rows := w.rows[key := row]))
    ensures forall room, nonce :: NonceUnused(w, room, nonce) ==>
              NonceUnused(w.(rows := w.rows[key := row]), room, nonce)
  {
  }

  lemma {:induction false} RowConfirmed(own: string, w: World, key: string, record: Record)
    requires WorldOk(own, w) && key in w.rows && Landed(w, w.rows[key], record)
    ensures var w' := w.(rows := w.rows[key := ConfirmedRow(w.rows[key], record)]);
            && WorldOk(own, w') && Grows(w, w')
            && (forall room, nonce :: NonceUnused(w, room, nonce) ==> NonceUnused(w', room, nonce))
  {
    var row := w.rows[key];
    var row' := ConfirmedRow(row, record);
    var w' := w.(rows := w.rows[key := row']);
    ConfirmingKeepsRow(own, w, row, record);
    assert Grows(w, w');
    RowStays(own, w, w', row');
    AllRowsStay(own, w, w', key);
    MovedRowStaysDistinct(w, key, row');
    OwnRecordsKeepRows(own, w, w');
  }

  lemma {:induction false} ConfirmedSender(own: string, w: World, w': World, q: Request, row: Row, record: Record)
    requires Holds(w, q, row) && Landed(w, row, record)
    requires w' == w.(rows := w.rows[q.key := ConfirmedRow(w.rows[q.key], record)])
    ensures SenderOk(own, w', Sender(q, Finished(Delivered(record))))
  {
  }

  lemma {:induction false} StepIs(own: string, w: World, s: Sender, w': World, at: Point)
    requires !at.Signed? && forall room, nonce :: NonceUnused(w, room, nonce) ==> NonceUnused(w', room, nonce)
    ensures WorldOk(own, w') && Grows(w, w') && SenderOk(own, w', s.(at := at)) ==> StepOk(own, w, s, w', s.(at := at))
  {
  }

  lemma {:induction false} ConfirmingStep(own: string, w: World, s: Sender)
    requires WorldOk(own, w) && SenderOk(own, w, s) && s.at.Confirming?
    ensures StepOk(own, w, s, Step(own, w, s).0, Step(own, w, s).1)
  {
    var q, record := s.request, s.at.record;
    var w' := w.(rows := w.rows[q.key := ConfirmedRow(w.rows[q.key], record)]);
    assert Carries(record, w.rows[q.key]);
    RowConfirmed(own, w, q.key, record);
    ConfirmedSender(own, w, w', q, s.at.row, record);
    StepIs(own, w, s, w', Finished(Delivered(record)));
  }

  lemma {:induction false} ConfirmedIsLanded(own: string, w: World, q: Request)
    requires WorldOk(own, w) && q.key in w.rows && w.rows[q.key].status.Confirmed?
    ensures var row := w.rows[q.key];
            row.sequence.Some?
              && Landed(w, row, Record(row.sequence.value, row.room, row.did, row.nonce, row.text, row.signature))
  {
    var row := w.rows[q.key];
    assert RowOk(own, w, row);
    var x :| Landed(w, row, x) && x.sequence == row.sequence.value;
    assert x == Record(row.sequence.value, row.room, row.did, row.nonce, row.text, row.signature);
  }

  lemma {:induction false} LookedSender(own: string, w: World, s: Sender)
    requires WorldOk(own, w)
    ensures SenderOk(own, w, s.(at := Looked(w, s.request)))
  {
    if s.request.key in w.rows && w.rows[s.request.key].status.Confirmed? { ConfirmedIsLanded(own, w, s.request); }
  }

  lemma {:induction false} LookedOk(own: string, w: World, s: Sender)
    requires WorldOk(own, w) && s.at.Starting?
    ensures StepOk(own, w, s, Step(own, w, s).0, Step(own, w, s).1) && !Step(own, w, s).1.at.Signed?
  {
    LookedSender(own, w, s);
    OnlySenderMoves(own, w, s, Looked(w, s.request));
  }

  lemma {:induction false} StepKeeps(own: string, w: World, s: Sender)
    requires WorldOk(own, w) && SenderOk(own, w, s)
    ensures StepOk(own, w, s, Step(own, w, s).0, Step(own, w, s).1)
  {
    match s.at
    case Starting => LookedOk(own, w, s);
    case Signing => SigningStep(own, w, s);
    case Signed(_, _, _) => PreparingStep(own, w, s);
    case Sending(_, _) => SendingStep(own, w, s);
    case Reconciling(_) => ReconcilingStep(own, w, s);
    case Confirming(_, _) => ConfirmingStep(own, w, s);
    case Finished(_) =>
  }

  // ---- every event ----

  ghost predicate WorldStepOk(own: string, s: State, s': State) {
    WorldOk(own, s'.w) && Grows(s.w, s'.w) && s'.w.rows == s.w.rows && s'.senders == s.senders
  }

  lemma {:induction false} ForeignPostKeeps(own: string, w: World, actor: string, room: string, did: string,
                                            nonce: int, text: string, signature: Signature)
    requires WorldOk(own, w) && did != own
    ensures var w' := w.(remote := PostSigned(w.remote, actor, room, did, nonce, text, signature).0);
            WorldOk(own, w') && Grows(w, w')
  {
    PostKeepsRemote(w.remote, actor, room, did, nonce, text, signature);
    PostAppends(w.remote, actor, room, did, nonce, text, signature);
    RowsUntouched(own, w, w.(remote := PostSigned(w.remote, actor, room, did, nonce, text, signature).0));
  }

  lemma {:induction false} WorldEventKeeps(own: string, s: State, e: Event)
    requires WorldOk(own, s.w) && !e.Begin? && !e.Advance? && !e.Die?
    ensures WorldStepOk(own, s, Exec(own, s, e))
  {
    if e.ForeignPost? {
      if e.did != own { ForeignPostKeeps(own, s.w, e.actor, e.room, e.did, e.nonce, e.text, e.signature); }
    } else if e.OtherSign? || e.DieAfterNonce? {
      SignKeeps(own, s.w, Exec(own, s, e).w, e.q);
    } else {
      SameLogsKeep(own, s.w, Exec(own, s, e).w);
    }
  }

  lemma {:induction false} AdvanceKeepsSenders(own: string, s: State, id: nat, w': World, mine': Sender)
    requires Inv(own, s) && id in s.senders && StepOk(own, s.w, s.senders[id], w', mine')
    ensures forall i :: i in s.senders && i != id ==> SenderOk(own, w', s.senders[i])
  {
    forall i | i in s.senders && i != id ensures SenderOk(own, w', s.senders[i]) {
      assert SenderOk(own, s.w, s.senders[i]);
      SenderStays(own, s.w, w', s.senders[i]);
    }
  }

  lemma {:induction false} AdvanceKeepsDistinct(own: string, s: State, id: nat, w': World, mine': Sender)
    requires Inv(own, s) && id in s.senders && StepOk(own, s.w, s.senders[id], w', mine')
    requires mine'.request == s.senders[id].request
    ensures SendersDistinct(s.senders[id := mine'])
  {
    forall i | i in s.senders && i != id && s.senders[i].at.Signed? && mine'.at.Signed?
               && s.senders[i].request.room == mine'.request.room
      ensures s.senders[i].at.nonce != mine'.at.nonce
    {
      assert SenderOk(own, s.w, s.senders[i]);
    }
  }

  lemma {:induction false} AdvanceKeeps(own: string, s: State, id: nat)
    requires Inv(own, s) && id in s.senders
    ensures Inv(own, Exec(own, s, Advance(id))) && Grows(s.w, Exec(own, s, Advance(id)).w)
  {
    var (w', mine') := Step(own, s.w, s.senders[id]);
    assert SenderOk(own, s.w, s.senders[id]);
    StepKeeps(own, s.w, s.senders[id]);
    AdvanceKeepsSenders(own, s, id, w', mine');
    AdvanceKeepsDistinct(own, s, id, w', mine');
  }

  lemma {:induction false} SendersOutlastWorld(own: string, s: State, s': State)
    requires Inv(own, s) && WorldStepOk(own, s, s')
    ensures Inv(own, s')
  {
    forall i | i in s'.senders ensures SenderOk(own, s'.w, s'.senders[i]) {
      assert SenderOk(own, s.w, s.senders[i]);
      SenderStays(own, s.w, s'.w, s.senders[i]);
    }
  }

  lemma {:induction false} EventKeeps(own: string, s: State, e: Event)
    requires Inv(own, s)
    ensures Inv(own, Exec(own, s, e)) && Grows(s.w, Exec(own, s, e).w)
  {
    if e.Advance? {
      if e.id in s.senders { AdvanceKeeps(own, s, e.id); }
    } else if !e.Begin? && !e.Die? {
      WorldEventKeeps(own, s, e);
      SendersOutlastWorld(own, s, Exec(own, s, e));
    }
  }

  lemma {:induction false} RunKeeps(own: string, s: State, es: seq<Event>)
    requires Initial(own, s)
    ensures Inv(own, Run(own, s, es))
  {
    if es == [] {
    } else {
      RunKeeps(own, s, es[..|es| - 1]);
      EventKeeps(own, Run(own, s, es[..|es| - 1]), es[|es| - 1]);
    }
  }

  // A later point of a run has grown from an earlier one.
  lemma {:induction false} RunGrows(own: string, s: State, es: seq<Event>, n: nat)
    requires Initial(own, s) && n <= |es|
    ensures Grows(Run(own, s, es[..n]).w, Run(own, s, es).w)
    decreases |es|
  {
    if n == |es| {
      assert es[..n] == es;
    } else {
      var before := es[..|es| - 1];
      assert before[..n] == es[..n];
      RunKeeps(own, s, before);
      RunGrows(own, s, before, n);
      EventKeeps(own, Run(own, s, before), es[|es| - 1]);
    }
  }

  // ---- what callers rely on ----

  lemma {:induction false} RowHasOneRecord(own: string, w: World, key: string, x: Record, y: Record)
    requires WorldOk(own, w) && key in w.rows
    requires x in Log(w.remote, w.rows[key].room) && y in Log(w.remote, w.rows[key].room)
    requires x.did == own && x.nonce == w.rows[key].nonce && y.did == own && y.nonce == w.rows[key].nonce
    ensures x == y && Carries(x, w.rows[key])
    ensures w.rows[key].status.Confirmed? ==> w.rows[key].sequence == Some(x.sequence)
  {
    var row := w.rows[key];
    LogsMakeRemote(w.remote);
    var log := Log(w.remote, row.room);
    OneRecordPerNonce(log, row.room, w.remote.nextSequence, x, y);
    assert HasRow(w, x);
    var k :| k in w.rows && Carries(x, w.rows[k]);
    assert GoodLog(log, row.room, w.remote.nextSequence);
    assert x.room == row.room;
    assert k == key;
    assert RowOk(own, w, row);
    if row.status.Confirmed? {
      var z :| Landed(w, row, z) && z.sequence == row.sequence.value;
      OneRecordPerNonce(log, row.room, w.remote.nextSequence, x, z);
    }
  }

  // In every reachable state the log holds at most one record for a row, and that record
  // carries the persisted bytes; a confirmed row names it by its sequence.
  lemma {:induction false} AtMostOnce(own: string, s: State, es: seq<Event>, key: string, x: Record, y: Record)
    requires Initial(own, s)
    requires var w := Run(own, s, es).w;
             && key in w.rows && x in Log(w.remote, w.rows[key].room) && y in Log(w.remote, w.rows[key].room)
             && x.did == own && x.nonce == w.rows[key].nonce && y.did == own && y.nonce == w.rows[key].nonce
    ensures x == y && Carries(x, Run(own, s, es).w.rows[key])
    ensures var row := Run(own, s, es).w.rows[key]; row.status.Confirmed? ==> row.sequence == Some(x.sequence)
  {
    RunKeeps(own, s, es);
    RowHasOneRecord(own, Run(own, s, es).w, key, x, y);
  }

  // Own records and landed rows answer to each other one to one: a record has exactly one
  // key, and (AtMostOnce) a key at most one record.
  lemma {:induction false} EveryOwnRecordHasOneKey(own: string, s: State, es: seq<Event>, room: string, x: Record)
    requires Initial(own, s)
    requires x in Log(Run(own, s, es).w.remote, room) && x.did == own
    ensures var rows := Run(own, s, es).w.rows;
            exists k :: k in rows && Carries(x, rows[k]) && forall j :: j in rows && Carries(x, rows[j]) ==> j == k
  {
    RunKeeps(own, s, es);
    var w := Run(own, s, es).w;
    assert HasRow(w, x);
    var k :| k in w.rows && Carries(x, w.rows[k]);
    forall j | j in w.rows && Carries(x, w.rows[j]) ensures j == k { }
  }

  // No sender's post is ever answered by a replay conflict or a bad signature, and no send
  // ever ends in a duplicate, an invalid post or a confirmed row without a sequence.
  lemma {:induction false} NoReplayConflict(own: string, s: State, es: seq<Event>, id: nat)
    requires Initial(own, s) && id in Run(own, s, es).senders
    ensures var now := Run(own, s, es);
            var p := now.senders[id];
            && (p.at.Sending? ==>
                  !PostSigned(now.w.remote, p.request.actor, p.request.room, p.at.row.did, p.at.row.nonce,
                              p.at.row.text, p.at.row.signature).1.InvalidRequest?)
            && (p.at.Finished? && p.at.outcome.Failed? ==> !Impossible(p.at.outcome.error))
  {
    RunKeeps(own, s, es);
    var now := Run(own, s, es);
    var p := now.senders[id];
    assert SenderOk(own, now.w, p);
    if p.at.Sending? { PostOfHeldRow(own, now.w, p.request, p.at.row); }
  }

  // All successful sends of one key, however far apart and through whatever deaths, return
  // the same record, and it carries the text each of them asked for.
  lemma {:induction false} SameRecordForOneKey(own: string, s: State, es: seq<Event>, n: nat, i: nat, j: nat)
    requires Initial(own, s) && n <= |es|
    requires var early, late := Run(own, s, es[..n]), Run(own, s, es);
             && i in early.senders && j in late.senders
             && early.senders[i].at.Finished? && early.senders[i].at.outcome.Delivered?
             && late.senders[j].at.Finished? && late.senders[j].at.outcome.Delivered?
             && early.senders[i].request.key == late.senders[j].request.key
    ensures var p, q := Run(own, s, es[..n]).senders[i], Run(own, s, es).senders[j];
            && p.at.outcome.record == q.at.outcome.record
            && p.request == q.request
            && p.at.outcome.record.text == p.request.text && p.at.outcome.record.room == p.request.room
  {
    var early, late := Run(own, s, es[..n]), Run(own, s, es);
    var p, q := early.senders[i], late.senders[j];
    var key := p.request.key;
    RunKeeps(own, s, es[..n]);
    RunKeeps(own, s, es);
    RunGrows(own, s, es, n);
    assert SenderOk(own, early.w, p) && SenderOk(own, late.w, q);
    LandedStays(early.w, late.w, early.w.rows[key], p.at.outcome.record);
    var row := late.w.rows[key];
    LogsMakeRemote(late.w.remote);
    OneRecordPerNonce(Log(late.w.remote, row.room), row.room, late.w.remote.nextSequence,
                      p.at.outcome.record, q.at.outcome.record);
  }

  // ---- one call as a run ----

  function Advances(id: nat, n: nat): seq<Event> {
    seq(n, _ => Advance(id))
  }

  lemma {:induction false} SoloLast(own: string, w: World, s: Sender, n: nat)
    ensures Solo(own, w, s, n + 1) == Step(own, Solo(own, w, s, n).0, Solo(own, w, s, n).1)
    decreases n
  {
    if n == 0 {
    } else {
      var (w', s') := Step(own, w, s);
      SoloLast(own, w', s', n - 1);
    }
  }

  lemma {:induction false} AdvanceAlone(own: string, w: World, s: Sender)
    ensures Exec(own, State(w, map[0 := s]), Advance(0)) == State(Step(own, w, s).0, map[0 := Step(own, w, s).1])
  {
    assert map[0 := s][0 := Step(own, w, s).1] == map[0 := Step(own, w, s).1];
  }

  lemma {:induction false} RunLast(own: string, s: State, es: seq<Event>, e: Event)
    ensures Run(own, s, es + [e]) == Exec(own, Run(own, s, es), e)
  {
    assert (es + [e])[..|es|] == es;
  }

  // The events of one call cut off after n steps.
  function CallOf(q: Request, n: nat): seq<Event> {
    [Begin(0, q)] + Advances(0, n)
  }

  lemma {:induction false} CallGrows(q: Request, n: nat)
    ensures CallOf(q, 0) == [] + [Begin(0, q)]
    ensures CallOf(q, n + 1) == CallOf(q, n) + [Advance(0)]
  {
  }

  lemma {:induction false} CallBegins(own: string, w: World, q: Request)
    ensures Run(own, State(w, map[]), CallOf(q, 0)) == State(w, map[0 := Sender(q, Starting)])
  {
    CallGrows(q, 0);
    RunLast(own, State(w, map[]), [], Begin(0, q));
  }

  lemma {:induction false} CallGoesOn(own: string, w: World, q: Request, n: nat, w': World, s': Sender)
    requires Run(own, State(w, map[]), CallOf(q, n)) == State(w', map[0 := s'])
    ensures Run(own, State(w, map[]), CallOf(q, n + 1)) == State(Step(own, w', s').0, map[0 := Step(own, w', s').1])
  {
    CallGrows(q, n);
    RunLast(own, State(w, map[]), CallOf(q, n), Advance(0));
    AdvanceAlone(own, w', s');
  }

  // One call cut off after n steps is the run that begins one sender and advances it n times,
  // so everything said of runs holds of calls.
  lemma {:induction false} CallIsRun(own: string, w: World, q: Request, n: nat)
    ensures var (w', s') := Solo(own, w, Sender(q, Starting), n);
            Run(own, State(w, map[]), CallOf(q, n)) == State(w', map[0 := s'])
    decreases n
  {
    if n == 0 {
      CallBegins(own, w, q);
    } else {
      var (w', s') := Solo(own, w, Sender(q, Starting), n - 1);
      CallIsRun(own, w, q, n - 1);
      CallGoesOn(own, w, q, n - 1, w', s');
      SoloLast(own, w, Sender(q, Starting), n - 1);
    }
  }
}
