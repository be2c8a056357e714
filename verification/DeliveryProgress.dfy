// When a send gets through: exactly when, on a quiet network, one call delivers, and that
// the next call always does.
module DeliveryProgress {
  import opened Wrappers
  import opened Canonical
  import opened Signer
  import opened Technocore
  import opened DeliveryProtocol
  import opened DeliverySafety

  predicate Pending(once: FaultKeys, consumed: FaultKeys, q: Request) {
    Waiting(once, consumed, q.actor, q.room)
  }

  predicate IsLanded(w: World, row: Row) {
    Find(Log(w.remote, row.room), row.did, row.nonce).Some?
  }

  // A caller's request as the world can serve it: an open gate, a quiet network, and either
  // the same request as before or a new one the signer can sign.
  predicate Servable(w: World, q: Request) {
    && w.gateOpen && w.network == []
    && (if q.key in w.rows then
          w.rows[q.key].actor == q.actor && w.rows[q.key].room == q.room && w.rows[q.key].text == q.text
        else
          SingleField(q.room) && SweepText(q.text, 4096).Ok? && RoomLane(w, q.room) < MAX_SQL_INTEGER)
  }

  // The reply to a row's first landing will be lost, in a room whose first hundred records do
  // not reach the new one.
  predicate LostBeyondReach(w: World, q: Request, landed: bool) {
    !landed && Pending(w.remote.uncertainOnce, w.remote.uncertainConsumed, q) && |Log(w.remote, q.room)| >= 100
  }

  // The one way a servable send fails.
  predicate Loses(w: World, q: Request) {
    LostBeyondReach(w, q, q.key in w.rows && (w.rows[q.key].status.Confirmed? || IsLanded(w, w.rows[q.key])))
  }

  predicate DeliversWithin(own: string, w: World, s: Sender, n: nat) {
    var end := Solo(own, w, s, n).1;
    end.at.Finished? && end.at.outcome.Delivered?
  }

  lemma {:induction false} SoloStep(own: string, w: World, s: Sender, n: nat)
    requires n > 0
    ensures Solo(own, w, s, n) == Solo(own, Step(own, w, s).0, Step(own, w, s).1, n - 1)
  {
  }

  lemma {:induction false} SoloKeeps(own: string, w: World, s: Sender, n: nat)
    requires WorldOk(own, w) && SenderOk(own, w, s)
    ensures WorldOk(own, Solo(own, w, s, n).0) && SenderOk(own, Solo(own, w, s, n).0, Solo(own, w, s, n).1)
    ensures Grows(w, Solo(own, w, s, n).0)
    decreases n
  {
    if n == 0 {
    } else {
      var (w', s') := Step(own, w, s);
      StepKeeps(own, w, s);
      SoloKeeps(own, w', s', n - 1);
      GrowsTransitive(w, w', Solo(own, w, s, n).0);
    }
  }

  lemma {:induction false} SoloFrame(own: string, w: World, s: Sender, n: nat)
    requires w.network == []
    ensures Solo(own, w, s, n).0.network == [] && Solo(own, w, s, n).0.gateOpen == w.gateOpen
    decreases n
  {
    if n == 0 {
    } else {
      var (w', s') := Step(own, w, s);
      SoloFrame(own, w', s', n - 1);
    }
  }

  lemma {:induction false} ConfirmingEnds(own: string, w: World, s: Sender, n: nat)
    requires s.at.Confirming? && s.request.key in w.rows && n >= 1
    ensures DeliversWithin(own, w, s, n)
  {
    SoloStep(own, w, s, n);
    FinishedStays(own, Step(own, w, s).0, Step(own, w, s).1, n - 1);
  }

  lemma {:induction false} ConfirmingDelivers(own: string, w: World, s: Sender, n: nat)
    requires WorldOk(own, w) && SenderOk(own, w, s) && s.at.Confirming? && n >= 1
    ensures DeliversWithin(own, w, s, n)
  {
    ConfirmingEnds(own, w, s, n);
  }

  lemma {:induction false} WholeRead(t: Remote, room: string)
    requires GoodRemote(t)
    ensures var log := Log(t, room); ReadRoom(t, room, 0, 100) == log[..if |log| <= 100 then |log| else 100]
  {
    ReadsAreLogged(t, room, 100);
    var log := Log(t, room);
    LogsMakeRemote(t);
    assert GoodLog(log, room, t.nextSequence);
    if log != [] { assert GoodRecord(log[0], room, t.nextSequence); }
    NewerIsSuffix(log, 0, 0);
    assert log[0..] == log;
  }

  // Reading the whole of a short room finds the record; a long room hides it.
  lemma {:induction false} ReconcileFinds(t: Remote, row: Row, x: Record)
    requires GoodRemote(t) && Carries(x, row)
    requires var log := Log(t, row.room); log != [] && log[|log| - 1] == x
    ensures if |Log(t, row.room)| <= 100 then Reconciled(t, row).Confirming?
            else Reconciled(t, row) == Finished(Failed(NotFoundUpstream))
  {
    var log := Log(t, row.room);
    WholeRead(t, row.room);
    LogsMakeRemote(t);
    if |log| <= 100 {
      assert log[..|log|] == log;
      MatchesDistinct(log, |log|, row, row.room, t.nextSequence);
      assert x in log;
      assert x in Matches(log, row);
    } else {
      LastIsAlone(log, |log| - 1, row.room, t.nextSequence);
      assert log[..100] <= log[..|log| - 1];
      FirstIsMember(Matches(log[..100], row));
    }
  }

  predicate EndsAs(own: string, w: World, s: Sender, n: nat, lost: bool) {
    var end := Solo(own, w, s, n).1.at;
    if lost then end == Finished(Failed(NotFoundUpstream)) else DeliversWithin(own, w, s, n)
  }

  lemma {:induction false} ReconciledEnds(own: string, w: World, s: Sender, n: nat, x: Record, row: Row)
    requires WorldOk(own, w) && SenderOk(own, w, s) && s.at == Reconciled(w.remote, row) && n >= 1 && Carries(x, row)
    requires var log := Log(w.remote, row.room); log != [] && log[|log| - 1] == x
    ensures EndsAs(own, w, s, n, |Log(w.remote, row.room)| > 100)
  {
    ReconcileFinds(w.remote, row, x);
    if s.at.Confirming? { ConfirmingDelivers(own, w, s, n); } else { FinishedStays(own, w, s, n); }
  }

  lemma {:induction false} FromReconciling(own: string, w: World, s: Sender, n: nat, x: Record)
    requires WorldOk(own, w) && SenderOk(own, w, s) && s.at.Reconciling? && n >= 2 && Carries(x, s.at.row)
    requires var log := Log(w.remote, s.at.row.room); log != [] && log[|log| - 1] == x
    ensures EndsAs(own, w, s, n, |Log(w.remote, s.at.row.room)| > 100)
  {
    var s' := s.(at := Reconciled(w.remote, s.at.row));
    assert Step(own, w, s) == (w, s');
    SoloStep(own, w, s, n);
    ReconcilingStep(own, w, s);
    ReconciledEnds(own, w, s', n - 1, x, s.at.row);
  }

  // What a post of a held row does when no 429 waits and the network passes it.
  // On a quiet network a step of sending is the post itself.
  lemma {:induction false} QuietPost(own: string, w: World, s: Sender)
    requires s.at.Sending? && w.network == []
    ensures var q, row := s.request, s.at.row;
            var (t', result) := PostSigned(w.remote, q.actor, q.room, row.did, row.nonce, row.text, row.signature);
            Step(own, w, s) == (w.(remote := t'), s.(at := Answered(row, s.at.attempt, result)))
  {
  }

  lemma {:induction false} PassedPost(own: string, w: World, s: Sender)
    requires WorldOk(own, w) && SenderOk(own, w, s) && s.at.Sending? && w.network == []
    requires !Pending(w.remote.rateLimitOnce, w.remote.rateLimitConsumed, s.request)
    ensures var (w', s') := Step(own, w, s);
            var row, log := s.at.row, Log(w.remote, s.at.row.room);
            var x := Record(w.remote.nextSequence, row.room, row.did, row.nonce, row.text, row.signature);
            if !IsLanded(w, row) && Pending(w.remote.uncertainOnce, w.remote.uncertainConsumed, s.request) then
              s'.at == Reconciling(row) && Log(w'.remote, row.room) == log + [x]
            else s'.at.Confirming? && s'.at.row == row && Landed(w', row, s'.at.record)
  {
    var row := s.at.row;
    QuietPost(own, w, s);
    PostOfHeldRow(own, w, s.request, row);
    assert RowOk(own, w, w.rows[s.request.key]);
  }

  lemma {:induction false} LandedIsFound(w: World, row: Row, x: Record)
    requires Landed(w, row, x)
    ensures IsLanded(w, row)
  {
  }

  lemma {:induction false} FromPost(own: string, w: World, s: Sender, n: nat)
    requires WorldOk(own, w) && SenderOk(own, w, s) && s.at.Sending? && w.network == [] && n >= 3
    requires !Pending(w.remote.rateLimitOnce, w.remote.rateLimitConsumed, s.request)
    ensures EndsAs(own, w, s, n, LostBeyondReach(w, s.request, IsLanded(w, s.at.row)))
    ensures IsLanded(Solo(own, w, s, n).0, s.at.row)
  {
    var row := s.at.row;
    var (w', s') := Step(own, w, s);
    SoloStep(own, w, s, n);
    StepKeeps(own, w, s);
    PassedPost(own, w, s);
    SoloKeeps(own, w', s', n - 1);
    var end := Solo(own, w', s', n - 1).0;
    if s'.at.Confirming? {
      ConfirmingDelivers(own, w', s', n - 1);
      LandedStays(w', end, row, s'.at.record);
      LandedIsFound(end, row, s'.at.record);
    } else {
      var log := Log(w'.remote, row.room);
      var x := log[|log| - 1];
      FromReconciling(own, w', s', n - 1, x);
      LandedStays(w', end, row, x);
      LandedIsFound(end, row, x);
    }
  }

  lemma {:induction false} FromSending(own: string, w: World, s: Sender, n: nat)
    requires WorldOk(own, w) && SenderOk(own, w, s) && s.at.Sending? && s.at.attempt == 0 && w.network == [] && n >= 4
    ensures EndsAs(own, w, s, n, LostBeyondReach(w, s.request, IsLanded(w, s.at.row)))
    ensures IsLanded(Solo(own, w, s, n).0, s.at.row)
  {
    if Pending(w.remote.rateLimitOnce, w.remote.rateLimitConsumed, s.request) {
      var (w', s') := Step(own, w, s);
      SoloStep(own, w, s, n);
      StepKeeps(own, w, s);
      FromPost(own, w', s', n - 1);
    } else {
      FromPost(own, w, s, n);
    }
  }

  lemma {:induction false} SigningSucceeds(own: string, w: World, s: Sender)
    requires WorldOk(own, w) && s.at.Signing? && s.request.key !in w.rows && Servable(w, s.request)
    ensures var (w', s') := Step(own, w, s);
            s'.at.Signed? && w' == w.(signer := w'.signer)
  {
    FieldsArePresent(MessageRequest(s.request.actor, s.request.room, s.request.text));
  }

  lemma {:induction false} UnusedNonceNotLanded(own: string, w: World, room: string, nonce: nat)
    requires WorldOk(own, w) && NonceUnused(w, room, nonce)
    ensures Find(Log(w.remote, room), own, nonce).None?
  {
    LogsMakeRemote(w.remote);
    assert GoodLog(Log(w.remote, room), room, w.remote.nextSequence);
    forall x | x in Log(w.remote, room) && x.did == own ensures x.nonce != nonce {
      assert HasRow(w, x);
      var i :| 0 <= i < |Log(w.remote, room)| && Log(w.remote, room)[i] == x;
      assert GoodRecord(Log(w.remote, room)[i], room, w.remote.nextSequence);
    }
  }

  // The request has its row, and that row is in the log or was once.
  ghost predicate Served(w: World, q: Request) {
    && q.key in w.rows && Holds(w, q, w.rows[q.key])
    && (w.rows[q.key].status.Confirmed? || IsLanded(w, w.rows[q.key]))
  }

  lemma {:induction false} HeldSendEnds(own: string, w: World, s: Sender, n: nat)
    requires WorldOk(own, w) && SenderOk(own, w, s) && s.at.Sending? && s.at.attempt == 0 && w.network == [] && n >= 4
    ensures EndsAs(own, w, s, n, LostBeyondReach(w, s.request, IsLanded(w, s.at.row)))
    ensures Served(Solo(own, w, s, n).0, s.request)
  {
    FromSending(own, w, s, n);
    SoloKeeps(own, w, s, n);
    var w' := Solo(own, w, s, n).0;
    var key := s.request.key;
    assert RowKept(w.rows[key], w'.rows[key]);
    assert SameBytes(s.at.row, w'.rows[key]);
  }

  lemma {:induction false} SignedSendEnds(own: string, w: World, s: Sender, n: nat)
    requires WorldOk(own, w) && SenderOk(own, w, s) && s.at.Signed? && s.request.key !in w.rows && w.network == []
             && n >= 5
    ensures EndsAs(own, w, s, n, LostBeyondReach(w, s.request, false))
    ensures Served(Solo(own, w, s, n).0, s.request)
  {
    UnusedNonceNotLanded(own, w, s.request.room, s.at.nonce);
    var (w', s') := Step(own, w, s);
    SoloStep(own, w, s, n);
    PreparingStep(own, w, s);
    HeldSendEnds(own, w', s', n - 1);
  }

  lemma {:induction false} FreshSendEnds(own: string, w: World, s: Sender, n: nat)
    requires WorldOk(own, w) && s.at.Signing? && s.request.key !in w.rows && Servable(w, s.request) && n >= 6
    ensures EndsAs(own, w, s, n, LostBeyondReach(w, s.request, false))
    ensures Served(Solo(own, w, s, n).0, s.request)
  {
    SigningSucceeds(own, w, s);
    var (w', s') := Step(own, w, s);
    SoloStep(own, w, s, n);
    SigningStep(own, w, s);
    SignedSendEnds(own, w', s', n - 1);
  }

  lemma {:induction false} ServedIsServable(w: World, q: Request)
    requires Served(w, q) && w.gateOpen && w.network == []
    ensures Servable(w, q) && !Loses(w, q)
  {
  }

  lemma {:induction false} StartedSendEnds(own: string, w: World, q: Request, s: Sender, n: nat)
    requires WorldOk(own, w) && Servable(w, q) && n >= 6
    requires s == Sender(q, Looked(w, q)) && SenderOk(own, w, s)
    ensures EndsAs(own, w, s, n, Loses(w, q))
    ensures Served(Solo(own, w, s, n).0, q)
  {
    if q.key !in w.rows {
      FreshSendEnds(own, w, s, n);
    } else if w.rows[q.key].status.Prepared? {
      HeldSendEnds(own, w, s, n);
    } else {
      assert RowOk(own, w, w.rows[q.key]);
      FinishedStays(own, w, s, n);
    }
  }

  // How a servable send ends: it delivers, or its first landing's reply is lost beyond reach.
  // Either way the row is there and landed, and the same request stays servable.
  lemma {:induction false} SendEnds(own: string, w: World, q: Request, n: nat)
    requires WorldOk(own, w) && Servable(w, q) && n >= 7
    ensures EndsAs(own, w, Sender(q, Starting), n, Loses(w, q))
    ensures var w' := Solo(own, w, Sender(q, Starting), n).0;
            WorldOk(own, w') && Servable(w', q) && !Loses(w', q)
  {
    var s := Sender(q, Starting);
    SoloStep(own, w, s, n);
    LookedOk(own, w, s);
    SoloFrame(own, w, s, n);
    SoloKeeps(own, w, s, n);
    StartedSendEnds(own, w, q, Sender(q, Looked(w, q)), n - 1);
    ServedIsServable(Solo(own, w, s, n).0, q);
  }

  // A servable send, run to its end, delivers exactly unless the guard above holds.
  lemma {:induction false} SendDelivers(own: string, w: World, q: Request, n: nat)
    requires WorldOk(own, w) && Servable(w, q) && n >= 7
    ensures DeliversWithin(own, w, Sender(q, Starting), n) <==> !Loses(w, q)
  {
    SendEnds(own, w, q, n);
  }

  // Once a servable send has run to its end, whatever that was, the next one delivers.
  lemma {:induction false} SecondSendDelivers(own: string, w: World, q: Request, n: nat, m: nat)
    requires WorldOk(own, w) && Servable(w, q) && n >= 7 && m >= 7
    ensures DeliversWithin(own, Solo(own, w, Sender(q, Starting), n).0, Sender(q, Starting), m)
  {
    SendEnds(own, w, q, n);
    SendEnds(own, Solo(own, w, Sender(q, Starting), n).0, q, m);
  }
}
