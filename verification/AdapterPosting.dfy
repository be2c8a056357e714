// A fixture adapter's post (src/rosetta/adapters.py:83-138): one signature, at most two tries, and
// a read of the room when the reply was lost.
module AdapterPosting {
  import opened Wrappers
  import opened Canonical
  import opened Signer
  import opened Technocore

  datatype PostError = SignerFailed(reason: string) | StillLimited(seconds: nat) | Uncertain | Rejected(reason: string)

  datatype Sent = Sent(signer: SignerState, remote: Remote, result: Result<Record, PostError>)

  // The records of one signer under one nonce.
  function Own(records: seq<Record>, did: string, nonce: int): seq<Record> {
    if records == [] then []
    else
      var last := records[|records| - 1];
      Own(records[..|records| - 1], did, nonce) + if last.did == did && last.nonce == nonce then [last] else []
  }

  function Settled(t: Remote, room: string, did: string, nonce: int): Result<Record, PostError> {
    var matches := Own(ReadRoom(t, room, 0, 100), did, nonce);
    if |matches| != 1 then Err(Uncertain) else Ok(matches[0])
  }

  // The attempts from the given one on.
  function Tried(t: Remote, actor: string, room: string, did: string, nonce: int, text: string, signature: Signature,
                 attempt: nat): (Remote, Result<Record, PostError>)
    decreases 2 - attempt
  {
    var (t', r) := PostSigned(t, actor, room, did, nonce, text, signature);
    match r
    case Posted(record) => (t', Ok(record))
    case RateLimited(seconds) =>
      if seconds > 2 || attempt >= 2 then (t', Err(StillLimited(seconds)))
      else Tried(t', actor, room, did, nonce, text, signature, attempt + 1)
    case UncertainWrite => (t', Settled(t', room, did, nonce))
    case Refusal(_) => (t', Err(Rejected("refused")))
    case InvalidRequest(reason) => (t', Err(Rejected(reason)))
  }

  function AdapterPost(own: string, s: SignerState, t: Remote, id: string, scope: string, room: string,
                       text: string): Sent {
    var (s', r) := Handled(own, s, MessageRequest(scope, room, text));
    match r
    case Err(e) => Sent(s', t, Err(SignerFailed(e)))
    case Ok(a) =>
      if a.nonce.None? then Sent(s', t, Err(SignerFailed("message signature did not include nonce")))
      else
        var (t', result) := Tried(t, id, room, a.did, a.nonce.value, text, a.signature, 1);
        Sent(s', t', result)
  }

  // ---- what a post does, whatever faults wait ----

  // No own record of a room has a nonce its lane has not reached.
  ghost predicate LaneCovers(own: string, s: SignerState, t: Remote, room: string) {
    forall x :: x in Log(t, room) && x.did == own ==> x.nonce <= Lane(s.lanes, "message:" + room)
  }

  // A signature over a nonce that no record of its signer has.
  ghost predicate Fresh(t: Remote, room: string, did: string, nonce: int, text: string, signature: Signature) {
    && RoomPayload(room, nonce, text) == Ok(signature.payload) && signature.did == did
    && Find(Log(t, room), did, nonce).None?
  }

  lemma {:induction false} NoneOwn(records: seq<Record>, did: string, nonce: int)
    requires forall x :: x in records ==> !(x.did == did && x.nonce == nonce)
    ensures Own(records, did, nonce) == []
  {
    if records == [] {
    } else {
      assert records[|records| - 1] in records;
      NoneOwn(records[..|records| - 1], did, nonce);
    }
  }

  lemma {:induction false} WholeRoom(log: seq<Record>, room: string, bound: nat)
    requires GoodLog(log, room, bound)
    ensures Newer(log, 0) == log
  {
    if log != [] { assert GoodRecord(log[0], room, bound); }
    NewerIsSuffix(log, 0, 0);
    assert log[0..] == log;
  }

  // After a lost reply the record is found exactly if the room still fits in one read.
  lemma {:induction false} SettledFinds(t: Remote, room: string, log: seq<Record>, x: Record)
    requires GoodRemote(t) && Log(t, room) == log + [x]
    ensures Settled(t, room, x.did, x.nonce) == if |log| < 100 then Ok(x) else Err(Uncertain)
  {
    LogsMakeRemote(t);
    assert GoodLog(log + [x], room, t.nextSequence);
    WholeRoom(log + [x], room, t.nextSequence);
    forall y | y in log ensures !(y.did == x.did && y.nonce == x.nonce) {
      var i :| 0 <= i < |log| && log[i] == y;
      assert (log + [x])[i] == y && (log + [x])[|log|] == x;
    }
    NoneOwn(log, x.did, x.nonce);
    if |log| < 100 {
      assert (log + [x])[..|log|] == log;
    } else {
      assert (log + [x])[..100] == log[..100];
      NoneOwn(log[..100], x.did, x.nonce);
    }
  }

  lemma {:induction false} FreshPost(t: Remote, id: string, room: string, did: string, nonce: int, text: string,
                                     signature: Signature)
    requires Fresh(t, room, did, nonce, text, signature) && !Waiting(t.rateLimitOnce, t.rateLimitConsumed, id, room)
    ensures var (t', r) := PostSigned(t, id, room, did, nonce, text, signature);
            var x := Record(t.nextSequence, room, did, nonce, text, signature);
            && Log(t', room) == Log(t, room) + [x]
            && (forall other :: other != room ==> Log(t', other) == Log(t, other))
            && r == if Waiting(t.uncertainOnce, t.uncertainConsumed, id, room) then UncertainWrite else Posted(x)
  {
  }

  // What a fresh signature's post comes to when no 429 waits.
  ghost predicate Lands(t: Remote, t': Remote, r: Result<Record, PostError>, id: string, room: string, x: Record) {
    && GoodRemote(t') && Log(t', room) == Log(t, room) + [x]
    && (forall other :: other != room ==> Log(t', other) == Log(t, other))
    && r == if Waiting(t.uncertainOnce, t.uncertainConsumed, id, room) && |Log(t, room)| >= 100 then Err(Uncertain)
       else Ok(x)
  }

  lemma {:induction false} TriedOnce(t: Remote, id: string, room: string, did: string, nonce: int, text: string,
                                     signature: Signature, attempt: nat)
    ensures var (t', r) := PostSigned(t, id, room, did, nonce, text, signature);
            && (r.Posted? ==> Tried(t, id, room, did, nonce, text, signature, attempt) == (t', Ok(r.record)))
            && (r.UncertainWrite? ==>
                  Tried(t, id, room, did, nonce, text, signature, attempt) == (t', Settled(t', room, did, nonce)))
  {
  }

  // One try of a fresh signature with no 429 waiting appends its record and returns it, unless its
  // reply is lost in a room of a hundred records or more.
  lemma {:induction false} FreshTry(t: Remote, id: string, room: string, did: string, nonce: int, text: string,
                                    signature: Signature, attempt: nat)
    requires GoodRemote(t) && Fresh(t, room, did, nonce, text, signature)
    requires !Waiting(t.rateLimitOnce, t.rateLimitConsumed, id, room)
    ensures var (t', r) := Tried(t, id, room, did, nonce, text, signature, attempt);
            Lands(t, t', r, id, room, Record(t.nextSequence, room, did, nonce, text, signature))
  {
    var x := Record(t.nextSequence, room, did, nonce, text, signature);
    var t' := PostSigned(t, id, room, did, nonce, text, signature).0;
    PostKeepsRemote(t, id, room, did, nonce, text, signature);
    FreshPost(t, id, room, did, nonce, text, signature);
    TriedOnce(t, id, room, did, nonce, text, signature, attempt);
    SettledFinds(t', room, Log(t, room), x);
  }

  lemma {:induction false} SignedIsFresh(own: string, s: SignerState, t: Remote, scope: string, room: string,
                                         text: string)
    requires LaneCovers(own, s, t, room)
    ensures var (s', r) := Handled(own, s, MessageRequest(scope, room, text));
            r.Ok? ==>
              && r.value.nonce.Some? && r.value.did == own
              && Fresh(t, room, own, r.value.nonce.value, text, r.value.signature)
              && Lane(s'.lanes, "message:" + room) == r.value.nonce.value > Lane(s.lanes, "message:" + room)
  {
    FieldsArePresent(MessageRequest(scope, room, text));
  }

  lemma {:induction false} RefusedKeepsCover(own: string, s: SignerState, t: Remote, scope: string, room: string,
                                             text: string)
    requires LaneCovers(own, s, t, room)
    ensures LaneCovers(own, Handled(own, s, MessageRequest(scope, room, text)).0, t, room)
  {
    LanesOnlyRise(s.lanes, MessageRequest(scope, room, text), "message:" + room);
  }

  // Both tries of a fresh signature: a waiting 429 only costs the first.
  lemma {:induction false} FreshTries(t: Remote, id: string, room: string, did: string, nonce: int, text: string,
                                      signature: Signature)
    requires GoodRemote(t) && Fresh(t, room, did, nonce, text, signature)
    ensures var (t', r) := Tried(t, id, room, did, nonce, text, signature, 1);
            Lands(t, t', r, id, room, Record(t.nextSequence, room, did, nonce, text, signature))
  {
    if Waiting(t.rateLimitOnce, t.rateLimitConsumed, id, room) {
      var t1 := t.(rateLimitConsumed := t.rateLimitConsumed + {(id, room)});
      assert PostSigned(t, id, room, did, nonce, text, signature) == (t1, RateLimited(1));
      FreshTry(t1, id, room, did, nonce, text, signature, 2);
    } else {
      FreshTry(t, id, room, did, nonce, text, signature, 1);
    }
  }

  // A post whose signature is fresh lands as one record, and the lane still covers the log.
  lemma {:induction false} SignedPostLands(own: string, s: SignerState, t: Remote, id: string, scope: string,
                                           room: string, text: string)
    requires GoodRemote(t) && LaneCovers(own, s, t, room) && Handled(own, s, MessageRequest(scope, room, text)).1.Ok?
    ensures var sent, a := AdapterPost(own, s, t, id, scope, room, text),
            Handled(own, s, MessageRequest(scope, room, text)).1.value;
            && a.nonce.Some? && LaneCovers(own, sent.signer, sent.remote, room)
            && Lands(t, sent.remote, sent.result, id, room,
                     Record(t.nextSequence, room, own, a.nonce.value, text, a.signature))
  {
    SignedIsFresh(own, s, t, scope, room, text);
    RefusedKeepsCover(own, s, t, scope, room, text);
    var a := Handled(own, s, MessageRequest(scope, room, text)).1.value;
    FreshTries(t, id, room, own, a.nonce.value, text, a.signature);
  }

  // Every signed post appends exactly one record, whatever one-shot faults wait; the adapter returns
  // that record exactly unless the reply was lost in a room of a hundred records or more; and a post
  // the signer refuses leaves the log alone.
  lemma {:induction false} OnePostOneRecord(own: string, s: SignerState, t: Remote, id: string, scope: string,
                                            room: string, text: string)
    requires GoodRemote(t) && LaneCovers(own, s, t, room)
    ensures var sent := AdapterPost(own, s, t, id, scope, room, text);
            && GoodRemote(sent.remote) && LaneCovers(own, sent.signer, sent.remote, room)
            && (forall other :: other != room ==> Log(sent.remote, other) == Log(t, other))
            && match Handled(own, s, MessageRequest(scope, room, text)).1
               case Err(e) => sent.remote == t && sent.result == Err(SignerFailed(e))
               case Ok(a) =>
                 a.nonce.Some?
                 && var x := Record(t.nextSequence, room, own, a.nonce.value, text, a.signature);
                    && Log(sent.remote, room) == Log(t, room) + [x]
                    && sent.result
                       == if Waiting(t.uncertainOnce, t.uncertainConsumed, id, room) && |Log(t, room)| >= 100
                          then Err(Uncertain) else Ok(x)
  {
    if Handled(own, s, MessageRequest(scope, room, text)).1.Ok? {
      SignedPostLands(own, s, t, id, scope, room, text);
    } else {
      RefusedKeepsCover(own, s, t, scope, room, text);
    }
  }
}
