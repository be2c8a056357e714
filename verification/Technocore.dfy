// The remote log (src/rosetta/local_protocol.py): signed records per room, bounded reads,
// one-shot faults, and the (did, nonce) replay check.
module Technocore {
  import opened Wrappers
  import opened Canonical
  import opened Signer

  datatype Record = Record(sequence: nat, room: string, did: string, nonce: int, text: string, signature: Signature)

  // What a post ends in: a record, or one of the exceptions a caller can see.
  datatype PostResult =
    | Posted(record: Record)
    | RateLimited(retryAfter: nat)
    | UncertainWrite
    | Refusal(status: nat)
    | InvalidRequest(reason: string)

  type FaultKeys = set<(string, string)>

  datatype Remote = Remote(
    rooms: map<string, seq<Record>>,
    nextSequence: nat,
    rateLimitOnce: FaultKeys,
    uncertainOnce: FaultKeys,
    rateLimitConsumed: FaultKeys,
    uncertainConsumed: FaultKeys)

  const FRESH: Remote := Remote(map[], 1, {}, {}, {}, {})

  function Log(t: Remote, room: string): seq<Record> {
    if room in t.rooms then t.rooms[room] else []
  }

  function Newer(log: seq<Record>, since: int): (r: seq<Record>) {
    if log == [] then []
    else Newer(log[..|log| - 1], since) + (if log[|log| - 1].sequence > since then [log[|log| - 1]] else [])
  }

  function Take<T>(s: seq<T>, n: nat): (r: seq<T>)
    ensures |r| <= n && r <= s
  {
    if |s| <= n then s else s[..n]
  }

  function ReadRoom(t: Remote, room: string, since: int, limit: nat): seq<Record> {
    Take(Newer(Log(t, room), since), limit)
  }

  function LastSequence(log: seq<Record>): nat {
    if log == [] then 0
    else
      var before := LastSequence(log[..|log| - 1]);
      if log[|log| - 1].sequence > before then log[|log| - 1].sequence else before
  }

  // The first record a log holds from one signer under one nonce.
  function Find(log: seq<Record>, did: string, nonce: int): (r: Option<Record>)
    ensures r.Some? ==> r.value in log && r.value.did == did && r.value.nonce == nonce
    ensures r.None? ==> forall x :: x in log ==> !(x.did == did && x.nonce == nonce)
  {
    if log == [] then None
    else if log[0].did == did && log[0].nonce == nonce then Some(log[0])
    else Find(log[1..], did, nonce)
  }

  // post_signed: a one-shot 429 comes before anything else; a one-shot lost connection
  // comes after the record is committed.
  function PostSigned(t: Remote, actor: string, room: string, did: string, nonce: int, text: string,
                      signature: Signature): (Remote, PostResult)
  {
    if (actor, room) in t.rateLimitOnce && (actor, room) !in t.rateLimitConsumed then
      (t.(rateLimitConsumed := t.rateLimitConsumed + {(actor, room)}), RateLimited(1))
    else match RoomPayload(room, nonce, text)
      case Err(e) => (t, InvalidRequest(e))
      case Ok(payload) =>
        if !VerifySignature(did, payload, signature) then (t, InvalidRequest("invalid signature"))
        else
          var log := Log(t, room);
          match Find(log, did, nonce)
          case Some(prior) =>
            (t.(rooms := t.rooms[room := log]),
             if prior.text == text && prior.signature == signature then Posted(prior)
             else InvalidRequest("nonce replay conflict"))
          case None =>
            var record := Record(t.nextSequence, room, did, nonce, text, signature);
            var stored := t.(rooms := t.rooms[room := log + [record]], nextSequence := t.nextSequence + 1);
            if (actor, room) in t.uncertainOnce && (actor, room) !in t.uncertainConsumed then
              (stored.(uncertainConsumed := t.uncertainConsumed + {(actor, room)}), UncertainWrite)
            else (stored, Posted(record))
  }

  class LocalTechnocore {
    var rooms: map<string, seq<Record>>
    var nextSequence: nat
    var rateLimitOnce: FaultKeys
    var uncertainOnce: FaultKeys
    var rateLimitConsumed: FaultKeys
    var uncertainConsumed: FaultKeys

    constructor ()
      ensures State() == FRESH
    {
      rooms := map[];
      nextSequence := 1;
      rateLimitOnce, uncertainOnce, rateLimitConsumed, uncertainConsumed := {}, {}, {}, {};
    }

    function State(): Remote
      reads this
    {
      Remote(rooms, nextSequence, rateLimitOnce, uncertainOnce, rateLimitConsumed, uncertainConsumed)
    }

    method InjectRateLimitOnce(actor: string, room: string)
      modifies this`rateLimitOnce
      ensures rateLimitOnce == old(rateLimitOnce) + {(actor, room)}
    {
      rateLimitOnce := rateLimitOnce + {(actor, room)};
    }

    method InjectUncertainWriteOnce(actor: string, room: string)
      modifies this`uncertainOnce
      ensures uncertainOnce == old(uncertainOnce) + {(actor, room)}
    {
      uncertainOnce := uncertainOnce + {(actor, room)};
    }

    method CreateRoom(room: string) returns (r: Result<(), string>)
      modifies this`rooms
      ensures r.Ok? <==> 0 < |room| <= 64
      ensures rooms == if r.Ok? then old(rooms)[room := Log(old(State()), room)] else old(rooms)
    {
      if room == "" || |room| > 64 {
        return Err("invalid room");
      }
      if room !in rooms {
        rooms := rooms[room := []];
      } else {
        assert rooms[room := rooms[room]] == rooms;
      }
      r := Ok(());
    }

    method Read(room: string, since: int, limit: nat) returns (r: Result<seq<Record>, string>)
      ensures if 1 <= limit <= 100 then r == Ok(ReadRoom(State(), room, since, limit)) else r.Err?
    {
      if limit < 1 || limit > 100 {
        return Err("limit outside bounded range");
      }
      var records := if room in rooms then rooms[room] else [];
      var newer := [];
      for i := 0 to |records|
        invariant newer == Newer(records[..i], since)
      {
        assert records[..i + 1][..i] == records[..i];
        if records[i].sequence > since {
          newer := newer + [records[i]];
        }
      }
      assert records[..|records|] == records;
      r := Ok(Take(newer, limit));
    }

    method RoomLastSequence(room: string) returns (last: nat)
      ensures last == LastSequence(Log(State(), room))
    {
      var records := if room in rooms then rooms[room] else [];
      last := 0;
      for i := 0 to |records|
        invariant last == LastSequence(records[..i])
      {
        assert records[..i + 1][..i] == records[..i];
        if records[i].sequence > last {
          last := records[i].sequence;
        }
      }
      assert records[..|records|] == records;
    }

    method Post(actor: string, room: string, did: string, nonce: int, text: string, signature: Signature)
      returns (r: PostResult)
      modifies this
      ensures (State(), r) == PostSigned(old(State()), actor, room, did, nonce, text, signature)
    {
      if (actor, room) in rateLimitOnce && (actor, room) !in rateLimitConsumed {
        rateLimitConsumed := rateLimitConsumed + {(actor, room)};
        return RateLimited(1);
      }
      var payload := RoomPayload(room, nonce, text);
      if payload.Err? {
        return InvalidRequest(payload.error);
      }
      if !VerifySignature(did, payload.value, signature) {
        return InvalidRequest("invalid signature");
      }
      var records := if room in rooms then rooms[room] else [];
      rooms := rooms[room := records];
      for i := 0 to |records|
        invariant Find(records[i..], did, nonce) == Find(records, did, nonce)
      {
        assert records[i..][0] == records[i] && records[i..][1..] == records[i + 1..];
        var existing := records[i];
        if existing.did == did && existing.nonce == nonce {
          if existing.text == text && existing.signature == signature {
            return Posted(existing);
          }
          return InvalidRequest("nonce replay conflict");
        }
      }
      assert records[|records|..] == [];
      var record := Record(nextSequence, room, did, nonce, text, signature);
      nextSequence := nextSequence + 1;
      rooms := rooms[room := records + [record]];
      assert rooms == old(rooms)[room := records + [record]];
      if (actor, room) in uncertainOnce && (actor, room) !in uncertainConsumed {
        uncertainConsumed := uncertainConsumed + {(actor, room)};
        return UncertainWrite;
      }
      r := Posted(record);
    }
  }

  // ---- what every remote keeps ----

  predicate Rising(log: seq<Record>) {
    forall i, j :: 0 <= i < j < |log| ==> log[i].sequence < log[j].sequence
  }

  // A record as the log accepts it: filed under its room, with a signature that verifies.
  predicate GoodRecord(x: Record, room: string, bound: nat) {
    && 0 < x.sequence < bound && x.room == room
    && RoomPayload(room, x.nonce, x.text) == Ok(x.signature.payload)
    && x.signature.did == x.did
  }

  ghost predicate GoodLog(log: seq<Record>, room: string, bound: nat) {
    && (forall i :: 0 <= i < |log| ==> GoodRecord(log[i], room, bound))
    && Rising(log)
    && (forall i, j :: 0 <= i < j < |log| ==> !(log[i].did == log[j].did && log[i].nonce == log[j].nonce))
  }

  ghost predicate GoodRemote(t: Remote) {
    && t.nextSequence > 0
    && forall room :: room in t.rooms ==> GoodLog(t.rooms[room], room, t.nextSequence)
  }

  // Nothing a log once held is ever dropped, moved or rewritten.
  ghost predicate LogsGrow(t: Remote, t': Remote) {
    forall room :: Log(t, room) <= Log(t', room)
  }

  lemma {:induction false} AppendKeepsLog(log: seq<Record>, room: string, bound: nat, x: Record)
    requires GoodLog(log, room, bound) && GoodRecord(x, room, bound + 1) && x.sequence == bound
    requires Find(log, x.did, x.nonce).None?
    ensures GoodLog(log + [x], room, bound + 1)
  {
  }

  lemma {:induction false} GrownBoundKeepsLog(log: seq<Record>, room: string, bound: nat)
    requires GoodLog(log, room, bound)
    ensures GoodLog(log, room, bound + 1)
  {
    forall i | 0 <= i < |log| ensures GoodRecord(log[i], room, bound + 1) {
      assert GoodRecord(log[i], room, bound);
    }
  }

  // How a post changes the logs: not at all, or by one accepted record at the end of its room.
  lemma {:induction false} PostAppends(t: Remote, actor: string, room: string, did: string, nonce: int, text: string,
                                       signature: Signature)
    ensures var t' := PostSigned(t, actor, room, did, nonce, text, signature).0;
            var x := Record(t.nextSequence, room, did, nonce, text, signature);
            || (t'.nextSequence == t.nextSequence && forall r :: Log(t', r) == Log(t, r))
            || (&& t'.nextSequence == t.nextSequence + 1 && Log(t', room) == Log(t, room) + [x]
                && (forall r :: r != room ==> Log(t', r) == Log(t, r))
                && Find(Log(t, room), did, nonce).None?
                && RoomPayload(room, nonce, text) == Ok(signature.payload) && signature.did == did)
  {
  }

  lemma {:induction false} LogsMakeRemote(t: Remote)
    requires t.nextSequence > 0
    ensures GoodRemote(t) <==> forall room :: GoodLog(Log(t, room), room, t.nextSequence)
  {
    if GoodRemote(t) {
      forall room ensures GoodLog(Log(t, room), room, t.nextSequence) { }
    }
    if forall room :: GoodLog(Log(t, room), room, t.nextSequence) {
      forall room | room in t.rooms ensures GoodLog(t.rooms[room], room, t.nextSequence) {
        assert Log(t, room) == t.rooms[room];
      }
    }
  }

  // The signature covers these bytes.
  predicate WellSigned(room: string, did: string, nonce: int, text: string, signature: Signature) {
    RoomPayload(room, nonce, text) == Ok(signature.payload) && signature.did == did
  }

  predicate Waiting(once: FaultKeys, consumed: FaultKeys, actor: string, room: string) {
    (actor, room) in once && (actor, room) !in consumed
  }

  ghost predicate SameLogs(t: Remote, t': Remote) {
    t'.nextSequence == t.nextSequence && forall room :: Log(t', room) == Log(t, room)
  }

  lemma {:induction false} FoundIsTheOne(log: seq<Record>, room: string, bound: nat, x: Record)
    requires GoodLog(log, room, bound) && x in log
    ensures Find(log, x.did, x.nonce) == Some(x)
  {
    var y := Find(log, x.did, x.nonce);
    assert y.Some? && y.value in log;
    var i :| 0 <= i < |log| && log[i] == x;
    var j :| 0 <= j < |log| && log[j] == y.value;
  }

  // Under a nonce that was used, a well-signed post is answered with the record that used it exactly
  // if it has that record's text and signature, and refused otherwise; the logs stay as they were, and
  // no fault is spent.
  lemma {:induction false} UsedNonceAnswered(t: Remote, actor: string, room: string, x: Record, text: string,
                                             signature: Signature)
    requires GoodRemote(t) && x in Log(t, room) && WellSigned(room, x.did, x.nonce, text, signature)
    requires !Waiting(t.rateLimitOnce, t.rateLimitConsumed, actor, room)
    ensures var (t', r) := PostSigned(t, actor, room, x.did, x.nonce, text, signature);
            && (text == x.text && signature == x.signature ==> r == Posted(x))
            && (text != x.text || signature != x.signature ==> r.InvalidRequest?)
            && SameLogs(t, t') && t'.rateLimitConsumed == t.rateLimitConsumed
            && t'.uncertainConsumed == t.uncertainConsumed
  {
    LogsMakeRemote(t);
    FoundIsTheOne(Log(t, room), room, t.nextSequence, x);
  }

  // A fresh nonce adds one record; its reply is lost exactly if such a fault waits, which is then spent.
  lemma {:induction false} FreshNonceAnswered(t: Remote, actor: string, room: string, did: string, nonce: int,
                                              text: string, signature: Signature)
    requires WellSigned(room, did, nonce, text, signature)
    requires forall x :: x in Log(t, room) ==> !(x.did == did && x.nonce == nonce)
    requires !Waiting(t.rateLimitOnce, t.rateLimitConsumed, actor, room)
    ensures var (t', r) := PostSigned(t, actor, room, did, nonce, text, signature);
            var x := Record(t.nextSequence, room, did, nonce, text, signature);
            && Log(t', room) == Log(t, room) + [x]
            && (forall other :: other != room ==> Log(t', other) == Log(t, other))
            && (if Waiting(t.uncertainOnce, t.uncertainConsumed, actor, room)
                then r == UncertainWrite && t'.uncertainConsumed == t.uncertainConsumed + {(actor, room)}
                else r == Posted(x) && t'.uncertainConsumed == t.uncertainConsumed)
  {
  }

  // A waiting 429 comes before everything and is spent; a post that is not well signed is refused; the
  // logs stay as they were in both cases.
  lemma {:induction false} OtherPostsAnswered(t: Remote, actor: string, room: string, did: string, nonce: int,
                                              text: string, signature: Signature)
    requires Waiting(t.rateLimitOnce, t.rateLimitConsumed, actor, room)
             || !WellSigned(room, did, nonce, text, signature)
    ensures var (t', r) := PostSigned(t, actor, room, did, nonce, text, signature);
            && SameLogs(t, t') && t'.uncertainConsumed == t.uncertainConsumed
            && (if Waiting(t.rateLimitOnce, t.rateLimitConsumed, actor, room)
                then r == RateLimited(1) && t'.rateLimitConsumed == t.rateLimitConsumed + {(actor, room)}
                else r.InvalidRequest? && t' == t)
  {
  }

  // So whatever is answered as posted is what was posted, and is in the log.
  lemma {:induction false} PostedIsAsked(t: Remote, actor: string, room: string, did: string, nonce: int,
                                         text: string, signature: Signature)
    requires GoodRemote(t)
    ensures var (t', r) := PostSigned(t, actor, room, did, nonce, text, signature);
            r.Posted? ==>
              r.record == Record(r.record.sequence, room, did, nonce, text, signature) && r.record in Log(t', room)
  {
    if !Waiting(t.rateLimitOnce, t.rateLimitConsumed, actor, room) && WellSigned(room, did, nonce, text, signature) {
      if x :| x in Log(t, room) && x.did == did && x.nonce == nonce {
        UsedNonceAnswered(t, actor, room, x, text, signature);
        LogsMakeRemote(t);
        assert GoodLog(Log(t, room), room, t.nextSequence);
      } else {
        FreshNonceAnswered(t, actor, room, did, nonce, text, signature);
      }
    } else {
      OtherPostsAnswered(t, actor, room, did, nonce, text, signature);
    }
  }

  lemma {:induction false} PostKeepsRemote(t: Remote, actor: string, room: string, did: string, nonce: int,
                                           text: string, signature: Signature)
    requires GoodRemote(t)
    ensures var t' := PostSigned(t, actor, room, did, nonce, text, signature).0; GoodRemote(t') && LogsGrow(t, t')
  {
    var t' := PostSigned(t, actor, room, did, nonce, text, signature).0;
    var x := Record(t.nextSequence, room, did, nonce, text, signature);
    PostAppends(t, actor, room, did, nonce, text, signature);
    LogsMakeRemote(t);
    forall r ensures GoodLog(Log(t', r), r, t'.nextSequence) {
      if t'.nextSequence == t.nextSequence + 1 {
        GrownBoundKeepsLog(Log(t, r), r, t.nextSequence);
        if r == room { AppendKeepsLog(Log(t, room), room, t.nextSequence, x); }
      }
    }
    LogsMakeRemote(t');
  }

  // A record is the only one in its log under its signer and nonce.
  lemma {:induction false} OneRecordPerNonce(log: seq<Record>, room: string, bound: nat, x: Record, y: Record)
    requires GoodLog(log, room, bound) && x in log && y in log
    requires x.did == y.did && x.nonce == y.nonce
    ensures x == y
  {
    var i :| 0 <= i < |log| && log[i] == x;
    var j :| 0 <= j < |log| && log[j] == y;
    assert i == j;
  }

  // ---- bounded reads of a good log ----

  // In a log with rising sequences the newer records are a suffix.
  lemma {:induction false} NewerIsSuffix(log: seq<Record>, n: nat, since: int)
    requires Rising(log) && n <= |log|
    requires n > 0 ==> log[n - 1].sequence <= since
    requires n < |log| ==> since < log[n].sequence
    ensures Newer(log, since) == log[n..]
    decreases |log|
  {
    if n == |log| {
      NoneNewer(log, since);
      assert log[n..] == [];
    } else {
      var front, last := log[..|log| - 1], log[|log| - 1];
      assert Rising(front);
      assert since < last.sequence;
      if n < |front| {
        assert since < front[n].sequence;
      }
      NewerIsSuffix(front, n, since);
      assert Newer(log, since) == front[n..] + [last];
      SuffixGrows(log, n);
    }
  }

  lemma {:induction false} SuffixGrows(log: seq<Record>, n: nat)
    requires n < |log|
    ensures log[n..] == log[..|log| - 1][n..] + [log[|log| - 1]]
  {
  }

  lemma {:induction false} NoneNewer(log: seq<Record>, since: int)
    requires Rising(log) && (log != [] ==> log[|log| - 1].sequence <= since)
    ensures Newer(log, since) == []
  {
    if log == [] {
    } else {
      if |log| > 1 { assert log[|log| - 2].sequence < log[|log| - 1].sequence; }
      NoneNewer(log[..|log| - 1], since);
    }
  }

  lemma {:induction false} LastOfRising(log: seq<Record>)
    requires Rising(log)
    ensures LastSequence(log) == if log == [] then 0 else log[|log| - 1].sequence
  {
    if log == [] {
    } else {
      var front := log[..|log| - 1];
      LastOfRising(front);
      if front != [] { assert log[|front| - 1].sequence < log[|front|].sequence; }
    }
  }

  // Rising sequences leave no room for more than last - since records above since.
  lemma {:induction false} AtMostTheGap(log: seq<Record>, since: nat)
    requires Rising(log)
    ensures |Newer(log, since)| <= if LastSequence(log) > since then LastSequence(log) - since else 0
  {
    if log == [] {
    } else {
      var front := log[..|log| - 1];
      AtMostTheGap(front, since);
      LastOfRising(front);
      LastOfRising(log);
      if front != [] { assert log[|front| - 1].sequence < log[|front|].sequence; }
    }
  }
}
