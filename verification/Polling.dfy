// Cursors over a growing log: the engagement poll of one room (src/rosetta/pilot.py:880-926)
// and the adapter's reads with checkpoints (src/rosetta/adapters.py:71-81, 140-153).
module Polling {
  import opened Wrappers
  import opened Technocore
  import opened Signer
  import opened Engagement
  import R = Requests
  import A = AdapterPosting

  // A cursor stands at position n of a log: n records are at or below it, the rest above.
  predicate At(log: seq<Record>, n: nat, cursor: int) {
    && n <= |log|
    && (n > 0 ==> log[n - 1].sequence <= cursor)
    && (n < |log| ==> cursor < log[n].sequence)
  }

  // A bounded read from a position gives the next records, up to the limit.
  lemma {:induction false} BoundedRead(log: seq<Record>, n: nat, cursor: int, limit: nat)
    requires Rising(log) && At(log, n, cursor)
    ensures Take(Newer(log, cursor), limit) == log[n..if n + limit < |log| then n + limit else |log|]
  {
    NewerIsSuffix(log, n, cursor);
    if n + limit < |log| { SliceAt(log, n, limit); }
  }

  // ---- the engagement poll ----

  datatype Checkpoint = Checkpoint(sequence: nat, generation: nat)

  datatype Settings = Settings(maxPerDay: nat, cooldownHours: nat)

  // `sent` counts the replies newly reserved and sent.
  datatype Poll = Poll(tables: Tables, checkpoint: Checkpoint, handled: seq<Record>, sent: nat, completed: bool)

  // Records in order: answer the opportunities, then move the checkpoint past the record. A
  // send that raises leaves the checkpoint before its record.
  function Handled(t: Tables, c: Checkpoint, xs: seq<Record>, room: string, now: int, s: Settings,
                   opportunity: Record -> bool, sends: Record -> bool): Poll
    decreases |xs|
  {
    if xs == [] then Poll(t, c, [], 0, true)
    else
      var x := xs[0];
      var (t', d) := ReserveReply(t, ReplyKey(room, c.generation, x.sequence), x.did, now, s.maxPerDay,
                                  s.cooldownHours);
      if opportunity(x) && (d.Reserved? || d.Existing?) && !sends(x) then Poll(t', c, [], 0, false)
      else
        var rest := Handled(if opportunity(x) then t' else t, c.(sequence := x.sequence), xs[1..], room, now, s,
                            opportunity, sends);
        rest.(handled := [x] + rest.handled, sent := rest.sent + if opportunity(x) && d.Reserved? then 1 else 0)
  }

  predicate StartsOver(log: seq<Record>, c: Checkpoint, generation: nat) {
    generation != c.generation || LastSequence(log) - c.sequence > 100
  }

  // A recreated room or a backlog over a hundred sequences is skipped; otherwise the batch of
  // at most a hundred newer records is handled.
  function PolledRoom(t: Tables, c: Checkpoint, log: seq<Record>, generation: nat, room: string, now: int, s: Settings,
                      opportunity: Record -> bool, sends: Record -> bool): Poll
  {
    if StartsOver(log, c, generation) then Poll(t, Checkpoint(LastSequence(log), generation), [], 0, true)
    else Handled(t, c, Take(Newer(log, c.sequence), 100), room, now, s, opportunity, sends)
  }

  // The records up to the one whose send raised, whose reservation is kept.
  ghost predicate TakesPrefix(p: Poll, c: Checkpoint, xs: seq<Record>, room: string, opportunity: Record -> bool) {
    && p.handled <= xs && p.checkpoint.generation == c.generation
    && (p.completed <==> |p.handled| == |xs|)
    && p.checkpoint.sequence == (if p.handled == [] then c.sequence else xs[|p.handled| - 1].sequence)
    && (!p.completed ==>
          var x := xs[|p.handled|];
          var k := ReplyKey(room, c.generation, x.sequence);
          opportunity(x) && k in p.tables.replies && p.tables.replies[k].author == x.did)
  }

  lemma {:induction false} HandledIsPrefix(t: Tables, c: Checkpoint, xs: seq<Record>, room: string, now: int,
                                           s: Settings, opportunity: Record -> bool, sends: Record -> bool)
    ensures TakesPrefix(Handled(t, c, xs, room, now, s, opportunity, sends), c, xs, room, opportunity)
    decreases |xs|
  {
    if xs == [] {
    } else {
      var x := xs[0];
      var (t', d) := ReserveReply(t, ReplyKey(room, c.generation, x.sequence), x.did, now, s.maxPerDay,
                                  s.cooldownHours);
      if !(opportunity(x) && (d.Reserved? || d.Existing?) && !sends(x)) {
        HandledIsPrefix(if opportunity(x) then t' else t, c.(sequence := x.sequence), xs[1..], room, now, s,
                        opportunity, sends);
      }
    }
  }

  // A completed batch has sent as many replies as the table has gained.
  lemma {:induction false} SentAreReserved(t: Tables, c: Checkpoint, xs: seq<Record>, room: string, now: int,
                                           s: Settings, opportunity: Record -> bool, sends: Record -> bool)
    ensures var p := Handled(t, c, xs, room, now, s, opportunity, sends);
            p.completed ==> |p.tables.replies| == |t.replies| + p.sent
    decreases |xs|
  {
    if xs == [] {
    } else {
      var x := xs[0];
      var t' := ReserveReply(t, ReplyKey(room, c.generation, x.sequence), x.did, now, s.maxPerDay, s.cooldownHours).0;
      SentAreReserved(if opportunity(x) then t' else t, c.(sequence := x.sequence), xs[1..], room, now, s, opportunity,
                      sends);
    }
  }

  // A batch of a hundred holds every newer record when the sequences span at most a hundred.
  lemma {:induction false} BatchIsWhole(log: seq<Record>, n: nat, cursor: nat)
    requires Rising(log) && At(log, n, cursor) && LastSequence(log) - cursor <= 100
    ensures Take(Newer(log, cursor), 100) == log[n..]
  {
    AtMostTheGap(log, cursor);
    NewerIsSuffix(log, n, cursor);
  }

  lemma {:induction false} PrefixPosition(log: seq<Record>, n: nat, cursor: nat, k: nat)
    requires Rising(log) && At(log, n, cursor) && n + k <= |log|
    ensures log[n..][..k] == log[n..n + k]
    ensures At(log, n + k, if k == 0 then cursor else log[n + k - 1].sequence)
  {
    if 0 < k && n + k < |log| { assert log[n + k - 1].sequence < log[n + k].sequence; }
  }

  // What is handled is the log from position n on, without a gap, up to its end or to the record
  // whose send raised; the checkpoint stands right after it, and that record keeps its reservation.
  ghost predicate HandledFrom(p: Poll, log: seq<Record>, n: nat, generation: nat, room: string) {
    var m := n + |p.handled|;
    && m <= |log| && p.handled == log[n..m] && At(log, m, p.checkpoint.sequence)
    && (p.completed <==> m == |log|)
    && (!p.completed ==>
          var k := ReplyKey(room, generation, log[m].sequence);
          k in p.tables.replies && p.tables.replies[k].author == log[m].did)
  }

  lemma {:induction false} PrefixInLog(p: Poll, c: Checkpoint, log: seq<Record>, n: nat, room: string,
                                       opportunity: Record -> bool)
    requires Rising(log) && At(log, n, c.sequence) && TakesPrefix(p, c, log[n..], room, opportunity)
    ensures HandledFrom(p, log, n, c.generation, room)
  {
    PrefixPosition(log, n, c.sequence, |p.handled|);
    SliceAt(log, n, |p.handled|);
    if p.handled != [] { SliceAt(log, n, |p.handled| - 1); }
  }

  lemma {:induction false} BatchHandled(t: Tables, c: Checkpoint, log: seq<Record>, n: nat, room: string, now: int,
                                        s: Settings, opportunity: Record -> bool, sends: Record -> bool)
    requires Rising(log) && At(log, n, c.sequence)
    ensures HandledFrom(Handled(t, c, log[n..], room, now, s, opportunity, sends), log, n, c.generation, room)
  {
    HandledIsPrefix(t, c, log[n..], room, now, s, opportunity, sends);
    PrefixInLog(Handled(t, c, log[n..], room, now, s, opportunity, sends), c, log, n, room, opportunity);
  }

  // Of the same room with its newest record at most a hundred above the checkpoint, a poll takes
  // every newer record in one batch, and they are handled so.
  lemma {:induction false} PollHandlesEverything(t: Tables, c: Checkpoint, log: seq<Record>, n: nat, generation: nat,
                                                 room: string, now: int, s: Settings, opportunity: Record -> bool,
                                                 sends: Record -> bool)
    requires Rising(log) && At(log, n, c.sequence)
    requires generation == c.generation && (log != [] ==> log[|log| - 1].sequence <= c.sequence + 100)
    ensures HandledFrom(PolledRoom(t, c, log, generation, room, now, s, opportunity, sends), log, n, generation, room)
  {
    LastOfRising(log);
    BatchIsWhole(log, n, c.sequence);
    BatchHandled(t, c, log, n, room, now, s, opportunity, sends);
  }

  lemma {:induction false} SliceAt(log: seq<Record>, n: nat, k: nat)
    requires n + k <= |log|
    ensures log[n..][..k] == log[n..n + k] && (n + k < |log| ==> log[n..][k] == log[n + k])
  {
  }

  // A recreated room, or one whose newest record is more than a hundred above the checkpoint, has its
  // checkpoint put at the end of the log, and nothing is handled.
  lemma {:induction false} StartingOverSkips(t: Tables, c: Checkpoint, log: seq<Record>, generation: nat,
                                             room: string, now: int, s: Settings, opportunity: Record -> bool,
                                             sends: Record -> bool)
    requires Rising(log)
    requires generation != c.generation || (log != [] && log[|log| - 1].sequence > c.sequence + 100)
    ensures var p := PolledRoom(t, c, log, generation, room, now, s, opportunity, sends);
            p.handled == [] && p.tables == t && At(log, |log|, p.checkpoint.sequence)
              && p.checkpoint.generation == generation && p.completed && p.sent == 0
  {
    LastOfRising(log);
  }

  // A reply is free: fewer than the maximum since midnight, none to the author for seven days, none
  // in the room for the cooldown.
  ghost predicate ReplyFree(t: Tables, room: string, author: string, now: int, s: Settings) {
    && |set k | k in t.replies && t.replies[k].createdAt >= now - now % R.DAY| < s.maxPerDay
    && forall k :: k in t.replies ==>
         && (t.replies[k].author == author ==> t.replies[k].createdAt < now - 7 * R.DAY)
         && (k.room == room ==> t.replies[k].createdAt < now - s.cooldownHours * R.HOUR)
  }

  // The record's reservation is there or comes to be there.
  ghost predicate ToAnswer(t: Tables, room: string, generation: nat, x: Record, now: int, s: Settings) {
    var k := ReplyKey(room, generation, x.sequence);
    if k in t.replies then t.replies[k].author == x.did else ReplyFree(t, room, x.did, now, s)
  }

  // One record in a batch: passed over unless it is an opportunity to answer; its row is gained if
  // new, it is sent, and the checkpoint passes it exactly if the send goes through.
  ghost function OneHandled(t: Tables, c: Checkpoint, x: Record, room: string, now: int, s: Settings, asked: bool,
                            sent: bool): Poll
  {
    var k := ReplyKey(room, c.generation, x.sequence);
    var t' := if k in t.replies then t else t.(replies := t.replies[k := Reply(x.did, now)]);
    if !asked || !ToAnswer(t, room, c.generation, x, now, s) then Poll(t, c.(sequence := x.sequence), [x], 0, true)
    else if !sent then Poll(t', c, [], 0, false)
    else Poll(t', c.(sequence := x.sequence), [x], if k in t.replies then 0 else 1, true)
  }

  lemma {:induction false} ReserveExactly(t: Tables, k: ReplyKey, x: Record, now: int, s: Settings)
    requires k.generation >= 0 && k.sequence == x.sequence
    ensures var (t', d) := ReserveReply(t, k, x.did, now, s.maxPerDay, s.cooldownHours);
            && ((d.Reserved? || d.Existing?) <==> ToAnswer(t, k.room, k.generation, x, now, s))
            && (d.Reserved? <==> k !in t.replies && ReplyFree(t, k.room, x.did, now, s))
            && t' == if d.Reserved? then t.(replies := t.replies[k := Reply(x.did, now)]) else t
  {
    assert DayStart(now) == now - now % R.DAY;
    assert RepliesSince(t, DayStart(now)) == set j | j in t.replies && t.replies[j].createdAt >= now - now % R.DAY;
  }

  lemma {:induction false} OneHandledExactly(t: Tables, c: Checkpoint, x: Record, room: string, now: int, s: Settings,
                                             opportunity: Record -> bool, sends: Record -> bool)
    ensures Handled(t, c, [x], room, now, s, opportunity, sends)
         == OneHandled(t, c, x, room, now, s, opportunity(x), sends(x))
  {
    ReserveExactly(t, ReplyKey(room, c.generation, x.sequence), x, now, s);
  }

  // A poll that goes on with what another left.
  ghost function Joined(p: Poll, q: Poll): Poll {
    if p.completed then q.(handled := p.handled + q.handled, sent := p.sent + q.sent) else p
  }

  lemma {:induction false} FirstHandled(t: Tables, c: Checkpoint, xs: seq<Record>, room: string, now: int, s: Settings,
                                        opportunity: Record -> bool, sends: Record -> bool)
    requires xs != []
    ensures var p := OneHandled(t, c, xs[0], room, now, s, opportunity(xs[0]), sends(xs[0]));
            && (p.completed ==> p.handled == [xs[0]])
            && Handled(t, c, xs, room, now, s, opportunity, sends)
               == Joined(p, Handled(p.tables, p.checkpoint, xs[1..], room, now, s, opportunity, sends))
  {
    ReserveExactly(t, ReplyKey(room, c.generation, xs[0].sequence), xs[0], now, s);
  }

  lemma {:induction false} JoinedThrice(p: Poll, q: Poll, r: Poll)
    ensures Joined(p, Joined(q, r)) == Joined(Joined(p, q), r)
  {
  }

  // A batch is handled as its two parts one after the other, if the first goes through.
  lemma {:induction false} HandledInTwo(t: Tables, c: Checkpoint, xs: seq<Record>, ys: seq<Record>, room: string,
                                        now: int, s: Settings, opportunity: Record -> bool, sends: Record -> bool,
                                        p: Poll)
    requires p == Handled(t, c, xs, room, now, s, opportunity, sends)
    ensures Handled(t, c, xs + ys, room, now, s, opportunity, sends)
         == Joined(p, Handled(p.tables, p.checkpoint, ys, room, now, s, opportunity, sends))
    decreases |xs|
  {
    if xs == [] {
      assert xs + ys == ys;
    } else {
      var one := OneHandled(t, c, xs[0], room, now, s, opportunity(xs[0]), sends(xs[0]));
      var rest := Handled(one.tables, one.checkpoint, xs[1..], room, now, s, opportunity, sends);
      var more := Handled(p.tables, p.checkpoint, ys, room, now, s, opportunity, sends);
      FirstHandled(t, c, xs, room, now, s, opportunity, sends);
      FirstHandled(t, c, xs + ys, room, now, s, opportunity, sends);
      assert (xs + ys)[0] == xs[0] && (xs + ys)[1..] == xs[1..] + ys;
      HandledInTwo(one.tables, one.checkpoint, xs[1..], ys, room, now, s, opportunity, sends, rest);
      JoinedThrice(one, rest, more);
    }
  }

  // A new record of the same room, at most a hundred above the checkpoint, is polled so: an
  // opportunity with a free reply gains one row, is sent and reported as 1.
  lemma {:induction false} OneRecordPolled(t: Tables, c: Checkpoint, log: seq<Record>, room: string, now: int,
                                           s: Settings, opportunity: Record -> bool, sends: Record -> bool)
    requires Rising(log) && log != [] && At(log, |log| - 1, c.sequence)
    requires log[|log| - 1].sequence <= c.sequence + 100
    ensures var x := log[|log| - 1];
            var p := PolledRoom(t, c, log, c.generation, room, now, s, opportunity, sends);
            p == OneHandled(t, c, x, room, now, s, opportunity(x), sends(x))
  {
    LastOfRising(log);
    BatchIsWhole(log, |log| - 1, c.sequence);
    assert log[|log| - 1..] == [log[|log| - 1]];
    OneHandledExactly(t, c, log[|log| - 1], room, now, s, opportunity, sends);
  }

  // ---- the adapter ----

  type Cursors = map<string, nat>

  function CursorOf(cs: Cursors, room: string): nat {
    if room in cs then cs[room] else 0
  }

  datatype SavedAdapter = SavedAdapter(cursors: Cursors, confirmations: seq<string>)

  class FixtureAdapter {
    const id: string
    const target: LocalTechnocore
    const signer: SignerProtocol
    const scope: string
    var cursors: Cursors
    var confirmations: seq<string>

    constructor (id: string, target: LocalTechnocore, signer: SignerProtocol, scope: string)
      ensures this.id == id && this.target == target && this.signer == signer && this.scope == scope
      ensures cursors == map[] && confirmations == []
    {
      this.id, this.target, this.signer, this.scope := id, target, signer, scope;
      cursors, confirmations := map[], [];
    }

    method PostSigned(room: string, text: string) returns (r: Result<Record, A.PostError>)
      modifies target, signer.store
      ensures A.Sent(signer.State(), target.State(), r)
           == A.AdapterPost(signer.did, old(signer.State()), old(target.State()), id, scope, room, text)
    {
      var response := signer.Handle(MessageRequest(scope, room, text));
      if response.Err? { return Err(A.SignerFailed(response.error)); }
      if response.value.nonce.None? { return Err(A.SignerFailed("message signature did not include nonce")); }
      r := Attempt(room, text, response.value.did, response.value.nonce.value, response.value.signature);
    }

    // At most two tries.
    method Attempt(room: string, text: string, did: string, nonce: nat, signature: Signature)
      returns (r: Result<Record, A.PostError>)
      modifies target
      ensures (target.State(), r) == A.Tried(old(target.State()), id, room, did, nonce, text, signature, 1)
    {
      ghost var all := A.Tried(target.State(), id, room, did, nonce, text, signature, 1);
      var attempts := 0;
      while attempts < 2
        invariant attempts <= 1
        invariant A.Tried(target.State(), id, room, did, nonce, text, signature, attempts + 1) == all
        decreases 2 - attempts
      {
        attempts := attempts + 1;
        var posted := target.Post(id, room, did, nonce, text, signature);
        if posted.Posted? { return Ok(posted.record); }
        if posted.RateLimited? {
          if posted.retryAfter > 2 || attempts >= 2 { return Err(A.StillLimited(posted.retryAfter)); }
        } else if posted.UncertainWrite? {
          r := Settle(room, did, nonce);
          return;
        } else if posted.Refusal? {
          return Err(A.Rejected("refused"));
        } else {
          return Err(A.Rejected(posted.reason));
        }
      }
      assert false;
    }

    // The one record of this signature in the first hundred of the room, if the reply was lost.
    method Settle(room: string, did: string, nonce: nat) returns (r: Result<Record, A.PostError>)
      ensures r == A.Settled(target.State(), room, did, nonce)
    {
      var read := target.Read(room, 0, 100);
      var records := read.value;
      var matches := [];
      for i := 0 to |records|
        invariant matches == A.Own(records[..i], did, nonce)
      {
        assert records[..i + 1][..i] == records[..i];
        if records[i].did == did && records[i].nonce == nonce { matches := matches + [records[i]]; }
      }
      assert records[..|records|] == records;
      if |matches| != 1 { return Err(A.Uncertain); }
      return Ok(matches[0]);
    }

    method ReadRoom(room: string) returns (records: seq<Record>)
      modifies this`cursors
      ensures (cursors, records) == AdapterRead(target.State(), old(cursors), room)
    {
      var since := if room in cursors then cursors[room] else 0;
      var read := target.Read(room, since, 100);
      records := read.value;
      if records != [] {
        cursors := cursors[room := LastSequence(records)];
      }
    }

    method Save() returns (saved: SavedAdapter)
      ensures saved == SavedAdapter(cursors, confirmations)
    {
      saved := SavedAdapter(cursors, confirmations);
    }

    method Restore(saved: SavedAdapter)
      modifies this
      ensures cursors == saved.cursors && confirmations == saved.confirmations
    {
      cursors, confirmations := saved.cursors, saved.confirmations;
    }

    method ConfirmOnce(correlation: string) returns (first: bool)
      modifies this`confirmations
      ensures first <==> correlation !in old(confirmations)
      ensures confirmations == if first then old(confirmations) + [correlation] else old(confirmations)
    {
      if correlation in confirmations {
        return false;
      }
      confirmations := confirmations + [correlation];
      first := true;
    }
  }

  function AdapterRead(t: Remote, cs: Cursors, room: string): (Cursors, seq<Record>) {
    var records := ReadRoom(t, room, CursorOf(cs, room), 100);
    (if records == [] then cs else cs[room := LastSequence(records)], records)
  }

  // Everything an adapter has been handed, per room; a restored adapter is back at what it had
  // been handed when the checkpoint was taken.
  datatype Reader = Reader(cursors: Cursors, received: map<string, seq<Record>>)

  datatype ReaderState = ReaderState(remote: Remote, reader: Reader, saved: seq<Reader>)

  datatype ReaderEvent =
    | Post(actor: string, room: string, did: string, nonce: int, text: string, signature: Signature)
    | Read(room: string)
    | Save
    | RestoreTo(index: nat)

  function Received(r: Reader, room: string): seq<Record> {
    if room in r.received then r.received[room] else []
  }

  function ReaderStep(s: ReaderState, e: ReaderEvent): ReaderState {
    match e
    case Post(actor, room, did, nonce, text, signature) =>
      s.(remote := PostSigned(s.remote, actor, room, did, nonce, text, signature).0)
    case Read(room) =>
      var (cs, records) := AdapterRead(s.remote, s.reader.cursors, room);
      s.(reader := Reader(cs, s.reader.received[room := Received(s.reader, room) + records]))
    case Save => s.(saved := s.saved + [s.reader])
    case RestoreTo(index) => if index < |s.saved| then s.(reader := s.saved[index]) else s
  }

  function ReaderRun(s: ReaderState, es: seq<ReaderEvent>): ReaderState {
    if es == [] then s else ReaderStep(ReaderRun(s, es[..|es| - 1]), es[|es| - 1])
  }

  // What was received is a prefix of the log, and the cursor stands right after it.
  ghost predicate InOrder(t: Remote, r: Reader) {
    forall room :: Received(r, room) <= Log(t, room) && At(Log(t, room), |Received(r, room)|, CursorOf(r.cursors, room))
                   && CursorOf(r.cursors, room) == LastSequence(Received(r, room))
  }

  ghost predicate ReaderInv(s: ReaderState) {
    GoodRemote(s.remote) && InOrder(s.remote, s.reader) && forall i :: 0 <= i < |s.saved| ==>
        InOrder(s.remote, s.saved[i])
  }

  lemma {:induction false} GrowthKeepsOrder(t: Remote, t': Remote, r: Reader)
    requires GoodRemote(t) && GoodRemote(t') && LogsGrow(t, t') && InOrder(t, r)
    ensures InOrder(t', r)
  {
    LogsMakeRemote(t');
    forall room
      ensures Received(r, room) <= Log(t', room) && At(Log(t', room), |Received(r, room)|, CursorOf(r.cursors, room))
    {
      var log', n := Log(t', room), |Received(r, room)|;
      assert GoodLog(log', room, t'.nextSequence);
      LastOfRising(Received(r, room)) by { assert Rising(Received(r, room)); }
      assert Log(t, room) <= log';
      if n < |log'| { assert GoodRecord(log'[n], room, t'.nextSequence); }
      if 0 < n < |log'| { assert log'[n - 1].sequence < log'[n].sequence; }
    }
  }

  lemma {:induction false} LastOfSlice(log: seq<Record>, i: nat, m: nat)
    requires Rising(log) && i < m <= |log|
    ensures LastSequence(log[i..m]) == log[m - 1].sequence
  {
    assert Rising(log[i..m]);
    LastOfRising(log[i..m]);
  }

  function End(log: seq<Record>, n: nat): nat {
    if n + 100 < |log| then n + 100 else |log|
  }

  lemma {:induction false} NextRecords(log: seq<Record>, n: nat, cursor: nat)
    requires Rising(log) && At(log, n, cursor) && cursor == LastSequence(log[..n])
    ensures Take(Newer(log, cursor), 100) == log[n..End(log, n)]
    ensures var cursor' := if n == End(log, n) then cursor else LastSequence(log[n..End(log, n)]);
            At(log, End(log, n), cursor') && cursor' == LastSequence(log[..End(log, n)])
  {
    var m := End(log, n);
    BoundedRead(log, n, cursor, 100);
    PrefixPosition(log, n, cursor, m - n);
    if n < m {
      LastOfSlice(log, n, m);
      LastOfSlice(log, 0, m);
      assert log[0..m] == log[..m];
    }
  }

  lemma {:induction false} ReadOfRoom(t: Remote, cs: Cursors, room: string, n: nat)
    requires Rising(Log(t, room)) && At(Log(t, room), n, CursorOf(cs, room))
    requires CursorOf(cs, room) == LastSequence(Log(t, room)[..n])
    ensures var log, (cs', records) := Log(t, room), AdapterRead(t, cs, room);
            var m := End(log, n);
            && records == log[n..m]
            && At(log, m, CursorOf(cs', room)) && CursorOf(cs', room) == LastSequence(log[..m])
            && forall other :: other != room ==> CursorOf(cs', other) == CursorOf(cs, other)
  {
    NextRecords(Log(t, room), n, CursorOf(cs, room));
  }

  lemma {:induction false} GoodIsRising(t: Remote, room: string)
    requires GoodRemote(t)
    ensures Rising(Log(t, room))
  {
    LogsMakeRemote(t);
    assert GoodLog(Log(t, room), room, t.nextSequence);
  }

  lemma {:induction false} ReadKeepsOrder(t: Remote, r: Reader, room: string)
    requires Rising(Log(t, room)) && InOrder(t, r)
    ensures var (cs, records) := AdapterRead(t, r.cursors, room);
            && InOrder(t, Reader(cs, r.received[room := Received(r, room) + records]))
            && records == Log(t, room)[|Received(r, room)|..End(Log(t, room), |Received(r, room)|)]
  {
    var n := |Received(r, room)|;
    PrefixIsSlice(Received(r, room), Log(t, room));
    ReadOfRoom(t, r.cursors, room, n);
    var (cs, records) := AdapterRead(t, r.cursors, room);
    ReaderMoved(t, r, room, cs, n, End(Log(t, room), n));
  }

  lemma {:induction false} PrefixIsSlice(got: seq<Record>, log: seq<Record>)
    requires got <= log
    ensures got == log[..|got|]
  {
  }

  lemma {:induction false} ReaderMoved(t: Remote, r: Reader, room: string, cs: Cursors, n: nat, m: nat)
    requires InOrder(t, r) && n <= m <= |Log(t, room)| && Received(r, room) == Log(t, room)[..n]
    requires At(Log(t, room), m, CursorOf(cs, room)) && CursorOf(cs, room) == LastSequence(Log(t, room)[..m])
    requires forall other :: other != room ==> CursorOf(cs, other) == CursorOf(r.cursors, other)
    ensures InOrder(t, Reader(cs, r.received[room := Received(r, room) + Log(t, room)[n..m]]))
  {
    var r' := Reader(cs, r.received[room := Received(r, room) + Log(t, room)[n..m]]);
    assert Log(t, room)[..n] + Log(t, room)[n..m] == Log(t, room)[..m];
    OneRoomRead(t, r, r', room);
  }

  lemma {:induction false} OneRoomRead(t: Remote, r: Reader, r': Reader, room: string)
    requires InOrder(t, r)
    requires forall other :: other != room ==>
               Received(r', other) == Received(r, other) && CursorOf(r'.cursors, other) == CursorOf(r.cursors, other)
    requires Received(r', room) <= Log(t, room) && At(Log(t, room), |Received(r', room)|, CursorOf(r'.cursors, room))
    requires CursorOf(r'.cursors, room) == LastSequence(Received(r', room))
    ensures InOrder(t, r')
  {
  }

  lemma {:induction false} ReaderStepKeeps(s: ReaderState, e: ReaderEvent)
    requires ReaderInv(s)
    ensures ReaderInv(ReaderStep(s, e))
  {
    match e
    case Post(actor, room, did, nonce, text, signature) =>
      var t' := ReaderStep(s, e).remote;
      PostKeepsRemote(s.remote, actor, room, did, nonce, text, signature);
      GrowthKeepsOrder(s.remote, t', s.reader);
      forall i | 0 <= i < |s.saved| ensures InOrder(t', s.saved[i]) { GrowthKeepsOrder(s.remote, t', s.saved[i]); }
    case Read(room) =>
      GoodIsRising(s.remote, room);
      ReadKeepsOrder(s.remote, s.reader, room);
    case Save =>
    case RestoreTo(index) =>
  }

  ghost predicate FreshReader(s: ReaderState) {
    GoodRemote(s.remote) && s.reader == Reader(map[], map[]) && s.saved == []
  }

  lemma {:induction false} ReaderRunKeeps(s: ReaderState, es: seq<ReaderEvent>)
    requires FreshReader(s)
    ensures ReaderInv(ReaderRun(s, es))
  {
    if es == [] {
      forall room
        ensures At(Log(s.remote, room), 0, 0)
      {
        LogsMakeRemote(s.remote);
        assert GoodLog(Log(s.remote, room), room, s.remote.nextSequence);
        if Log(s.remote, room) != [] { assert GoodRecord(Log(s.remote, room)[0], room, s.remote.nextSequence); }
      }
    } else {
      ReaderRunKeeps(s, es[..|es| - 1]);
      ReaderStepKeeps(ReaderRun(s, es[..|es| - 1]), es[|es| - 1]);
    }
  }

  // Over any interleaving of posts, bounded reads, checkpoints and restores, what an adapter
  // has received of a room is the room's log from its start, in order, without gap or repeat,
  // and the next read hands it exactly the next records, up to a hundred.
  lemma {:induction false} AdapterReceivesInOrder(s: ReaderState, es: seq<ReaderEvent>, room: string)
    requires FreshReader(s)
    ensures var now := ReaderRun(s, es);
            var log, n := Log(now.remote, room), |Received(now.reader, room)|;
            && n <= |log| && Received(now.reader, room) == log[..n]
            && AdapterRead(now.remote, now.reader.cursors, room).1 == log[n..End(log, n)]
  {
    ReaderRunKeeps(s, es);
    var now := ReaderRun(s, es);
    GoodIsRising(now.remote, room);
    ReadKeepsOrder(now.remote, now.reader, room);
  }
}
