// Every run of the engagement poll over one room (src/rosetta/pilot.py:880-926): the room grows or
// is recreated, polls are cut off anywhere and sends raise. Each record is handled or skipped once,
// in log order, and skipped only by a poll that starts over.
module EngagementRuns {
  import opened Technocore
  import opened Engagement
  import opened Polling
  import M = MailboxRuns

  datatype Entry = Took(record: Record) | Skipped(record: Record)

  // `from` records of the room were there before the checkpoint was first set; entries are those of
  // the room that is there.
  datatype Lobby = Lobby(log: seq<Record>, generation: nat, from: nat, checkpoint: Checkpoint, tables: Tables,
                         entries: seq<Entry>)

  // A poll reads the log's first `seen` records, the rest arriving before it asks for the last
  // sequence, and dies once it has come to the first `upTo` of its batch.
  datatype Event =
    | Grow(records: seq<Record>)
    | Recreate(records: seq<Record>)
    | Poll(seen: nat, upTo: nat, now: int, opportunity: Record -> bool, sends: Record -> bool)

  function TookAll(xs: seq<Record>): (es: seq<Entry>)
    ensures |es| == |xs| && forall i :: 0 <= i < |xs| ==> es[i] == Took(xs[i])
  {
    seq(|xs|, i requires 0 <= i < |xs| => Took(xs[i]))
  }

  function SkippedAll(xs: seq<Record>): (es: seq<Entry>)
    ensures |es| == |xs| && forall i :: 0 <= i < |xs| ==> es[i] == Skipped(xs[i])
  {
    seq(|xs|, i requires 0 <= i < |xs| => Skipped(xs[i]))
  }

  function Records(es: seq<Entry>): (xs: seq<Record>)
    ensures |xs| == |es| && forall i :: 0 <= i < |es| ==> xs[i] == es[i].record
  {
    seq(|es|, i requires 0 <= i < |es| => es[i].record)
  }

  function Position(l: Lobby): nat {
    l.from + |l.entries|
  }

  function Ahead(l: Lobby): seq<Record> {
    if Position(l) <= |l.log| then l.log[Position(l)..] else []
  }

  function Batch(l: Lobby, seen: nat, upTo: nat): seq<Record> {
    Take(Take(Newer(Take(l.log, seen), l.checkpoint.sequence), 100), upTo)
  }

  function Polled(l: Lobby, e: Event, room: string, s: Settings): Lobby
    requires e.Poll?
  {
    if StartsOver(l.log, l.checkpoint, l.generation) then
      l.(checkpoint := Checkpoint(LastSequence(l.log), l.generation), entries := l.entries + SkippedAll(Ahead(l)))
    else
      var p := Handled(l.tables, l.checkpoint, Batch(l, e.seen, e.upTo), room, e.now, s, e.opportunity, e.sends);
      l.(checkpoint := p.checkpoint, tables := p.tables, entries := l.entries + TookAll(p.handled))
  }

  // A poll that sees everything and is not cut off is the pilot's.
  lemma {:induction false} WholePoll(l: Lobby, e: Event, room: string, s: Settings)
    requires e.Poll? && e.seen >= |l.log| && e.upTo >= 100
    ensures var p := PolledRoom(l.tables, l.checkpoint, l.log, l.generation, room, e.now, s, e.opportunity, e.sends);
            Polled(l, e, room, s).checkpoint == p.checkpoint && Polled(l, e, room, s).tables == p.tables
  {
    assert Take(l.log, e.seen) == l.log;
    assert Batch(l, e.seen, e.upTo) == Take(Newer(l.log, l.checkpoint.sequence), 100);
  }

  function Step(l: Lobby, e: Event, room: string, s: Settings): Lobby {
    match e
    case Grow(records) => l.(log := l.log + records)
    case Recreate(records) => l.(log := records, generation := l.generation + 1, from := 0, entries := [])
    case Poll(_, _, _, _, _) => Polled(l, e, room, s)
  }

  function Run(l: Lobby, es: seq<Event>, room: string, s: Settings): Lobby {
    if es == [] then l else Step(Run(l, es[..|es| - 1], room, s), es[|es| - 1], room, s)
  }

  // Sequences rise, and a read sees at least what was read before.
  predicate Legal(l: Lobby, e: Event) {
    match e
    case Grow(records) => M.GoodRoom(l.log + records)
    case Recreate(records) => M.GoodRoom(records)
    case Poll(seen, _, _, _, _) => Position(l) <= seen
  }

  ghost predicate AllLegal(l: Lobby, es: seq<Event>, room: string, s: Settings) {
    forall i :: 0 <= i < |es| ==> Legal(Run(l, es[..i], room, s), es[i])
  }

  // Activation sets the checkpoint to the end of the room.
  predicate Activated(l: Lobby) {
    && M.GoodRoom(l.log) && l.from == |l.log| && l.entries == []
    && l.checkpoint == Checkpoint(LastSequence(l.log), l.generation)
  }

  predicate OnLast(log: seq<Record>, n: nat, cursor: nat) {
    n <= |log| && cursor == if n == 0 then 0 else log[n - 1].sequence
  }

  predicate LobbyInv(l: Lobby) {
    && M.GoodRoom(l.log) && Position(l) <= |l.log| && Records(l.entries) == l.log[l.from..Position(l)]
    && l.checkpoint.generation <= l.generation
    && (if l.checkpoint.generation == l.generation then OnLast(l.log, Position(l), l.checkpoint.sequence)
        else l.from == 0 && l.entries == [])
  }

  lemma {:induction false} OnLastIsAt(log: seq<Record>, n: nat, cursor: nat)
    requires M.GoodRoom(log) && OnLast(log, n, cursor)
    ensures At(log, n, cursor)
  {
    if 0 < n < |log| { assert log[n - 1].sequence < log[n].sequence; }
  }

  lemma {:induction false} RecordsJoin(es: seq<Entry>, fs: seq<Entry>)
    ensures Records(es + fs) == Records(es) + Records(fs)
  {
  }

  // New entries that go on where the old ones stopped.
  lemma {:induction false} GoesOn(log: seq<Record>, from: nat, es: seq<Entry>, fs: seq<Entry>, m: nat)
    requires from + |es| <= m <= |log| && Records(es) == log[from..from + |es|]
    requires Records(fs) == log[from + |es|..m]
    ensures Records(es + fs) == log[from..m] && from + |es + fs| == m
  {
    RecordsJoin(es, fs);
    assert |Records(fs)| == |fs|;
    assert log[from..from + |es|] + log[from + |es|..m] == log[from..m];
  }

  // How far a batch goes when the read saw the log's first records.
  function BatchEnd(n: nat, seen: nat, upTo: nat): (m: nat)
    requires n <= seen
    ensures n <= m <= seen
  {
    var read := if n + 100 < seen then 100 else seen - n;
    n + if upTo < read then upTo else read
  }

  lemma {:induction false} SliceOfRead(log: seq<Record>, n: nat, m: nat, seen: nat, upTo: nat)
    requires n <= m <= seen <= |log|
    ensures Take(log[..seen][n..m], upTo) == log[n..n + if upTo < m - n then upTo else m - n]
  {
    assert log[..seen][n..m] == log[n..m];
    if upTo < m - n { assert log[n..m][..upTo] == log[n..n + upTo]; }
  }

  lemma {:induction false} BatchIsNext(l: Lobby, seen: nat, upTo: nat)
    requires Rising(l.log) && Position(l) <= seen <= |l.log| && At(l.log, Position(l), l.checkpoint.sequence)
    ensures Batch(l, seen, upTo) == l.log[Position(l)..BatchEnd(Position(l), seen, upTo)]
  {
    var n, cursor := Position(l), l.checkpoint.sequence;
    assert Take(l.log, seen) == l.log[..seen];
    ReadFrom(l.log, n, seen, cursor);
    SliceOfRead(l.log, n, if n + 100 < seen then n + 100 else seen, seen, upTo);
  }

  lemma {:induction false} ReadFrom(log: seq<Record>, n: nat, seen: nat, cursor: nat)
    requires Rising(log) && n <= seen <= |log| && At(log, n, cursor)
    ensures Take(Newer(log[..seen], cursor), 100) == log[..seen][n..if n + 100 < seen then n + 100 else seen]
  {
    BoundedRead(log[..seen], n, cursor, 100);
  }

  // A poll that does not start over takes the next records, one by one, as far as it comes; if its
  // sends go through, it reads everything and is not cut off, it comes to the end.
  ghost predicate TakesNext(l: Lobby, e: Event, l': Lobby)
    requires e.Poll?
  {
    var n, m := Position(l), Position(l');
    && n <= m <= |l.log| && l'.entries == l.entries + TookAll(l.log[n..m])
    && l'.checkpoint.generation == l.generation && OnLast(l.log, m, l'.checkpoint.sequence)
    && ((forall x :: e.sends(x)) && e.seen >= |l.log| && e.upTo >= 100 ==> m == |l.log|)
  }

  lemma {:induction false} SendsComplete(t: Tables, c: Checkpoint, xs: seq<Record>, room: string, now: int,
                                         s: Settings, opportunity: Record -> bool, sends: Record -> bool)
    requires forall x :: sends(x)
    ensures Handled(t, c, xs, room, now, s, opportunity, sends).completed
    decreases |xs|
  {
    if xs == [] {
    } else {
      var x := xs[0];
      var t' := ReserveReply(t, ReplyKey(room, c.generation, x.sequence), x.did, now, s.maxPerDay, s.cooldownHours).0;
      SendsComplete(if opportunity(x) then t' else t, c.(sequence := x.sequence), xs[1..], room, now, s, opportunity,
                    sends);
    }
  }

  // The handled records are the next ones, up to position m at most.
  ghost predicate TookTo(l: Lobby, e: Event, p: Poll, m: nat)
    requires e.Poll?
  {
    var n, k := Position(l), Position(l) + |p.handled|;
    && k <= m <= |l.log| && p.handled == l.log[n..k]
    && p.checkpoint.generation == l.checkpoint.generation && OnLast(l.log, k, p.checkpoint.sequence)
    && ((forall x :: e.sends(x)) ==> k == m)
  }

  lemma {:induction false} SliceOfSlice(log: seq<Record>, n: nat, m: nat, k: nat)
    requires n <= m <= |log| && k <= m - n
    ensures log[n..m][..k] == log[n..n + k] && (k > 0 ==> log[n..m][k - 1] == log[n + k - 1])
  {
  }

  lemma {:induction false} BatchTaken(l: Lobby, e: Event, m: nat, room: string, s: Settings)
    requires e.Poll? && Position(l) <= m <= |l.log| && OnLast(l.log, Position(l), l.checkpoint.sequence)
    ensures TookTo(l, e, Handled(l.tables, l.checkpoint, l.log[Position(l)..m], room, e.now, s, e.opportunity, e.sends),
                   m)
  {
    var n, xs := Position(l), l.log[Position(l)..m];
    HandledIsPrefix(l.tables, l.checkpoint, xs, room, e.now, s, e.opportunity, e.sends);
    var k := |Handled(l.tables, l.checkpoint, xs, room, e.now, s, e.opportunity, e.sends).handled|;
    SliceOfSlice(l.log, n, m, k);
    if forall x :: e.sends(x) { SendsComplete(l.tables, l.checkpoint, xs, room, e.now, s, e.opportunity, e.sends); }
  }

  lemma {:induction false} TookIsNext(l: Lobby, e: Event, p: Poll, m: nat)
    requires e.Poll? && TookTo(l, e, p, m) && l.checkpoint.generation == l.generation
    requires e.seen >= |l.log| && e.upTo >= 100 ==> m == |l.log|
    ensures TakesNext(l, e,
                      l.(checkpoint := p.checkpoint, tables := p.tables, entries := l.entries + TookAll(p.handled)))
  {
    assert |TookAll(p.handled)| == |p.handled|;
  }

  lemma {:induction false} BatchReachesEnd(log: seq<Record>, n: nat, cursor: nat, upTo: nat)
    requires Rising(log) && At(log, n, cursor) && LastSequence(log) - cursor <= 100 && upTo >= 100
    ensures BatchEnd(n, |log|, upTo) == |log|
  {
    BatchIsWhole(log, n, cursor);
    assert |log[n..]| <= 100;
  }

  lemma {:induction false} ReadSeen(l: Lobby, e: Event) returns (seen: nat)
    requires LobbyInv(l) && e.Poll? && Legal(l, e) && l.checkpoint.generation == l.generation
    ensures Position(l) <= seen <= |l.log| && (e.seen >= |l.log| ==> seen == |l.log|)
    ensures Batch(l, e.seen, e.upTo) == l.log[Position(l)..BatchEnd(Position(l), seen, e.upTo)]
  {
    seen := if e.seen < |l.log| then e.seen else |l.log|;
    OnLastIsAt(l.log, Position(l), l.checkpoint.sequence);
    assert Batch(l, e.seen, e.upTo) == Batch(l, seen, e.upTo);
    BatchIsNext(l, seen, e.upTo);
  }

  lemma {:induction false} PollTakes(l: Lobby, e: Event, room: string, s: Settings)
    requires LobbyInv(l) && e.Poll? && Legal(l, e) && !StartsOver(l.log, l.checkpoint, l.generation)
    ensures TakesNext(l, e, Polled(l, e, room, s))
  {
    var n := Position(l);
    var seen := ReadSeen(l, e);
    var m := BatchEnd(n, seen, e.upTo);
    if e.seen >= |l.log| && e.upTo >= 100 {
      OnLastIsAt(l.log, n, l.checkpoint.sequence);
      BatchReachesEnd(l.log, n, l.checkpoint.sequence, e.upTo);
    }
    BatchTaken(l, e, m, room, s);
    TookIsNext(l, e, Handled(l.tables, l.checkpoint, l.log[n..m], room, e.now, s, e.opportunity, e.sends), m);
  }

  // A poll that starts over skips all that is ahead.
  lemma {:induction false} PollSkips(l: Lobby, e: Event, room: string, s: Settings)
    requires LobbyInv(l) && e.Poll? && StartsOver(l.log, l.checkpoint, l.generation)
    ensures var l' := Polled(l, e, room, s);
            && Position(l') == |l.log| && l'.entries == l.entries + SkippedAll(l.log[Position(l)..])
            && l'.tables == l.tables
            && OnLast(l.log, Position(l'), l'.checkpoint.sequence) && l'.checkpoint.generation == l.generation
  {
    LastOfRising(l.log);
  }

  lemma {:induction false} SkipKeeps(l: Lobby, e: Event, room: string, s: Settings)
    requires LobbyInv(l) && e.Poll? && StartsOver(l.log, l.checkpoint, l.generation)
    ensures LobbyInv(Polled(l, e, room, s))
  {
    PollSkips(l, e, room, s);
    GoesOn(l.log, l.from, l.entries, SkippedAll(l.log[Position(l)..]), |l.log|);
  }

  lemma {:induction false} TakeKeeps(l: Lobby, e: Event, room: string, s: Settings)
    requires LobbyInv(l) && e.Poll? && Legal(l, e) && !StartsOver(l.log, l.checkpoint, l.generation)
    ensures LobbyInv(Polled(l, e, room, s))
  {
    PollTakes(l, e, room, s);
    var m := Position(Polled(l, e, room, s));
    GoesOn(l.log, l.from, l.entries, TookAll(l.log[Position(l)..m]), m);
  }

  lemma {:induction false} StepKeeps(l: Lobby, e: Event, room: string, s: Settings)
    requires LobbyInv(l) && Legal(l, e)
    ensures LobbyInv(Step(l, e, room, s))
  {
    match e
    case Grow(records) =>
      assert (l.log + records)[l.from..Position(l)] == l.log[l.from..Position(l)];
    case Recreate(records) =>
      assert Records([]) == [];
    case Poll(_, _, _, _, _) =>
      if StartsOver(l.log, l.checkpoint, l.generation) { SkipKeeps(l, e, room, s); } else { TakeKeeps(l, e, room, s); }
  }

  lemma {:induction false} RunKeeps(l: Lobby, es: seq<Event>, room: string, s: Settings)
    requires Activated(l) && AllLegal(l, es, room, s)
    ensures LobbyInv(Run(l, es, room, s))
  {
    if es == [] {
      LastOfRising(l.log);
    } else {
      var front := es[..|es| - 1];
      forall i | 0 <= i < |front| ensures Legal(Run(l, front[..i], room, s), front[i]) { assert front[..i] == es[..i]; }
      RunKeeps(l, front, room, s);
      StepKeeps(Run(l, front, room, s), es[|es| - 1], room, s);
    }
  }

  // Over any run: what was handled or skipped since activation, or since the room was recreated, is
  // the room's records from there on, in order, each once, and the checkpoint stands right after.
  lemma {:induction false} EngagementInOrder(l0: Lobby, es: seq<Event>, room: string, s: Settings)
    requires Activated(l0) && AllLegal(l0, es, room, s)
    ensures var l := Run(l0, es, room, s);
            && Position(l) <= |l.log| && Records(l.entries) == l.log[l.from..Position(l)]
            && (l.checkpoint.generation == l.generation ==> At(l.log, Position(l), l.checkpoint.sequence))
            && (l.checkpoint.generation != l.generation ==> l.from == 0 && l.entries == [])
  {
    RunKeeps(l0, es, room, s);
    var l := Run(l0, es, room, s);
    if l.checkpoint.generation == l.generation { OnLastIsAt(l.log, Position(l), l.checkpoint.sequence); }
  }

  lemma {:induction false} PollFollows(l: Lobby, e: Event, room: string, s: Settings)
    requires LobbyInv(l) && e.Poll? && Legal(l, e)
    ensures var l' := Polled(l, e, room, s);
            if StartsOver(l.log, l.checkpoint, l.generation) then
              Position(l') == |l.log| && l'.entries == l.entries + SkippedAll(l.log[Position(l)..])
                && l'.tables == l.tables
            else TakesNext(l, e, l')
  {
    if StartsOver(l.log, l.checkpoint, l.generation) { PollSkips(l, e, room, s); } else { PollTakes(l, e, room, s); }
  }

  // And the next poll either finds the room recreated, or its newest record more than a hundred above
  // the checkpoint, and skips all that is ahead, or it handles the next records in order, all that
  // are there unless a send raises, it dies, or they come too late for its read.
  lemma {:induction false} NextPoll(l0: Lobby, es: seq<Event>, e: Event, room: string, s: Settings)
    requires Activated(l0) && AllLegal(l0, es, room, s) && e.Poll? && Legal(Run(l0, es, room, s), e)
    ensures var l := Run(l0, es, room, s);
            var l' := Step(l, e, room, s);
            if l.checkpoint.generation != l.generation
               || (l.log != [] && l.log[|l.log| - 1].sequence > l.checkpoint.sequence + 100) then
              Position(l') == |l.log| && l'.entries == l.entries + SkippedAll(l.log[Position(l)..])
                && l'.tables == l.tables
            else TakesNext(l, e, l')
  {
    RunKeeps(l0, es, room, s);
    LastOfRising(Run(l0, es, room, s).log);
    PollFollows(Run(l0, es, room, s), e, room, s);
  }
}
