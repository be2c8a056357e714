// Every run of the request mailbox (src/rosetta/pilot.py:770-779, 858-870 and 1015-1028): the room
// grows or is recreated, polls are cut off anywhere, start-ups recover. Records are served in log
// order, and the cursor passes no request the book holds without its stored result.
module MailboxRuns {
  import opened Wrappers
  import opened Technocore
  import opened Persistence
  import opened Requests
  import J = Jobs
  import M = Pilot
  import P = Polling

  // What polls did: a cursor started over, or a record was tried, and passed or not; `held` says
  // whether the book then had a row of its request with this content.
  datatype Entry =
    | StartedOver
    | Tried(record: Record, incoming: J.Incoming, held: bool, passed: bool)

  // A room without a generation is never recreated.
  datatype Mailbox = Mailbox(log: seq<Record>, generation: Option<nat>, cursor: Cursor, book: Book, history: seq<Entry>)

  datatype Limits = Limits(perDid: int, global: int)

  // A poll comes to the first `upTo` records it read, if none before stops it.
  datatype Event =
    | Grow(records: seq<Record>)
    | Recreate(records: seq<Record>)
    | Poll(fate: Record -> J.Incoming, upTo: nat)
    | Recover(order: seq<Key>, plan: Key -> J.Plan)

  function Fates(xs: seq<Record>, fate: Record -> J.Incoming): (r: seq<J.Incoming>)
    ensures |r| == |xs|
  {
    if xs == [] then [] else [fate(xs[0])] + Fates(xs[1..], fate)
  }

  predicate Held(b: Book, x: J.Incoming) {
    x.Asked? && J.Known(b, x.call)
  }

  // One entry for each record the serving came to.
  function Attempts(b: Book, cursor: nat, xs: seq<Record>, fate: Record -> J.Incoming, limits: Limits): seq<Entry>
    decreases |xs|
  {
    if xs == [] then []
    else
      var s := J.ServedOne(b, cursor, fate(xs[0]), limits.perDid, limits.global);
      [Tried(xs[0], fate(xs[0]), Held(s.book, fate(xs[0])), s.end.Completed?)]
      + if s.end.Completed? then Attempts(s.book, s.cursor, xs[1..], fate, limits) else []
  }

  // The records passed since the cursor last started over.
  function Passed(h: seq<Entry>): seq<Record> {
    if h == [] || h[|h| - 1].StartedOver? then []
    else Passed(h[..|h| - 1]) + if h[|h| - 1].passed then [h[|h| - 1].record] else []
  }

  // The history once a poll has read: a recreated room starts it over.
  function Begun(m: Mailbox): seq<Entry> {
    if m.cursor.generation.Some? && m.generation.Some? && m.cursor.generation != m.generation
      then m.history + [StartedOver]
    else m.history
  }

  function Polled(m: Mailbox, fate: Record -> J.Incoming, upTo: nat, limits: Limits): Mailbox {
    var (c, records) := M.GenerationSafe(m.cursor, m.log, m.generation);
    var xs := Take(records, upTo);
    var s := J.ServedAll(m.book, c.sequence, Fates(xs, fate), limits.perDid, limits.global);
    m.(cursor := c.(sequence := s.cursor), book := s.book,
       history := Begun(m) + Attempts(m.book, c.sequence, xs, fate, limits))
  }

  function Step(m: Mailbox, e: Event, limits: Limits): Mailbox {
    match e
    case Grow(records) => m.(log := m.log + records)
    case Recreate(records) =>
      if m.generation.None? then m else m.(log := records, generation := Some(m.generation.value + 1))
    case Poll(fate, upTo) => Polled(m, fate, upTo, limits)
    case Recover(order, plan) => m.(book := J.Recovered(m.book, order, plan).0)
  }

  function Run(m: Mailbox, es: seq<Event>, limits: Limits): Mailbox {
    if es == [] then m else Step(Run(m, es[..|es| - 1], limits), es[|es| - 1], limits)
  }

  predicate GoodRoom(log: seq<Record>) {
    Rising(log) && forall i :: 0 <= i < |log| ==> log[i].sequence > 0
  }

  // Sequences rise, a fate is that of its record, and a recovery runs over the pending jobs.
  ghost predicate Legal(m: Mailbox, e: Event) {
    match e
    case Grow(records) => GoodRoom(m.log + records)
    case Recreate(records) => GoodRoom(records)
    case Poll(fate, upTo) => forall x :: fate(x).sequence == x.sequence
    case Recover(order, plan) => J.Enumerates(order, PendingKeys(m.book))
  }

  ghost predicate AllLegal(m: Mailbox, es: seq<Event>, limits: Limits) {
    forall i :: 0 <= i < |es| ==> Legal(Run(m, es[..i], limits), es[i])
  }

  ghost predicate Fresh(m: Mailbox) {
    GoodRoom(m.log) && m.cursor == Cursor(0, None) && m.book == EMPTY && m.history == []
  }

  // ---- the invariant ----

  // Whatever was tried since the last start over was the next record of the log.
  predicate InOrder(h: seq<Entry>, log: seq<Record>) {
    h == [] || h[|h| - 1].StartedOver?
    || (InOrder(h[..|h| - 1], log) && Passed(h[..|h| - 1]) + [h[|h| - 1].record] <= log)
  }

  // The room the cursor is about is the one that is there.
  predicate Current(m: Mailbox) {
    m.generation.None? || m.cursor.generation == m.generation
  }

  // The records passed are the log's first, and the cursor stands on the last of them.
  predicate Placed(log: seq<Record>, h: seq<Entry>, cursor: nat) {
    && InOrder(h, log) && Passed(h) <= log
    && cursor == if Passed(h) == [] then 0 else log[|Passed(h)| - 1].sequence
  }

  lemma {:induction false} PlacedAt(log: seq<Record>, h: seq<Entry>, cursor: nat)
    requires GoodRoom(log) && Placed(log, h, cursor)
    ensures P.At(log, |Passed(h)|, cursor)
  {
    var n := |Passed(h)|;
    if 0 < n < |log| { assert log[n - 1].sequence < log[n].sequence; }
  }

  // A passed request has its result if the book held it with this content, and its rejection was sent
  // if not.
  predicate Answered(b: Book, e: Entry) {
    e.Tried? && e.passed && e.incoming.Asked? ==>
      var k := (e.incoming.call.requester, e.incoming.call.id);
      if e.held then k in b.requests && b.requests[k].result.Some? else e.incoming.replySends
  }

  ghost predicate AllAnswered(m: Mailbox) {
    forall i :: 0 <= i < |m.history| ==> Answered(m.book, m.history[i])
  }

  ghost predicate Generations(m: Mailbox) {
    && (m.cursor.generation.Some? ==> m.generation.Some? && m.cursor.generation.value <= m.generation.value)
    && (m.cursor.generation.None? && m.generation.Some? ==> m.history == [] && m.cursor.sequence == 0)
    && (m.generation.None? ==> StartedOver !in m.history)
  }

  ghost predicate MailInv(m: Mailbox) {
    GoodRoom(m.log) && JobInv(m.book) && AllAnswered(m) && Generations(m)
      && (Current(m) ==> Placed(m.log, m.history, m.cursor.sequence))
  }

  // ---- one poll ----

  lemma {:induction false} InOrderGrows(h: seq<Entry>, log: seq<Record>, log': seq<Record>)
    requires InOrder(h, log) && log <= log'
    ensures InOrder(h, log')
  {
    if h == [] || h[|h| - 1].StartedOver? {
    } else {
      InOrderGrows(h[..|h| - 1], log, log');
    }
  }

  lemma {:induction false} AnsweredStays(b: Book, b': Book, h: seq<Entry>)
    requires Kept(b, b') && forall i :: 0 <= i < |h| ==> Answered(b, h[i])
    ensures forall i :: 0 <= i < |h| ==> Answered(b', h[i])
  {
  }

  lemma {:induction false} OneAnswered(b: Book, cursor: nat, x: Record, fate: Record -> J.Incoming, limits: Limits)
    requires JobInv(b)
    ensures var s := J.ServedOne(b, cursor, fate(x), limits.perDid, limits.global);
            Answered(s.book, Tried(x, fate(x), Held(s.book, fate(x)), s.end.Completed?))
  {
    var y := fate(x);
    if y.Asked? {
      var k := (y.call.requester, y.call.id);
      var (b', r) := Reserve(b, y.call, limits.perDid, limits.global);
      if r.ReservedNew? || (r.Duplicate? && b.requests[k].result.None?) {
        if J.Executed(b', k, y.plan).1.Completed? { J.CompletedHasResult(b', k, y.plan); }
      }
    }
  }

  lemma {:induction false} Appended(h: seq<Entry>, e: Entry)
    ensures (h + [e])[..|h + [e]| - 1] == h
  {
  }

  // What serving adds to a history that stands at the cursor.
  ghost predicate ServesOn(log: seq<Record>, b: Book, h: seq<Entry>, b': Book, cursor': nat, added: seq<Entry>) {
    && JobInv(b') && Kept(b, b')
    && (forall i :: 0 <= i < |added| ==> added[i].Tried? && Answered(b', added[i]))
    && Placed(log, h + added, cursor')
  }

  // The next record, passed or not.
  lemma {:induction false} NextTried(log: seq<Record>, h: seq<Entry>, e: Entry, cursor: nat)
    requires Placed(log, h, cursor) && e.Tried? && Passed(h) + [e.record] <= log
    ensures Placed(log, h + [e], if e.passed then e.record.sequence else cursor)
    ensures Passed(h + [e]) == Passed(h) + if e.passed then [e.record] else []
  {
    Appended(h, e);
    assert log[|Passed(h)|] == e.record;
    assert Passed(h) + [] == Passed(h);
  }

  lemma {:induction false} ServedOneMoves(b: Book, cursor: nat, x: J.Incoming, limits: Limits)
    ensures var s := J.ServedOne(b, cursor, x, limits.perDid, limits.global);
            s.cursor == if s.end.Completed? then x.sequence else cursor
  {
  }

  lemma {:induction false} ServedInOrder(log: seq<Record>, b: Book, cursor: nat, xs: seq<Record>,
                                         fate: Record -> J.Incoming, limits: Limits, h: seq<Entry>)
    requires JobInv(b) && (forall x :: fate(x).sequence == x.sequence)
    requires Placed(log, h, cursor) && Passed(h) + xs <= log
    ensures var s := J.ServedAll(b, cursor, Fates(xs, fate), limits.perDid, limits.global);
            ServesOn(log, b, h, s.book, s.cursor, Attempts(b, cursor, xs, fate, limits))
    decreases |xs|
  {
    if xs == [] {
      assert h + [] == h;
      assert Passed(h) + xs == Passed(h);
    } else {
      var x := xs[0];
      var s := J.ServedOne(b, cursor, fate(x), limits.perDid, limits.global);
      var e := Tried(x, fate(x), Held(s.book, fate(x)), s.end.Completed?);
      J.ServeOneKeeps(b, cursor, fate(x), limits.perDid, limits.global);
      ServedOneMoves(b, cursor, fate(x), limits);
      OneAnswered(b, cursor, x, fate, limits);
      assert Passed(h) + xs == Passed(h) + [x] + xs[1..];
      NextTried(log, h, e, cursor);
      assert Fates(xs, fate)[1..] == Fates(xs[1..], fate);
      if s.end.Completed? {
        var rest := Attempts(s.book, s.cursor, xs[1..], fate, limits);
        ServedInOrder(log, s.book, s.cursor, xs[1..], fate, limits, h + [e]);
        RestServes(log, b, h, e, s.book,
                   J.ServedAll(s.book, s.cursor, Fates(xs[1..], fate), limits.perDid, limits.global), rest);
      } else {
        assert [e] + [] == [e];
      }
    }
  }

  lemma {:induction false} RestServes(log: seq<Record>, b: Book, h: seq<Entry>, e: Entry, mid: Book, end: J.Served,
                                      rest: seq<Entry>)
    requires Kept(b, mid) && e.Tried? && Answered(mid, e) && ServesOn(log, mid, h + [e], end.book, end.cursor, rest)
    ensures ServesOn(log, b, h, end.book, end.cursor, [e] + rest)
  {
    KeptTransitive(b, mid, end.book);
    AnsweredStays(mid, end.book, [e]);
    assert [e][0] == e;
    assert h + ([e] + rest) == h + [e] + rest;
  }

  lemma {:induction false} ReadsOn(m: Mailbox)
    requires MailInv(m)
    ensures var (c, records) := M.GenerationSafe(m.cursor, m.log, m.generation);
            && c.generation == m.generation && Placed(m.log, Begun(m), c.sequence)
            && records == m.log[|Passed(Begun(m))|..P.End(m.log, |Passed(Begun(m))|)]
  {
    var h, c := Begun(m), M.GenerationSafe(m.cursor, m.log, m.generation).0;
    if h != m.history {
      Appended(m.history, StartedOver);
      assert Passed(h) == [];
    }
    PlacedAt(m.log, h, c.sequence);
    M.ReadStartsAtCursor(m.cursor, m.log, m.generation, |Passed(h)|);
  }

  lemma {:induction false} PrefixGoesOn(log: seq<Record>, n: nat, m: nat, k: nat)
    requires n <= m <= |log|
    ensures log[..n] + Take(log[n..m], k) <= log
  {
  }

  lemma {:induction false} AddedAnswered(b: Book, h: seq<Entry>, added: seq<Entry>)
    requires forall i :: 0 <= i < |h| ==> Answered(b, h[i])
    requires forall i :: 0 <= i < |added| ==> Answered(b, added[i])
    ensures forall i :: 0 <= i < |h + added| ==> Answered(b, (h + added)[i])
  {
  }

  lemma {:induction false} BegunAnswered(m: Mailbox)
    requires AllAnswered(m)
    ensures forall i :: 0 <= i < |Begun(m)| ==> Answered(m.book, Begun(m)[i])
  {
  }

  lemma {:induction false} PollServes(m: Mailbox, fate: Record -> J.Incoming, upTo: nat, limits: Limits)
    requires MailInv(m) && forall x :: fate(x).sequence == x.sequence
    ensures var m' := Polled(m, fate, upTo, limits);
            var added := Attempts(m.book, M.GenerationSafe(m.cursor, m.log, m.generation).0.sequence,
                                  Take(M.GenerationSafe(m.cursor, m.log, m.generation).1, upTo), fate, limits);
            && m'.history == Begun(m) + added && m'.cursor.generation == m.generation
            && ServesOn(m.log, m.book, Begun(m), m'.book, m'.cursor.sequence, added)
  {
    var (c, records) := M.GenerationSafe(m.cursor, m.log, m.generation);
    var h := Begun(m);
    ReadsOn(m);
    PrefixGoesOn(m.log, |Passed(h)|, P.End(m.log, |Passed(h)|), upTo);
    assert m.log[..|Passed(h)|] == Passed(h);
    ServedInOrder(m.log, m.book, c.sequence, Take(records, upTo), fate, limits, h);
  }

  lemma {:induction false} PollKeeps(m: Mailbox, fate: Record -> J.Incoming, upTo: nat, limits: Limits)
    requires MailInv(m) && forall x :: fate(x).sequence == x.sequence
    ensures MailInv(Polled(m, fate, upTo, limits)) && Current(Polled(m, fate, upTo, limits))
    ensures Kept(m.book, Polled(m, fate, upTo, limits).book)
  {
    var m' := Polled(m, fate, upTo, limits);
    PollServes(m, fate, upTo, limits);
    var added := m'.history[|Begun(m)|..];
    BegunAnswered(m);
    AnsweredStays(m.book, m'.book, Begun(m));
    AddedAnswered(m'.book, Begun(m), added);
    assert m'.history == Begun(m) + added;
    assert m.generation.None? ==> StartedOver !in Begun(m) && StartedOver !in added;
  }

  // ---- every run ----

  lemma {:induction false} StepKeeps(m: Mailbox, e: Event, limits: Limits)
    requires MailInv(m) && Legal(m, e)
    ensures MailInv(Step(m, e, limits)) && Kept(m.book, Step(m, e, limits).book)
  {
    match e
    case Grow(records) =>
      if Current(m) { InOrderGrows(m.history, m.log, m.log + records); }
    case Recreate(records) =>
    case Poll(fate, upTo) => PollKeeps(m, fate, upTo, limits);
    case Recover(order, plan) =>
      J.PendingIsUnanswered(m.book, order);
      J.RecoverKeeps(m.book, order, plan);
      AnsweredStays(m.book, J.Recovered(m.book, order, plan).0, m.history);
  }

  lemma {:induction false} RunKeeps(m: Mailbox, es: seq<Event>, limits: Limits)
    requires Fresh(m) && AllLegal(m, es, limits)
    ensures MailInv(Run(m, es, limits))
  {
    if es == [] {
    } else {
      var front := es[..|es| - 1];
      forall i | 0 <= i < |front| ensures Legal(Run(m, front[..i], limits), front[i]) { assert front[..i] == es[..i]; }
      RunKeeps(m, front, limits);
      StepKeeps(Run(m, front, limits), es[|es| - 1], limits);
    }
  }

  // Over any run of growth, recreation, polls cut off anywhere and recoveries: while the cursor
  // belongs to the room that is there, what it has passed is the log's first records in order, each
  // tried when it was the next and passed once, and the next read starts right after them.
  lemma {:induction false} MailboxInOrder(m0: Mailbox, es: seq<Event>, limits: Limits)
    requires Fresh(m0) && AllLegal(m0, es, limits)
    ensures var m := Run(m0, es, limits);
            var n := |Passed(m.history)|;
            Current(m) ==>
              && n <= |m.log| && Passed(m.history) == m.log[..n] && InOrder(m.history, m.log)
              && P.At(m.log, n, m.cursor.sequence)
              && M.GenerationSafe(m.cursor, m.log, m.generation).1 == m.log[n..P.End(m.log, n)]
  {
    RunKeeps(m0, es, limits);
    var m := Run(m0, es, limits);
    if Current(m) {
      PlacedAt(m.log, m.history, m.cursor.sequence);
      M.ReadStartsAtCursor(m.cursor, m.log, m.generation, |Passed(m.history)|);
    }
  }

  // A poll that finds the room recreated starts its history over, and any poll ends on the room
  // that is there.
  lemma {:induction false} PollIsCurrent(m0: Mailbox, es: seq<Event>, fate: Record -> J.Incoming, upTo: nat,
                                         limits: Limits)
    requires Fresh(m0) && AllLegal(m0, es, limits) && forall x :: fate(x).sequence == x.sequence
    ensures var m := Run(m0, es, limits);
            var m' := Polled(m, fate, upTo, limits);
            && Current(m') && Begun(m) <= m'.history
            && (StartedOver in m'.history[|m.history|..] <==> !Current(m) && m.cursor.generation.Some?)
  {
    RunKeeps(m0, es, limits);
    var m := Run(m0, es, limits);
    PollKeeps(m, fate, upTo, limits);
    PollServes(m, fate, upTo, limits);
    var m' := Polled(m, fate, upTo, limits);
    var added := m'.history[|Begun(m)|..];
    assert StartedOver !in added;
    assert m'.history == Begun(m) + added;
    if Begun(m) != m.history {
      assert m'.history[|m.history|..][0] == StartedOver;
    } else {
      assert m'.history[|m.history|..] == added;
    }
  }

  // And no request is lost: whatever the cursor passed, if the book held its key with its content, has
  // a result, which no later event of the run takes away, and if not, was answered with a
  // rejection that was sent.
  lemma {:induction false} NoRequestLost(m0: Mailbox, es: seq<Event>, n: nat, i: nat, limits: Limits)
    requires Fresh(m0) && AllLegal(m0, es, limits) && n <= |es| && i < |Run(m0, es[..n], limits).history|
    ensures var past, now := Run(m0, es[..n], limits), Run(m0, es, limits);
            Answered(past.book, past.history[i]) && Kept(past.book, now.book)
  {
    var front := es[..n];
    assert forall k :: 0 <= k < n ==> front[..k] == es[..k];
    RunKeeps(m0, front, limits);
    BookKept(m0, es, n, limits);
  }

  lemma {:induction false} BookKept(m0: Mailbox, es: seq<Event>, n: nat, limits: Limits)
    requires Fresh(m0) && AllLegal(m0, es, limits) && n <= |es|
    ensures Kept(Run(m0, es[..n], limits).book, Run(m0, es, limits).book)
    decreases |es|
  {
    if n == |es| {
      assert es[..n] == es;
    } else {
      var front := es[..|es| - 1];
      forall i | 0 <= i < |front| ensures Legal(Run(m0, front[..i], limits), front[i]) { assert front[..i] == es[..i]; }
      BookKept(m0, front, n, limits);
      assert front[..n] == es[..n];
      RunKeeps(m0, front, limits);
      StepKeeps(Run(m0, front, limits), es[|es| - 1], limits);
      KeptTransitive(Run(m0, es[..n], limits).book, Run(m0, front, limits).book, Run(m0, es, limits).book);
    }
  }

  // ---- a poll in which nothing goes wrong ----

  // Requests come with their text, so every accepted one has a job.
  ghost predicate WithText(fate: Record -> J.Incoming) {
    forall x :: fate(x).Asked? ==> fate(x).call.requestJson.Some?
  }

  lemma {:induction false} ServedHasJob(b: Book, cursor: nat, x: J.Incoming, limits: Limits)
    requires JobInv(b) && J.AllHaveJobs(b) && (x.Asked? ==> x.call.requestJson.Some?)
    ensures J.AllHaveJobs(J.ServedOne(b, cursor, x, limits.perDid, limits.global).book)
  {
    J.BookServed(b, cursor, x, limits.perDid, limits.global);
    if x.Asked? {
      var (b', r) := Reserve(b, x.call, limits.perDid, limits.global);
      ReserveKeepsJobs(b, x.call, limits.perDid, limits.global);
      if J.ToExecute(b, x.call, r) {
        J.AskedIsUnanswered(b, x.call, limits.perDid, limits.global);
        J.ExecuteKeeps(b', (x.call.requester, x.call.id), x.plan);
      }
    }
  }

  lemma {:induction false} AllServedHaveJobs(b: Book, cursor: nat, xs: seq<Record>, fate: Record -> J.Incoming,
                                             limits: Limits)
    requires JobInv(b) && J.AllHaveJobs(b) && WithText(fate)
    ensures J.AllHaveJobs(J.ServedAll(b, cursor, Fates(xs, fate), limits.perDid, limits.global).book)
    decreases |xs|
  {
    if xs == [] {
    } else {
      var s := J.ServedOne(b, cursor, fate(xs[0]), limits.perDid, limits.global);
      ServedHasJob(b, cursor, fate(xs[0]), limits);
      J.ServeOneKeeps(b, cursor, fate(xs[0]), limits.perDid, limits.global);
      assert Fates(xs, fate)[1..] == Fates(xs[1..], fate);
      if s.end.Completed? { AllServedHaveJobs(s.book, s.cursor, xs[1..], fate, limits); }
    }
  }

  lemma {:induction false} RecoveredHaveJobs(b: Book, keys: seq<Key>, plan: Key -> J.Plan)
    requires JobInv(b) && J.Unanswered(b, keys) && J.AllHaveJobs(b)
    ensures J.AllHaveJobs(J.Recovered(b, keys, plan).0)
    decreases |keys|
  {
    if keys == [] {
    } else {
      var (b', end) := J.Executed(b, keys[0], plan(keys[0]));
      J.ExecuteKeeps(b, keys[0], plan(keys[0]));
      if end.Completed? {
        J.RestUnanswered(b, b', keys);
        RecoveredHaveJobs(b', keys[1..], plan);
      }
    }
  }

  lemma {:induction false} StepHasJobs(m: Mailbox, e: Event, limits: Limits)
    requires JobInv(m.book) && J.AllHaveJobs(m.book) && Legal(m, e) && (e.Poll? ==> WithText(e.fate))
    ensures J.AllHaveJobs(Step(m, e, limits).book)
  {
    match e
    case Grow(_) =>
    case Recreate(_) =>
    case Poll(fate, upTo) =>
      var (c, records) := M.GenerationSafe(m.cursor, m.log, m.generation);
      AllServedHaveJobs(m.book, c.sequence, Take(records, upTo), fate, limits);
    case Recover(order, plan) =>
      J.PendingIsUnanswered(m.book, order);
      RecoveredHaveJobs(m.book, order, plan);
  }

  lemma {:induction false} RunHasJobs(m: Mailbox, es: seq<Event>, limits: Limits)
    requires Fresh(m) && AllLegal(m, es, limits)
    requires forall i :: 0 <= i < |es| && es[i].Poll? ==> WithText(es[i].fate)
    ensures J.AllHaveJobs(Run(m, es, limits).book)
  {
    if es == [] {
    } else {
      var n := |es| - 1;
      var front := es[..n];
      forall i | 0 <= i < n ensures Legal(Run(m, front[..i], limits), front[i]) { assert front[..i] == es[..i]; }
      RunHasJobs(m, front, limits);
      RunKeeps(m, front, limits);
      StepHasJobs(Run(m, front, limits), es[n], limits);
    }
  }

  lemma {:induction false} PassedOn(h: seq<Entry>, e: Entry, rest: seq<Entry>, xs: seq<Record>)
    requires xs != [] && e.Tried? && e.passed && e.record == xs[0]
    requires Passed(h + [e] + rest) == Passed(h + [e]) + xs[1..]
    ensures Passed(h + ([e] + rest)) == Passed(h) + xs
  {
    Appended(h, e);
    assert h + ([e] + rest) == h + [e] + rest;
    assert [xs[0]] + xs[1..] == xs;
  }

  // Nothing goes wrong with a record, whatever the book holds.
  ghost predicate ServesRight(x: J.Incoming) {
    x.lives && (x.Asked? ==> x.call.requestJson.Some? && x.replySends && J.GoesRight(x.plan))
  }

  // Every record of a batch that lies at or above the cursor is passed.
  lemma {:induction false} RightServed(b: Book, cursor: nat, xs: seq<Record>, fate: Record -> J.Incoming,
                                       limits: Limits, h: seq<Entry>)
    requires JobInv(b) && J.AllHaveJobs(b) && Rising(xs) && (xs != [] ==> cursor <= xs[0].sequence)
    requires forall x :: fate(x).sequence == x.sequence && ServesRight(fate(x))
    ensures Passed(h + Attempts(b, cursor, xs, fate, limits)) == Passed(h) + xs
    decreases |xs|
  {
    if xs == [] {
      assert h + [] == h;
    } else {
      var x := fate(xs[0]);
      var s := J.ServedOne(b, cursor, x, limits.perDid, limits.global);
      var e := Tried(xs[0], x, Held(s.book, x), true);
      J.PassedRight(b, cursor, x, limits.perDid, limits.global);
      J.ServeOneKeeps(b, cursor, x, limits.perDid, limits.global);
      assert |xs| > 1 ==> xs[0].sequence < xs[1].sequence;
      RightServed(s.book, s.cursor, xs[1..], fate, limits, h + [e]);
      PassedOn(h, e, Attempts(s.book, s.cursor, xs[1..], fate, limits), xs);
    }
  }

  lemma {:induction false} RightPoll(m: Mailbox, fate: Record -> J.Incoming, limits: Limits)
    requires MailInv(m) && J.AllHaveJobs(m.book)
    requires forall x :: fate(x).sequence == x.sequence && ServesRight(fate(x))
    ensures var n := |Passed(Begun(m))|;
            Passed(Polled(m, fate, 100, limits).history) == m.log[..P.End(m.log, n)]
  {
    var (c, records) := M.GenerationSafe(m.cursor, m.log, m.generation);
    var n := |Passed(Begun(m))|;
    ReadsOn(m);
    NextAbove(m.log, Begun(m), c.sequence, P.End(m.log, n));
    assert Take(records, 100) == records;
    RightServed(m.book, c.sequence, records, fate, limits, Begun(m));
  }

  // What follows the records passed lies above the cursor.
  lemma {:induction false} NextAbove(log: seq<Record>, h: seq<Entry>, cursor: nat, m: nat)
    requires GoodRoom(log) && Placed(log, h, cursor) && |Passed(h)| <= m <= |log|
    ensures var xs := log[|Passed(h)|..m];
            Rising(xs) && (xs != [] ==> cursor <= xs[0].sequence) && Passed(h) + xs == log[..m]
  {
    PlacedAt(log, h, cursor);
    assert log[..|Passed(h)|] == Passed(h);
  }

  lemma {:induction false} BeginsAt(m: Mailbox)
    requires Generations(m)
    ensures |Passed(Begun(m))|
         == if m.cursor.generation.Some? && m.generation != m.cursor.generation then 0 else |Passed(m.history)|
  {
    if Begun(m) != m.history { Appended(m.history, StartedOver); }
  }

  // In any reachable state, a poll of a hundred in which nothing goes wrong passes every record it reads,
  // so the log's first records up to a hundred more than before.
  lemma {:induction false} PollPassesAll(m0: Mailbox, es: seq<Event>, fate: Record -> J.Incoming, limits: Limits)
    requires Fresh(m0) && AllLegal(m0, es, limits)
    requires forall i :: 0 <= i < |es| && es[i].Poll? ==> WithText(es[i].fate)
    requires forall x :: fate(x).sequence == x.sequence && ServesRight(fate(x))
    ensures var m := Run(m0, es, limits);
            var n := if m.cursor.generation.Some? && m.generation != m.cursor.generation then 0
                     else |Passed(m.history)|;
            Passed(Polled(m, fate, 100, limits).history) == m.log[..P.End(m.log, n)]
  {
    RunKeeps(m0, es, limits);
    RunHasJobs(m0, es, limits);
    RightPoll(Run(m0, es, limits), fate, limits);
    BeginsAt(Run(m0, es, limits));
  }
}
