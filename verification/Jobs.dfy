// The life of a job in the pilot (src/rosetta/pilot.py:734-779 and 858-870,
// src/rosetta/service.py:273-372): accept, execute, recover, with a death between any two writes.
module Jobs {
  import opened Wrappers
  import opened Requests

  // How one execution goes: whether the bundle is built, the result is sent and the success is
  // recorded, and after how many writes of the book the process dies.
  datatype Plan = Plan(build: bool, send: bool, record: bool, writes: nat, result: string, now: int, later: int)

  datatype End = Completed | Raised | Died

  function MarkedFailed(b: Book, k: Key, writes: nat, later: int): (Book, End) {
    if writes == 0 then (b, Died) else (MarkJob(b, k, Failed, later).0, Raised)
  }

  // Once the result is sent: stored and completed in one write.
  function Finishing(running: Book, k: Key, p: Plan): (Book, End)
    requires p.writes > 0
  {
    if p.writes == 1 then (running, Died)
    else
      var done := StoreResult(running, k, p.result, p.later).0;
      if !p.record then MarkedFailed(done, k, p.writes - 2, p.later) else (done, Completed)
  }

  // _execute: running first, the result and completion in one write, failed on any exception.
  function Executed(b: Book, k: Key, p: Plan): (Book, End) {
    if p.writes == 0 then (b, Died)
    else
      var (running, known) := MarkJob(b, k, Running, p.now);
      if !known then (b, Raised)
      else if !p.build || k !in b.requests || !p.send then MarkedFailed(running, k, p.writes - 1, p.later)
      else Finishing(running, k, p)
  }

  // _recover over the pending jobs, in the order the store lists them; the first job that
  // does not complete ends it.
  function Recovered(b: Book, keys: seq<Key>, plan: Key -> Plan): (Book, End)
    decreases |keys|
  {
    if keys == [] then (b, Completed)
    else
      var (b', end) := Executed(b, keys[0], plan(keys[0]));
      if end.Completed? then Recovered(b', keys[1..], plan) else (b', end)
  }

  // One record of the request mailbox: unsigned or invalid, or a request with its fate; and
  // whether the process lives to move the cursor past it.
  datatype Incoming =
    | Ignored(sequence: nat, lives: bool)
    | Asked(sequence: nat, call: Call, replySends: bool, plan: Plan, lives: bool)

  datatype Served = Served(book: Book, cursor: nat, end: End)

  function Moved(b: Book, cursor: nat, x: Incoming): Served {
    if !x.lives then Served(b, cursor, Died)
    else if x.sequence < cursor then Served(b, cursor, Raised)
    else Served(b, x.sequence, Completed)
  }

  // accept_request, then _execute when the request is new or still without a result, then the cursor.
  function ServedOne(b: Book, cursor: nat, x: Incoming, perDid: int, global: int): Served {
    if x.Ignored? then Moved(b, cursor, x)
    else
      var k := (x.call.requester, x.call.id);
      var (b', r) := Reserve(b, x.call, perDid, global);
      if r.IntegrityError? then Served(b', cursor, Raised)
      else if !r.Duplicate? && !x.replySends then Served(b', cursor, Raised)
      else if r.ReservedNew? || (r.Duplicate? && b.requests[k].result.None?) then
        var (b2, end) := Executed(b', k, x.plan);
        if end.Completed? then Moved(b2, cursor, x) else Served(b2, cursor, end)
      else Moved(b', cursor, x)
  }

  function ServedAll(b: Book, cursor: nat, xs: seq<Incoming>, perDid: int, global: int): Served
    decreases |xs|
  {
    if xs == [] then Served(b, cursor, Completed)
    else
      var s := ServedOne(b, cursor, xs[0], perDid, global);
      if s.end.Completed? then ServedAll(s.book, s.cursor, xs[1..], perDid, global) else s
  }

  // ---- what every run keeps ----

  ghost predicate OthersUntouched(b: Book, b': Book, k: Key) {
    && b'.requests.Keys == b.requests.Keys && b'.jobs.Keys == b.jobs.Keys
    && (forall j :: j in b.requests && j != k ==> b'.requests[j] == b.requests[j])
    && (forall j :: j in b.jobs && j != k ==> b'.jobs[j] == b.jobs[j])
  }

  // What working on one job may do to the book.
  ghost predicate Worked(b: Book, b': Book, k: Key) {
    JobInv(b') && Kept(b, b') && OthersUntouched(b, b', k)
  }

  lemma {:induction false} WorkedTransitive(a: Book, b: Book, c: Book, k: Key)
    requires Worked(a, b, k) && Worked(b, c, k)
    ensures Worked(a, c, k)
  {
    KeptTransitive(a, b, c);
  }

  lemma {:induction false} MarkKeeps(b: Book, k: Key, status: JobStatus, now: int)
    requires JobInv(b) && (status.Running? ==> k in b.requests ==> b.requests[k].result.None?)
    requires status.Running? || status.Failed?
    ensures Worked(b, MarkJob(b, k, status, now).0, k) && MarkJob(b, k, status, now).0.requests == b.requests
  {
  }

  lemma {:induction false} StoreKeeps(b: Book, k: Key, result: string, now: int)
    requires JobInv(b) && (k in b.requests ==> b.requests[k].result.None?)
    ensures Worked(b, StoreResult(b, k, result, now).0, k)
  {
  }

  lemma {:induction false} FailingKeeps(b: Book, mid: Book, k: Key, writes: nat, later: int)
    requires Worked(b, mid, k)
    ensures Worked(b, MarkedFailed(mid, k, writes, later).0, k)
  {
    if writes > 0 {
      MarkKeeps(mid, k, Failed, later);
      WorkedTransitive(b, mid, MarkJob(mid, k, Failed, later).0, k);
    }
  }

  lemma {:induction false} FinishingKeeps(b: Book, running: Book, k: Key, p: Plan)
    requires Worked(b, running, k) && p.writes > 0 && (k in running.requests ==> running.requests[k].result.None?)
    ensures Worked(b, Finishing(running, k, p).0, k)
  {
    if p.writes > 1 {
      var done := StoreResult(running, k, p.result, p.later).0;
      StoreKeeps(running, k, p.result, p.later);
      WorkedTransitive(b, running, done, k);
      FailingKeeps(b, done, k, p.writes - 2, p.later);
    }
  }

  lemma {:induction false} NothingWorked(b: Book, k: Key)
    requires JobInv(b)
    ensures Worked(b, b, k)
  {
  }

  // Executing a job that has no result yet.
  lemma {:induction false} ExecuteKeeps(b: Book, k: Key, p: Plan)
    requires JobInv(b) && (k in b.requests ==> b.requests[k].result.None?)
    ensures Worked(b, Executed(b, k, p).0, k)
  {
    NothingWorked(b, k);
    if p.writes > 0 && k in b.jobs {
      var running := MarkJob(b, k, Running, p.now).0;
      MarkKeeps(b, k, Running, p.now);
      if !p.build || k !in b.requests || !p.send {
        FailingKeeps(b, running, k, p.writes - 1, p.later);
      } else {
        FinishingKeeps(b, running, k, p);
      }
    }
  }

  lemma {:induction false} CompletedHasResult(b: Book, k: Key, p: Plan)
    requires Executed(b, k, p).1.Completed?
    ensures var b' := Executed(b, k, p).0;
            k in b'.jobs && b'.jobs[k].status.Complete? && k in b'.requests && b'.requests[k].result == Some(p.result)
  {
  }

  ghost predicate Enumerates(keys: seq<Key>, ks: set<Key>) {
    && (forall k :: k in keys <==> k in ks)
    && (forall i, j :: 0 <= i < j < |keys| ==> keys[i] != keys[j])
  }

  ghost predicate Unanswered(b: Book, keys: seq<Key>) {
    && (forall k :: k in keys ==> k in b.requests ==> b.requests[k].result.None?)
    && (forall i, j :: 0 <= i < j < |keys| ==> keys[i] != keys[j])
  }

  lemma {:induction false} RestUnanswered(b: Book, b': Book, keys: seq<Key>)
    requires keys != [] && Unanswered(b, keys) && OthersUntouched(b, b', keys[0])
    ensures Unanswered(b', keys[1..])
  {
    forall k | k in keys[1..] && k in b'.requests ensures b'.requests[k].result.None? {
      assert k in keys && k != keys[0];
    }
  }

  lemma {:induction false} RecoverKeeps(b: Book, keys: seq<Key>, plan: Key -> Plan)
    requires JobInv(b) && Unanswered(b, keys)
    ensures var (b', end) := Recovered(b, keys, plan); JobInv(b') && Kept(b, b')
    decreases |keys|
  {
    if keys == [] {
    } else {
      var (b', end) := Executed(b, keys[0], plan(keys[0]));
      ExecuteKeeps(b, keys[0], plan(keys[0]));
      if end.Completed? {
        RestUnanswered(b, b', keys);
        RecoverKeeps(b', keys[1..], plan);
        KeptTransitive(b, b', Recovered(b', keys[1..], plan).0);
      }
    }
  }

  // Whether a request is to be executed: it is new, or known and without a result.
  predicate ToExecute(b: Book, c: Call, r: Reservation) {
    r.ReservedNew?
      || (r.Duplicate? && (c.requester, c.id) in b.requests && b.requests[(c.requester, c.id)].result.None?)
  }

  lemma {:induction false} AskedIsUnanswered(b: Book, c: Call, perDid: int, global: int)
    ensures var (b', r) := Reserve(b, c, perDid, global);
            var k := (c.requester, c.id);
            ToExecute(b, c, r) ==> k in b'.requests ==> b'.requests[k].result.None?
  {
  }

  lemma {:induction false} BookServed(b: Book, cursor: nat, x: Incoming, perDid: int, global: int)
    ensures var s := ServedOne(b, cursor, x, perDid, global);
            && s.cursor >= cursor
            && (x.Ignored? ==> s.book == b)
            && (x.Asked? ==>
                  var (b', r) := Reserve(b, x.call, perDid, global);
                  || s.book == b'
                  || (ToExecute(b, x.call, r) && s.book == Executed(b', (x.call.requester, x.call.id), x.plan).0))
  {
  }

  lemma {:induction false} ServeOneKeeps(b: Book, cursor: nat, x: Incoming, perDid: int, global: int)
    requires JobInv(b)
    ensures var s := ServedOne(b, cursor, x, perDid, global);
            JobInv(s.book) && Kept(b, s.book) && s.cursor >= cursor
  {
    BookServed(b, cursor, x, perDid, global);
    if x.Asked? {
      var k := (x.call.requester, x.call.id);
      var (b', r) := Reserve(b, x.call, perDid, global);
      ReserveKeepsJobs(b, x.call, perDid, global);
      if ToExecute(b, x.call, r) {
        AskedIsUnanswered(b, x.call, perDid, global);
        ExecuteKeeps(b', k, x.plan);
        KeptTransitive(b, b', Executed(b', k, x.plan).0);
      }
    }
  }

  lemma {:induction false} ServeAllKeeps(b: Book, cursor: nat, xs: seq<Incoming>, perDid: int, global: int)
    requires JobInv(b)
    ensures var s := ServedAll(b, cursor, xs, perDid, global);
            JobInv(s.book) && Kept(b, s.book) && s.cursor >= cursor
    decreases |xs|
  {
    if xs == [] {
    } else {
      var s := ServedOne(b, cursor, xs[0], perDid, global);
      ServeOneKeeps(b, cursor, xs[0], perDid, global);
      if s.end.Completed? {
        ServeAllKeeps(s.book, s.cursor, xs[1..], perDid, global);
        KeptTransitive(b, s.book, ServedAll(s.book, s.cursor, xs[1..], perDid, global).book);
      }
    }
  }

  // One poll of the pilot or one start-up recovery, either cut off anywhere.
  datatype PilotEvent =
    | Serve(cursor: nat, incoming: seq<Incoming>)
    | Recover(order: seq<Key>, plan: Key -> Plan)

  // A recovery runs over exactly the jobs that are pending when it starts.
  ghost predicate Legal(b: Book, e: PilotEvent) {
    e.Recover? ==> Enumerates(e.order, PendingKeys(b))
  }

  function After(b: Book, e: PilotEvent, perDid: int, global: int): Book {
    match e
    case Serve(cursor, incoming) => ServedAll(b, cursor, incoming, perDid, global).book
    case Recover(order, plan) => Recovered(b, order, plan).0
  }

  function AfterAll(b: Book, es: seq<PilotEvent>, perDid: int, global: int): Book {
    if es == [] then b else After(AfterAll(b, es[..|es| - 1], perDid, global), es[|es| - 1], perDid, global)
  }

  ghost predicate AllLegal(b: Book, es: seq<PilotEvent>, perDid: int, global: int) {
    forall i :: 0 <= i < |es| ==> Legal(AfterAll(b, es[..i], perDid, global), es[i])
  }

  lemma {:induction false} PendingIsUnanswered(b: Book, order: seq<Key>)
    requires JobInv(b) && Enumerates(order, PendingKeys(b))
    ensures Unanswered(b, order)
  {
    forall k | k in order ensures k in PendingKeys(b) { }
  }

  lemma {:induction false} EventKeeps(b: Book, e: PilotEvent, perDid: int, global: int)
    requires JobInv(b) && Legal(b, e)
    ensures JobInv(After(b, e, perDid, global)) && Kept(b, After(b, e, perDid, global))
  {
    match e
    case Serve(cursor, incoming) => ServeAllKeeps(b, cursor, incoming, perDid, global);
    case Recover(order, plan) =>
      PendingIsUnanswered(b, order);
      RecoverKeeps(b, order, plan);
  }

  // In every run from an empty book: every job has its request row, a job accepted or running
  // has no result, a complete job has one; and from any point of the run to any later one no
  // request row is lost and no stored result changes.
  lemma {:induction false} JobLifecycle(es: seq<PilotEvent>, n: nat, perDid: int, global: int)
    requires AllLegal(EMPTY, es, perDid, global) && n <= |es|
    ensures JobInv(AfterAll(EMPTY, es, perDid, global))
    ensures Kept(AfterAll(EMPTY, es[..n], perDid, global), AfterAll(EMPTY, es, perDid, global))
    decreases |es|
  {
    if es == [] {
    } else {
      var front := es[..|es| - 1];
      forall i | 0 <= i < |front| ensures Legal(AfterAll(EMPTY, front[..i], perDid, global), front[i]) {
        assert front[..i] == es[..i];
      }
      var m := if n == |es| then |front| else n;
      JobLifecycle(front, m, perDid, global);
      var b := AfterAll(EMPTY, front, perDid, global);
      EventKeeps(b, es[|es| - 1], perDid, global);
      assert es[..|es|] == es && front[..|front|] == front;
      if n < |es| {
        assert front[..n] == es[..n];
        KeptTransitive(AfterAll(EMPTY, es[..n], perDid, global), b, AfterAll(EMPTY, es, perDid, global));
      }
    }
  }

  ghost predicate GoesRight(p: Plan) {
    p.build && p.send && p.record && p.writes >= 2
  }

  // A job executed without a mishap is complete with its result, and no longer pending.
  lemma {:induction false} OneCompletes(b: Book, k: Key, p: Plan)
    requires JobInv(b) && k in PendingKeys(b) && GoesRight(p)
    ensures var (b', end) := Executed(b, k, p);
            && end.Completed? && Worked(b, b', k) && PendingKeys(b') == PendingKeys(b) - {k}
            && k in b'.requests && b'.requests[k].result == Some(p.result)
  {
    ExecuteKeeps(b, k, p);
    CompletedHasResult(b, k, p);
    var b' := Executed(b, k, p).0;
    forall j ensures j in PendingKeys(b') <==> j in PendingKeys(b) && j != k { }
  }

  ghost predicate ResultsAre(b: Book, keys: seq<Key>, plan: Key -> Plan) {
    forall k :: k in keys ==> k in b.requests && b.requests[k].result == Some(plan(k).result)
  }

  lemma {:induction false} FirstResultStays(b: Book, b': Book, keys: seq<Key>, plan: Key -> Plan)
    requires keys != [] && Kept(b, b') && ResultsAre(b', keys[1..], plan)
    requires keys[0] in b.requests && b.requests[keys[0]].result == Some(plan(keys[0]).result)
    ensures ResultsAre(b', keys, plan)
  {
    forall k | k in keys ensures k in b'.requests && b'.requests[k].result == Some(plan(k).result) {
      assert k == keys[0] || k in keys[1..];
    }
  }

  // A recovery in which nothing goes wrong, in any order: every pending job ends complete
  // with its result, and none is left pending.
  lemma {:induction false} RecoveryCompletes(b: Book, keys: seq<Key>, plan: Key -> Plan)
    requires JobInv(b) && Enumerates(keys, PendingKeys(b))
    requires forall k :: k in keys ==> GoesRight(plan(k))
    ensures var (b', end) := Recovered(b, keys, plan);
            end.Completed? && PendingKeys(b') == {} && ResultsAre(b', keys, plan)
    decreases |keys|
  {
    if keys == [] {
      assert PendingKeys(b) == {};
    } else {
      var k0, rest := keys[0], keys[1..];
      assert k0 in keys;
      OneCompletes(b, k0, plan(k0));
      var b' := Executed(b, k0, plan(k0)).0;
      RestEnumerated(keys, PendingKeys(b));
      RecoveryCompletes(b', rest, plan);
      PendingIsUnanswered(b', rest);
      RecoverKeeps(b', rest, plan);
      FirstResultStays(b', Recovered(b', rest, plan).0, keys, plan);
    }
  }

  lemma {:induction false} RestEnumerated(keys: seq<Key>, ks: set<Key>)
    requires keys != [] && Enumerates(keys, ks)
    ensures Enumerates(keys[1..], ks - {keys[0]}) && forall k :: k in keys[1..] ==> k in keys
  {
    forall k ensures k in keys[1..] <==> k in ks - {keys[0]} {
      assert k in keys <==> k == keys[0] || k in keys[1..];
    }
  }

  // A recovery is that of its first jobs, and ends with them unless they all complete; then it goes on
  // with the others.
  lemma {:induction false} RecoveryInTwo(b: Book, keys: seq<Key>, plan: Key -> Plan, i: nat)
    requires i <= |keys|
    ensures var (mid, end) := Recovered(b, keys[..i], plan);
            Recovered(b, keys, plan) == if end.Completed? then Recovered(mid, keys[i..], plan) else (mid, end)
    ensures i < |keys| ==> Recovered(b, keys[i..i + 1], plan) == Executed(b, keys[i], plan(keys[i]))
    decreases |keys|
  {
    if i < |keys| { assert keys[i..i + 1] == [keys[i]]; }
    if i == 0 {
      assert keys[0..] == keys;
    } else {
      var b' := Executed(b, keys[0], plan(keys[0])).0;
      assert keys[..i][0] == keys[0] && keys[..i][1..] == keys[1..][..i - 1] && keys[1..][i - 1..] == keys[i..];
      RecoveryInTwo(b', keys[1..], plan, i - 1);
    }
  }

  // ---- what one execution and one request come to ----

  ghost predicate JobMarked(b: Book, b': Book, k: Key, status: JobStatus, at: int) {
    b'.requests == b.requests && OthersUntouched(b, b', k)
      && k in b.jobs && k in b'.jobs && b'.jobs[k] == Job(b.jobs[k].requestJson, status, at)
  }

  ghost predicate ResultStored(b: Book, b': Book, k: Key, result: string, status: JobStatus, at: int) {
    OthersUntouched(b, b', k) && k in b'.requests && b'.requests[k].result == Some(result)
      && k in b.jobs && k in b'.jobs && b'.jobs[k] == Job(b.jobs[k].requestJson, status, at)
  }

  // An execution cut off before its first mark has done nothing; one cut off between it and the stored
  // result leaves the job running, so pending, and the next recovery lists it; one that raises
  // leaves it failed, so not pending; only one that got to the result completes it.
  lemma {:induction false} ExecutionEnds(b: Book, k: Key, p: Plan)
    requires k in b.jobs
    ensures var (b', end) := Executed(b, k, p);
            if p.writes == 0 then end == Died && b' == b
            else if p.writes == 1 then end == Died && JobMarked(b, b', k, Running, p.now) && k in PendingKeys(b')
            else if !p.build || !p.send || k !in b.requests then
              end == Raised && JobMarked(b, b', k, Failed, p.later) && k !in PendingKeys(b')
            else if p.record then end == Completed && ResultStored(b, b', k, p.result, Complete, p.later)
            else if p.writes == 2 then end == Died && ResultStored(b, b', k, p.result, Complete, p.later)
            else end == Raised && ResultStored(b, b', k, p.result, Failed, p.later) && k !in PendingKeys(b')
  {
  }

  predicate AllHaveJobs(b: Book) {
    b.requests.Keys == b.jobs.Keys
  }

  // The book has the call's key with its content.
  predicate Known(b: Book, c: Call) {
    (c.requester, c.id) in b.requests && b.requests[(c.requester, c.id)].contentHash == c.contentHash
  }

  // Nothing goes wrong with a record: the process lives, the job runs through, and the reply is sent,
  // which a known request does not get again.
  ghost predicate GoesThrough(b: Book, x: Incoming) {
    x.lives && (x.Asked? ==> x.call.requestJson.Some? && GoesRight(x.plan) && (x.replySends || Known(b, x.call)))
  }

  // A record with which nothing goes wrong is passed.
  lemma {:induction false} PassedRight(b: Book, cursor: nat, x: Incoming, perDid: int, global: int)
    requires JobInv(b) && AllHaveJobs(b) && GoesThrough(b, x) && cursor <= x.sequence
    ensures var s := ServedOne(b, cursor, x, perDid, global);
            s.end == Completed && s.cursor == x.sequence && AllHaveJobs(s.book) && (x.Ignored? ==> s.book == b)
  {
  }

  // And its request, if known with this content and without a result or if newly accepted, is executed
  // and has its result; else the book stays.
  lemma {:induction false} ServedRight(b: Book, cursor: nat, x: Incoming, perDid: int, global: int)
    requires JobInv(b) && AllHaveJobs(b) && GoesThrough(b, x) && x.Asked?
    ensures var k, b' := (x.call.requester, x.call.id), ServedOne(b, cursor, x, perDid, global).book;
            if Known(b, x.call) && b.requests[k].result.None? then
              ResultStored(b, b', k, x.plan.result, Complete, x.plan.later)
            else if Reserve(b, x.call, perDid, global).1 == ReservedNew then
              ResultStored(Reserve(b, x.call, perDid, global).0, b', k, x.plan.result, Complete, x.plan.later)
            else b' == b
  {
    var k, afterwards := (x.call.requester, x.call.id), Reserve(b, x.call, perDid, global).0;
    if k in afterwards.jobs { ExecutionEnds(afterwards, k, x.plan); }
  }

  // A request whose reply cannot be sent is not passed; if it was accepted its job waits.
  lemma {:induction false} UnsentReply(b: Book, cursor: nat, x: Incoming, perDid: int, global: int)
    requires JobInv(b) && x.Asked? && !x.replySends && x.call.requestJson.Some?
    requires !Known(b, x.call)
    ensures var s, k := ServedOne(b, cursor, x, perDid, global), (x.call.requester, x.call.id);
            && s.end == Raised && s.cursor == cursor && s.book == Reserve(b, x.call, perDid, global).0
            && (k !in b.requests && k in s.book.requests ==> k in PendingKeys(s.book))
  {
  }
}
