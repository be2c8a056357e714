// The request book of the state store (src/rosetta/persistence.py:194-300): request rows,
// jobs, and the two daily quota tables. Times are microseconds since the epoch, in UTC.
module Requests {
  import opened Wrappers
  import O = Orders

  const HOUR: int := 3_600_000_000
  const DAY: int := 24 * HOUR

  function DayOf(t: int): int {
    t / DAY
  }

  type Key = (string, string)

  datatype RequestRow = RequestRow(contentHash: string, acknowledgement: string, result: Option<string>, day: int)

  datatype JobStatus = Accepted | Running | Complete | Failed

  datatype Job = Job(requestJson: string, status: JobStatus, updatedAt: int)

  datatype Book = Book(
    requests: map<Key, RequestRow>,
    jobs: map<Key, Job>,
    didQuotas: map<(int, string), nat>,
    globalQuotas: map<int, nat>)

  const EMPTY: Book := Book(map[], map[], map[], map[])

  datatype Reservation = ReservedNew | Duplicate | Conflict | Quota | Busy | IntegrityError

  datatype Call = Call(requester: string, id: string, contentHash: string, acknowledgement: string, now: int,
                       requestJson: Option<string>, maxQueueDepth: Option<nat>)

  function DidQuota(b: Book, day: int, did: string): nat {
    if (day, did) in b.didQuotas then b.didQuotas[(day, did)] else 0
  }

  function GlobalQuota(b: Book, day: int): nat {
    if day in b.globalQuotas then b.globalQuotas[day] else 0
  }

  predicate IsPending(job: Job) {
    job.status.Accepted? || job.status.Running?
  }

  function PendingKeys(b: Book): set<Key> {
    set k | k in b.jobs && IsPending(b.jobs[k])
  }

  // The order jobs are listed in: by last update, then requester, then request.
  predicate JobLe(jobs: map<Key, Job>, a: Key, b: Key) {
    var s, t := UpdatedAt(jobs, a), UpdatedAt(jobs, b);
    s < t || (s == t && O.PairLe(a, b))
  }

  function UpdatedAt(jobs: map<Key, Job>, k: Key): int {
    if k in jobs then jobs[k].updatedAt else 0
  }

  function JobOrder(jobs: map<Key, Job>): (Key, Key) -> bool {
    (a, b) => JobLe(jobs, a, b)
  }

  lemma {:induction false} JobOrderIsTotal(jobs: map<Key, Job>)
    ensures O.TotalOrder(JobOrder(jobs))
  {
    O.PairLeIsTotalOrder();
    var le := JobOrder(jobs);
    forall x, y, z | le(x, y) && le(y, z) ensures le(x, z) {
      assert O.PairLe(x, y) && O.PairLe(y, z) ==> O.PairLe(x, z);
    }
    forall x, y ensures le(x, y) || le(y, x) {
      assert O.PairLe(x, y) || O.PairLe(y, x);
    }
    forall x, y | le(x, y) && le(y, x) ensures x == y {
      assert O.PairLe(x, y) && O.PairLe(y, x);
    }
    forall x ensures le(x, x) { assert O.PairLe(x, x); }
  }

  // reserve_request, as one transaction.
  function Reserve(b: Book, c: Call, perDid: int, global: int): (Book, Reservation) {
    var k, day := (c.requester, c.id), DayOf(c.now);
    if k in b.requests then (b, if b.requests[k].contentHash == c.contentHash then Duplicate else Conflict)
    else if DidQuota(b, day, c.requester) >= perDid || GlobalQuota(b, day) >= global then (b, Quota)
    else if c.maxQueueDepth.Some? && |PendingKeys(b)| >= c.maxQueueDepth.value then (b, Busy)
    else if c.requestJson.Some? && k in b.jobs then (b, IntegrityError)
    else
      (Book(b.requests[k := RequestRow(c.contentHash, c.acknowledgement, None, day)],
            if c.requestJson.Some? then b.jobs[k := Job(c.requestJson.value, Accepted, c.now)] else b.jobs,
            b.didQuotas[(day, c.requester) := DidQuota(b, day, c.requester) + 1],
            b.globalQuotas[day := GlobalQuota(b, day) + 1]),
       ReservedNew)
  }

  // store_result: the result and the job's completion in one transaction.
  function StoreResult(b: Book, k: Key, result: string, now: int): (Book, bool) {
    if k !in b.requests then (b, false)
    else
      (b.(requests := b.requests[k := b.requests[k].(result := Some(result))],
          jobs := if k in b.jobs then b.jobs[k := b.jobs[k].(status := Complete, updatedAt := now)] else b.jobs),
       true)
  }

  function MarkJob(b: Book, k: Key, status: JobStatus, now: int): (Book, bool) {
    if k !in b.jobs then (b, false)
    else (b.(jobs := b.jobs[k := b.jobs[k].(status := status, updatedAt := now)]), true)
  }

  // ---- conservation of the quotas ----

  function RowsOn(b: Book, day: int): set<Key> {
    set k | k in b.requests && b.requests[k].day == day
  }

  function RowsOf(b: Book, day: int, did: string): set<Key> {
    set k | k in b.requests && b.requests[k].day == day && k.0 == did
  }

  ghost predicate QuotasCountRows(b: Book) {
    && (forall day, did :: DidQuota(b, day, did) == |RowsOf(b, day, did)|)
    && (forall day :: GlobalQuota(b, day) == |RowsOn(b, day)|)
  }

  ghost predicate WithinLimits(b: Book, perDid: nat, global: nat) {
    && (forall day, did :: DidQuota(b, day, did) <= perDid)
    && (forall day :: GlobalQuota(b, day) <= global)
  }

  lemma {:induction false} RowsOfAfterInsert(b: Book, b': Book, k: Key, row: RequestRow, day: int, did: string)
    requires k !in b.requests && b'.requests == b.requests[k := row]
    ensures |RowsOf(b', day, did)| == |RowsOf(b, day, did)| + (if row.day == day && k.0 == did then 1 else 0)
  {
    if row.day == day && k.0 == did {
      assert RowsOf(b', day, did) == RowsOf(b, day, did) + {k};
    } else {
      assert RowsOf(b', day, did) == RowsOf(b, day, did);
    }
  }

  lemma {:induction false} RowsOnAfterInsert(b: Book, b': Book, k: Key, row: RequestRow, day: int)
    requires k !in b.requests && b'.requests == b.requests[k := row]
    ensures |RowsOn(b', day)| == |RowsOn(b, day)| + (if row.day == day then 1 else 0)
  {
    if row.day == day {
      assert RowsOn(b', day) == RowsOn(b, day) + {k};
    } else {
      assert RowsOn(b', day) == RowsOn(b, day);
    }
  }

  lemma {:induction false} InsertKeepsCounts(b: Book, b': Book, k: Key, row: RequestRow)
    requires QuotasCountRows(b) && k !in b.requests && b'.requests == b.requests[k := row]
    requires b'.didQuotas == b.didQuotas[(row.day, k.0) := DidQuota(b, row.day, k.0) + 1]
    requires b'.globalQuotas == b.globalQuotas[row.day := GlobalQuota(b, row.day) + 1]
    ensures QuotasCountRows(b')
  {
    forall day, did ensures DidQuota(b', day, did) == |RowsOf(b', day, did)| {
      RowsOfAfterInsert(b, b', k, row, day, did);
    }
    forall day ensures GlobalQuota(b', day) == |RowsOn(b', day)| {
      RowsOnAfterInsert(b, b', k, row, day);
    }
  }

  lemma {:induction false} ReserveKeepsCounts(b: Book, c: Call, perDid: int, global: int)
    requires QuotasCountRows(b)
    ensures QuotasCountRows(Reserve(b, c, perDid, global).0)
  {
    var (b', r) := Reserve(b, c, perDid, global);
    var k := (c.requester, c.id);
    if r == ReservedNew { InsertKeepsCounts(b, b', k, b'.requests[k]); }
  }

  lemma {:induction false} SameRowsSameCounts(b: Book, b': Book)
    requires QuotasCountRows(b) && b'.didQuotas == b.didQuotas && b'.globalQuotas == b.globalQuotas
    requires b'.requests.Keys == b.requests.Keys && forall k :: k in b.requests ==>
               b'.requests[k].day == b.requests[k].day
    ensures QuotasCountRows(b')
  {
    forall day, did ensures DidQuota(b', day, did) == |RowsOf(b', day, did)| {
      assert RowsOf(b', day, did) == RowsOf(b, day, did);
    }
    forall day ensures GlobalQuota(b', day) == |RowsOn(b', day)| {
      assert RowsOn(b', day) == RowsOn(b, day);
    }
  }

  // The sum of one day's per-DID counts over a set of DIDs.
  ghost function SumOver(b: Book, day: int, dids: set<string>): nat {
    if dids == {} then 0 else
      var did :| did in dids;
      DidQuota(b, day, did) + SumOver(b, day, dids - {did})
  }

  function RowsAmong(b: Book, day: int, dids: set<string>): set<Key> {
    set k | k in b.requests && b.requests[k].day == day && k.0 in dids
  }

  lemma {:induction false} SumCountsRows(b: Book, day: int, dids: set<string>)
    requires QuotasCountRows(b)
    ensures SumOver(b, day, dids) == |RowsAmong(b, day, dids)|
  {
    if dids == {} {
      assert RowsAmong(b, day, dids) == {};
    } else {
      var did :| did in dids && SumOver(b, day, dids) == DidQuota(b, day, did) + SumOver(b, day, dids - {did});
      SumCountsRows(b, day, dids - {did});
      RowsSplitByDid(b, day, dids, did);
    }
  }

  lemma {:induction false} RowsSplitByDid(b: Book, day: int, dids: set<string>, did: string)
    requires did in dids
    ensures |RowsAmong(b, day, dids)| == |RowsOf(b, day, did)| + |RowsAmong(b, day, dids - {did})|
  {
    assert RowsAmong(b, day, dids) == RowsOf(b, day, did) + RowsAmong(b, day, dids - {did});
    assert RowsOf(b, day, did) !! RowsAmong(b, day, dids - {did});
  }

  function Requesters(b: Book): set<string> {
    set k | k in b.requests :: k.0
  }

  // ---- any use of the book ----

  datatype BookOp =
    | Reserving(call: Call)
    | Storing(key: Key, result: string, now: int)
    | Marking(key: Key, status: JobStatus, now: int)

  function Applied(b: Book, op: BookOp, perDid: nat, global: nat): Book {
    match op
    case Reserving(c) => Reserve(b, c, perDid, global).0
    case Storing(k, result, now) => StoreResult(b, k, result, now).0
    case Marking(k, status, now) => MarkJob(b, k, status, now).0
  }

  function AppliedAll(b: Book, ops: seq<BookOp>, perDid: nat, global: nat): Book {
    if ops == [] then b else Applied(AppliedAll(b, ops[..|ops| - 1], perDid, global), ops[|ops| - 1], perDid, global)
  }

  // How many of the calls on a day were accepted.
  function AcceptedOn(ops: seq<BookOp>, perDid: nat, global: nat, day: int): nat {
    if ops == [] then 0
    else
      var front, op := ops[..|ops| - 1], ops[|ops| - 1];
      AcceptedOn(front, perDid, global, day)
      + if op.Reserving? && DayOf(op.call.now) == day
           && Reserve(AppliedAll(EMPTY, front, perDid, global), op.call, perDid, global).1 == ReservedNew then 1 else 0
  }

  lemma {:induction false} ReserveKeepsLimits(b: Book, c: Call, perDid: nat, global: nat)
    requires WithinLimits(b, perDid, global)
    ensures WithinLimits(Reserve(b, c, perDid, global).0, perDid, global)
  {
    var b' := Reserve(b, c, perDid, global).0;
    forall day, did ensures DidQuota(b', day, did) <= perDid {
      assert DidQuota(b, day, did) <= perDid;
    }
    forall day ensures GlobalQuota(b', day) <= global {
      assert GlobalQuota(b, day) <= global;
    }
  }

  lemma {:induction false} SameQuotasSameLimits(b: Book, b': Book, perDid: nat, global: nat)
    requires WithinLimits(b, perDid, global) && b'.didQuotas == b.didQuotas && b'.globalQuotas == b.globalQuotas
    ensures WithinLimits(b', perDid, global)
  {
    assert forall day, did :: DidQuota(b', day, did) == DidQuota(b, day, did);
    assert forall day :: GlobalQuota(b', day) == GlobalQuota(b, day);
  }

  // A call that is not accepted leaves all four tables as they were.
  predicate OnlyIfAccepted(ops: seq<BookOp>, i: nat, perDid: nat, global: nat)
    requires i < |ops| && ops[i].Reserving?
  {
    var before := AppliedAll(EMPTY, ops[..i], perDid, global);
    Reserve(before, ops[i].call, perDid, global).1 != ReservedNew ==>
      AppliedAll(EMPTY, ops[..i + 1], perDid, global) == before
  }

  lemma {:induction false} OpsKeepQuotas(ops: seq<BookOp>, perDid: nat, global: nat)
    ensures QuotasCountRows(AppliedAll(EMPTY, ops, perDid, global))
    ensures WithinLimits(AppliedAll(EMPTY, ops, perDid, global), perDid, global)
    ensures forall i :: 0 <= i < |ops| && ops[i].Reserving? ==> OnlyIfAccepted(ops, i, perDid, global)
  {
    forall i | 0 <= i < |ops| && ops[i].Reserving? ensures OnlyIfAccepted(ops, i, perDid, global) {
      assert ops[..i + 1][..i] == ops[..i];
    }
    if ops == [] {
      assert forall day, did :: RowsOf(EMPTY, day, did) == {};
      assert forall day :: RowsOn(EMPTY, day) == {};
    } else {
      var before, op := AppliedAll(EMPTY, ops[..|ops| - 1], perDid, global), ops[|ops| - 1];
      OpsKeepQuotas(ops[..|ops| - 1], perDid, global);
      if op.Reserving? {
        ReserveKeepsCounts(before, op.call, perDid, global);
        ReserveKeepsLimits(before, op.call, perDid, global);
      } else {
        SameRowsSameCounts(before, Applied(before, op, perDid, global));
        SameQuotasSameLimits(before, Applied(before, op, perDid, global), perDid, global);
      }
    }
  }

  lemma {:induction false} RowsAreAccepted(ops: seq<BookOp>, perDid: nat, global: nat, day: int)
    ensures GlobalQuota(AppliedAll(EMPTY, ops, perDid, global), day) == AcceptedOn(ops, perDid, global, day)
  {
    if ops == [] {
    } else {
      RowsAreAccepted(ops[..|ops| - 1], perDid, global, day);
    }
  }

  // After any use of the book from empty, on every day the global count is the number of calls
  // accepted, of that day's rows and the sum of the per-DID counts, and no count exceeds its limit.
  lemma {:induction false} QuotaConservation(ops: seq<BookOp>, perDid: nat, global: nat, day: int, did: string)
    ensures var b := AppliedAll(EMPTY, ops, perDid, global);
            && GlobalQuota(b, day) == |RowsOn(b, day)| == SumOver(b, day, Requesters(b)) <= global
            && GlobalQuota(b, day) == AcceptedOn(ops, perDid, global, day)
            && DidQuota(b, day, did) == |RowsOf(b, day, did)| <= perDid
  {
    var b := AppliedAll(EMPTY, ops, perDid, global);
    OpsKeepQuotas(ops, perDid, global);
    RowsAreAccepted(ops, perDid, global, day);
    SumCountsRows(b, day, Requesters(b));
    assert RowsAmong(b, day, Requesters(b)) == RowsOn(b, day);
  }

  // ---- the life of a job ----

  ghost predicate JobInv(b: Book) {
    && b.jobs.Keys <= b.requests.Keys
    && forall k :: k in b.jobs ==>
         && (IsPending(b.jobs[k]) ==> b.requests[k].result.None?)
         && (b.jobs[k].status.Complete? ==> b.requests[k].result.Some?)
  }

  // Request rows are never dropped or rewritten, and a stored result never changes.
  ghost predicate Kept(b: Book, b': Book) {
    forall k :: k in b.requests ==>
      && k in b'.requests
      && b'.requests[k].contentHash == b.requests[k].contentHash
      && b'.requests[k].acknowledgement == b.requests[k].acknowledgement
      && b'.requests[k].day == b.requests[k].day
      && (b.requests[k].result.Some? ==> b'.requests[k].result == b.requests[k].result)
  }

  lemma {:induction false} KeptTransitive(a: Book, b: Book, c: Book)
    requires Kept(a, b) && Kept(b, c)
    ensures Kept(a, c)
  {
  }

  lemma {:induction false} ReserveKeepsJobs(b: Book, c: Call, perDid: int, global: int)
    requires JobInv(b)
    ensures var (b', r) := Reserve(b, c, perDid, global); JobInv(b') && Kept(b, b') && r != IntegrityError
  {
  }
}
