// How a request call is answered after any use of the request book
// (src/rosetta/persistence.py:194-252): by the calls accepted before it, the day's rows and the jobs
// that wait.
module RequestAnswers {
  import opened Wrappers
  import opened Requests
  import O = Orders

  // The call numbered i was accepted.
  ghost predicate AcceptedAt(ops: seq<BookOp>, i: nat, perDid: nat, global: nat)
    requires i < |ops|
  {
    ops[i].Reserving?
      && Reserve(AppliedAll(EMPTY, ops[..i], perDid, global), ops[i].call, perDid, global).1 == ReservedNew
  }

  ghost predicate SameKey(c: Call, d: Call) {
    c.requester == d.requester && c.id == d.id
  }

  function CallKey(op: BookOp): Key
    requires op.Reserving?
  {
    (op.call.requester, op.call.id)
  }

  // Every accepted call has its row, with its content.
  ghost predicate CallsHaveRows(b: Book, ops: seq<BookOp>, perDid: nat, global: nat) {
    forall i :: 0 <= i < |ops| && AcceptedAt(ops, i, perDid, global) ==>
      CallKey(ops[i]) in b.requests && b.requests[CallKey(ops[i])].contentHash == ops[i].call.contentHash
  }

  // Every row is that of an accepted call.
  ghost predicate RowsHaveCalls(b: Book, ops: seq<BookOp>, perDid: nat, global: nat) {
    forall k :: k in b.requests ==>
      exists i :: 0 <= i < |ops| && AcceptedAt(ops, i, perDid, global) && CallKey(ops[i]) == k
  }

  predicate JobsHaveRows(b: Book) {
    b.jobs.Keys <= b.requests.Keys
  }

  // One more use keeps the rows and adds that of the call, if it was accepted.
  ghost predicate RowAdded(b: Book, b': Book, op: BookOp, accepted: bool)
    requires accepted ==> op.Reserving?
  {
    && (forall k :: k in b.requests ==> k in b'.requests && b'.requests[k].contentHash == b.requests[k].contentHash)
    && b'.requests.Keys == b.requests.Keys + (if accepted then {CallKey(op)} else {})
    && (accepted ==> b'.requests[CallKey(op)].contentHash == op.call.contentHash)
  }

  lemma {:induction false} RowsAfter(b: Book, op: BookOp, perDid: nat, global: nat)
    requires JobsHaveRows(b)
    ensures JobsHaveRows(Applied(b, op, perDid, global))
    ensures RowAdded(b, Applied(b, op, perDid, global), op,
                     op.Reserving? && Reserve(b, op.call, perDid, global).1 == ReservedNew)
  {
  }

  lemma {:induction false} AcceptedInFront(ops: seq<BookOp>, perDid: nat, global: nat)
    requires ops != []
    ensures var front := ops[..|ops| - 1];
            forall i :: 0 <= i < |front| ==>
              (AcceptedAt(front, i, perDid, global) <==> AcceptedAt(ops, i, perDid, global))
  {
    var front := ops[..|ops| - 1];
    assert forall i :: 0 <= i < |front| ==> front[..i] == ops[..i] && front[i] == ops[i];
  }

  lemma {:induction false} OneMoreCall(b: Book, b': Book, ops: seq<BookOp>, perDid: nat, global: nat)
    requires ops != [] && CallsHaveRows(b, ops[..|ops| - 1], perDid, global)
    requires RowAdded(b, b', ops[|ops| - 1], AcceptedAt(ops, |ops| - 1, perDid, global))
    ensures CallsHaveRows(b', ops, perDid, global)
  {
    var n := |ops| - 1;
    var front := ops[..n];
    AcceptedInFront(ops, perDid, global);
    forall i | 0 <= i < |ops| && AcceptedAt(ops, i, perDid, global)
      ensures CallKey(ops[i]) in b'.requests && b'.requests[CallKey(ops[i])].contentHash == ops[i].call.contentHash
    {
      if i < n {
        assert AcceptedAt(front, i, perDid, global) && front[i] == ops[i];
        assert CallKey(front[i]) in b.requests;
      } else {
        assert CallKey(ops[n]) in b'.requests;
      }
    }
  }

  lemma {:induction false} OneMoreRow(b: Book, b': Book, ops: seq<BookOp>, perDid: nat, global: nat)
    requires ops != [] && RowsHaveCalls(b, ops[..|ops| - 1], perDid, global)
    requires RowAdded(b, b', ops[|ops| - 1], AcceptedAt(ops, |ops| - 1, perDid, global))
    ensures RowsHaveCalls(b', ops, perDid, global)
  {
    var n := |ops| - 1;
    var front := ops[..n];
    AcceptedInFront(ops, perDid, global);
    forall k | k in b'.requests
      ensures exists i :: 0 <= i < |ops| && AcceptedAt(ops, i, perDid, global) && CallKey(ops[i]) == k
    {
      if k in b.requests {
        var i :| 0 <= i < |front| && AcceptedAt(front, i, perDid, global) && CallKey(front[i]) == k;
        assert AcceptedAt(ops, i, perDid, global) && ops[i] == front[i];
      } else {
        assert AcceptedAt(ops, n, perDid, global);
      }
    }
  }

  lemma {:induction false} RowsAreCalls(ops: seq<BookOp>, perDid: nat, global: nat)
    ensures var b := AppliedAll(EMPTY, ops, perDid, global);
            JobsHaveRows(b) && CallsHaveRows(b, ops, perDid, global) && RowsHaveCalls(b, ops, perDid, global)
  {
    if ops == [] {
    } else {
      var n := |ops| - 1;
      var b := AppliedAll(EMPTY, ops[..n], perDid, global);
      RowsAreCalls(ops[..n], perDid, global);
      RowsAfter(b, ops[n], perDid, global);
      OneMoreCall(b, Applied(b, ops[n], perDid, global), ops, perDid, global);
      OneMoreRow(b, Applied(b, ops[n], perDid, global), ops, perDid, global);
    }
  }

  // Once a call was accepted, every later call of its key is answered as a duplicate exactly if it has
  // that call's content, and as a conflict otherwise, whatever the quotas and the queue; neither
  // changes the book.
  lemma {:induction false} KnownCallAnswered(ops: seq<BookOp>, i: nat, c: Call, perDid: nat, global: nat)
    requires i < |ops| && AcceptedAt(ops, i, perDid, global) && SameKey(c, ops[i].call)
    ensures var b := AppliedAll(EMPTY, ops, perDid, global);
            Reserve(b, c, perDid, global)
            == (b, if c.contentHash == ops[i].call.contentHash then Duplicate else Conflict)
  {
    RowsAreCalls(ops, perDid, global);
  }

  // What is in the book of a call that has just been accepted.
  ghost predicate Booked(b: Book, c: Call) {
    var k := (c.requester, c.id);
    && k in b.requests && b.requests[k] == RequestRow(c.contentHash, c.acknowledgement, None, DayOf(c.now))
    && (c.requestJson.Some? ==> k in b.jobs && b.jobs[k] == Job(c.requestJson.value, Accepted, c.now))
  }

  function OpenJobs(b: Book): set<Key> {
    set k | k in b.jobs && (b.jobs[k].status == Accepted || b.jobs[k].status == Running)
  }

  // A new call is refused for the quota exactly if the day's rows, its requester's or all, have
  // reached a limit, is busy exactly if they have not but as many jobs as allowed wait, and is
  // accepted otherwise.
  ghost predicate NewlyAnswered(b: Book, c: Call, perDid: nat, global: nat, b': Book, r: Reservation) {
    if |RowsOf(b, DayOf(c.now), c.requester)| >= perDid || |RowsOn(b, DayOf(c.now))| >= global then
      r == Quota && b' == b
    else if c.maxQueueDepth.Some? && |OpenJobs(b)| >= c.maxQueueDepth.value then r == Busy && b' == b
    else r == ReservedNew && Booked(b', c)
  }

  lemma {:induction false} NewKeyAnswered(b: Book, c: Call, perDid: nat, global: nat)
    requires (c.requester, c.id) !in b.requests && JobsHaveRows(b) && QuotasCountRows(b)
    ensures NewlyAnswered(b, c, perDid, global, Reserve(b, c, perDid, global).0, Reserve(b, c, perDid, global).1)
  {
    assert DidQuota(b, DayOf(c.now), c.requester) == |RowsOf(b, DayOf(c.now), c.requester)|;
    assert GlobalQuota(b, DayOf(c.now)) == |RowsOn(b, DayOf(c.now))|;
    assert PendingKeys(b) == OpenJobs(b);
  }

  // So is every call whose key was never accepted, after any use of the book; it is never an integrity
  // error.
  lemma {:induction false} NewCallAnswered(ops: seq<BookOp>, c: Call, perDid: nat, global: nat)
    requires forall i :: 0 <= i < |ops| && AcceptedAt(ops, i, perDid, global) ==> !SameKey(c, ops[i].call)
    ensures var b := AppliedAll(EMPTY, ops, perDid, global);
            NewlyAnswered(b, c, perDid, global, Reserve(b, c, perDid, global).0, Reserve(b, c, perDid, global).1)
  {
    var b := AppliedAll(EMPTY, ops, perDid, global);
    RowsAreCalls(ops, perDid, global);
    assert (c.requester, c.id) !in b.requests;
    OpsKeepQuotas(ops, perDid, global);
    NewKeyAnswered(b, c, perDid, global);
  }

  // ---- the order of pending jobs ----

  // Listed jobs come by their last update, then their requester, then their id.
  lemma {:induction false} OldestFirst(jobs: map<Key, Job>, keys: seq<Key>, i: nat, j: nat)
    requires O.Sorted(keys, JobOrder(jobs)) && i < j < |keys| && keys[i] in jobs && keys[j] in jobs
    ensures jobs[keys[i]].updatedAt <= jobs[keys[j]].updatedAt
    ensures jobs[keys[i]].updatedAt == jobs[keys[j]].updatedAt ==>
              if keys[i].0 != keys[j].0 then O.StringLe(keys[i].0, keys[j].0) else O.StringLe(keys[i].1, keys[j].1)
  {
    assert JobLe(jobs, keys[i], keys[j]);
  }
}
