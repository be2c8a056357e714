// The durable state store (src/rosetta/persistence.py). Each method is one transaction.
module Persistence {
  import opened Wrappers
  import opened Signer
  import opened DeliveryProtocol
  import O = Orders
  import R = Requests
  import G = Engagement

  datatype Cursor = Cursor(sequence: nat, generation: Option<nat>)

  class StateStore {
    var requests: map<R.Key, R.RequestRow>
    var jobs: map<R.Key, R.Job>
    var didQuotas: map<(int, string), nat>
    var globalQuotas: map<int, nat>
    var roomCursors: map<string, Cursor>
    var deliveries: map<string, Row>
    var engagementCursors: map<string, (nat, nat)>
    var replies: map<G.ReplyKey, G.Reply>
    var posts: map<string, G.ProactivePost>

    constructor ()
      ensures Book() == R.EMPTY && Participation() == G.Tables(map[], map[])
      ensures deliveries == map[] && roomCursors == map[] && engagementCursors == map[]
    {
      requests, jobs, didQuotas, globalQuotas := map[], map[], map[], map[];
      roomCursors, deliveries, engagementCursors, replies, posts := map[], map[], map[], map[], map[];
    }

    function Book(): R.Book
      reads this`requests, this`jobs, this`didQuotas, this`globalQuotas
    {
      R.Book(requests, jobs, didQuotas, globalQuotas)
    }

    function Participation(): G.Tables
      reads this`replies, this`posts
    {
      G.Tables(replies, posts)
    }

    // ---- requests ----

    method ReserveRequest(c: R.Call, perDid: int, global: int) returns (r: R.Reservation)
      modifies this`requests, this`jobs, this`didQuotas, this`globalQuotas
      ensures (Book(), r) == R.Reserve(old(Book()), c, perDid, global)
    {
      var k, day := (c.requester, c.id), R.DayOf(c.now);
      if k in requests {
        return if requests[k].contentHash == c.contentHash then R.Duplicate else R.Conflict;
      }
      var didCount := if (day, c.requester) in didQuotas then didQuotas[(day, c.requester)] else 0;
      var globalCount := if day in globalQuotas then globalQuotas[day] else 0;
      if didCount >= perDid || globalCount >= global {
        return R.Quota;
      }
      if c.maxQueueDepth.Some? {
        var queued := |set j | j in jobs && R.IsPending(jobs[j])|;
        assert queued == |R.PendingKeys(Book())|;
        if queued >= c.maxQueueDepth.value {
          return R.Busy;
        }
      }
      if c.requestJson.Some? && k in jobs {
        return R.IntegrityError;
      }
      requests := requests[k := R.RequestRow(c.contentHash, c.acknowledgement, None, day)];
      if c.requestJson.Some? {
        jobs := jobs[k := R.Job(c.requestJson.value, R.Accepted, c.now)];
      }
      didQuotas := didQuotas[(day, c.requester) := didCount + 1];
      globalQuotas := globalQuotas[day := globalCount + 1];
      r := R.ReservedNew;
    }

    method RequestStatus(k: R.Key) returns (r: Option<R.RequestRow>)
      ensures r == if k in requests then Some(requests[k]) else None
    {
      r := if k in requests then Some(requests[k]) else None;
    }

    method StoreResult(k: R.Key, result: string, now: int) returns (ok: bool)
      modifies this`requests, this`jobs
      ensures (Book(), ok) == R.StoreResult(old(Book()), k, result, now)
    {
      if k !in requests {
        return false;
      }
      requests := requests[k := requests[k].(result := Some(result))];
      if k in jobs {
        jobs := jobs[k := jobs[k].(status := R.Complete, updatedAt := now)];
      }
      ok := true;
    }

    method MarkJob(k: R.Key, status: R.JobStatus, now: int) returns (ok: bool)
      modifies this`jobs
      ensures (Book(), ok) == R.MarkJob(old(Book()), k, status, now)
    {
      if k !in jobs {
        return false;
      }
      jobs := jobs[k := jobs[k].(status := status, updatedAt := now)];
      ok := true;
    }

    // Every pending job once, in the order they are listed in.
    method PendingJobs() returns (ks: seq<R.Key>)
      ensures forall k :: k in ks <==> k in R.PendingKeys(Book())
      ensures forall i, j :: 0 <= i < j < |ks| ==> ks[i] != ks[j]
      ensures O.Sorted(ks, R.JobOrder(jobs))
    {
      ks := [];
      var left := set k | k in jobs && R.IsPending(jobs[k]);
      assert left == R.PendingKeys(Book());
      while left != {}
        invariant forall k :: k in R.PendingKeys(Book()) <==> k in ks || k in left
        invariant forall k :: k in ks ==> k !in left
        invariant forall i, j :: 0 <= i < j < |ks| ==> ks[i] != ks[j]
        decreases left
      {
        var k :| k in left;
        ks := ks + [k];
        left := left - {k};
      }
      ghost var found := ks;
      assert forall k :: k in found <==> k in R.PendingKeys(Book());
      ks := O.Sort(ks, R.JobOrder(jobs));
      R.JobOrderIsTotal(jobs);
      O.SortSorts(found, R.JobOrder(jobs));
      O.SortedDistinct(found, ks);
      forall k ensures k in ks <==> k in found { assert k in multiset(ks) <==> k in multiset(found); }
    }

    // ---- cursors ----

    function RoomCheckpoint(room: string): Cursor
      reads this`roomCursors
    {
      if room in roomCursors then roomCursors[room] else Cursor(0, None)
    }

    method SetRoomGeneration(room: string, generation: nat, reset: bool)
      modifies this`roomCursors
      ensures roomCursors == old(roomCursors)[room :=
                Cursor(if reset then 0 else old(RoomCheckpoint(room)).sequence, Some(generation))]
    {
      var sequence := if reset then 0 else RoomCheckpoint(room).sequence;
      roomCursors := roomCursors[room := Cursor(sequence, Some(generation))];
    }

    // A cursor never moves backwards, and moving it keeps the room's generation.
    method AdvanceRoomCursor(room: string, sequence: nat) returns (ok: bool)
      modifies this`roomCursors
      ensures ok <==> sequence >= old(RoomCheckpoint(room)).sequence
      ensures roomCursors ==
                if ok then old(roomCursors)[room := Cursor(sequence, old(RoomCheckpoint(room)).generation)]
                else old(roomCursors)
    {
      var cursor := RoomCheckpoint(room);
      if sequence < cursor.sequence {
        return false;
      }
      var latest := if cursor.sequence > sequence then cursor.sequence else sequence;
      roomCursors := roomCursors[room := Cursor(latest, cursor.generation)];
      ok := true;
    }

    method SetEngagementCheckpoint(room: string, sequence: nat, generation: nat)
      modifies this`engagementCursors
      ensures engagementCursors == old(engagementCursors)[room := (sequence, generation)]
    {
      engagementCursors := engagementCursors[room := (sequence, generation)];
    }

    // ---- participation ----

    method ReserveEngagementReply(k: G.ReplyKey, author: string, now: int, maxPerDay: nat, cooldownHours: nat)
      returns (d: G.Decision)
      modifies this`replies
      ensures (Participation(), d) == G.ReserveReply(old(Participation()), k, author, now, maxPerDay, cooldownHours)
    {
      if k in replies {
        return if replies[k].author == author then G.Existing else G.Mismatch;
      }
      var today := set j | j in replies && replies[j].createdAt >= G.DayStart(now);
      assert today == G.RepliesSince(Participation(), G.DayStart(now));
      var lastAuthor := exists j :: j in replies && replies[j].author == author
                                    && replies[j].createdAt >= now - 7 * R.DAY;
      var lastRoom := exists j :: j in replies && j.room == k.room
                                  && replies[j].createdAt >= now - cooldownHours * R.HOUR;
      if |today| >= maxPerDay || lastAuthor || lastRoom {
        return G.OverQuota;
      }
      replies := replies[k := G.Reply(author, now)];
      d := G.Reserved;
    }

    method ReserveProactivePost(key: string, room: string, now: int, c: G.Campaign) returns (d: G.Decision)
      modifies this`posts
      ensures (Participation(), d) == G.ReservePost(old(Participation()), key, room, now, c)
    {
      if now < c.activatedAt || now >= c.activatedAt + c.days * R.DAY {
        return G.Inactive;
      }
      if key in posts {
        return G.Existing;
      }
      var dayStart := G.DayStart(now);
      var today := set j | j in posts && posts[j].room == room && dayStart <= posts[j].createdAt < dayStart + R.DAY;
      assert today == G.PostsWithin(Participation(), room, dayStart, dayStart + R.DAY);
      var recentSince := now - c.minIntervalHours * R.HOUR;
      var recentReply := exists j :: j in replies && j.room == room && replies[j].createdAt > recentSince;
      var recentPost := exists j :: j in posts && posts[j].room == room && posts[j].createdAt > recentSince;
      if |today| >= c.maxPerRoomPerDay || recentReply || recentPost {
        return G.OverQuota;
      }
      posts := posts[key := G.ProactivePost(room, now)];
      d := G.Reserved;
    }

    // ---- deliveries ----

    method Delivery(key: string) returns (r: Option<Row>)
      ensures r == if key in deliveries then Some(deliveries[key]) else None
    {
      r := if key in deliveries then Some(deliveries[key]) else None;
    }

    // An INSERT: a key that is already there is an integrity error.
    method PrepareDelivery(key: string, actor: string, room: string, did: string, nonce: nat, text: string,
                           signature: Signature) returns (ok: bool)
      modifies this`deliveries
      ensures ok <==> key !in old(deliveries)
      ensures deliveries ==
                if ok then old(deliveries)[key := Row(actor, room, did, nonce, text, signature, Prepared, None)]
                else old(deliveries)
    {
      if key in deliveries {
        return false;
      }
      deliveries := deliveries[key := Row(actor, room, did, nonce, text, signature, Prepared, None)];
      ok := true;
    }

    method ConfirmDelivery(key: string, sequence: nat) returns (ok: bool)
      modifies this`deliveries
      ensures ok <==> key in old(deliveries)
      ensures deliveries ==
                if ok then old(deliveries)[key := old(deliveries)[key].(status := Confirmed,
                    sequence := Some(sequence))]
                else old(deliveries)
    {
      if key !in deliveries {
        return false;
      }
      deliveries := deliveries[key := deliveries[key].(status := Confirmed, sequence := Some(sequence))];
      ok := true;
    }
  }
}
