// The pilot loop (src/rosetta/pilot.py) over the state store and the remote log. What the world
// decides (whether a bundle is built, a send gets through, a record is an opportunity, when the
// process dies) comes in as arguments.
module Pilot {
  import opened Wrappers
  import opened Orders
  import opened Technocore
  import opened Persistence
  import O = Outbound
  import R = Requests
  import G = Engagement
  import J = Jobs
  import P = Polling

  // What a generation-safe read does to a room's cursor, and the records it returns.
  function GenerationSafe(c: Cursor, log: seq<Record>, observed: Option<nat>): (Cursor, seq<Record>) {
    var records := Take(Newer(log, c.sequence), 100);
    match observed
    case None => (c, records)
    case Some(g) =>
      if c.generation.Some? && g != c.generation.value then (Cursor(0, Some(g)), Take(Newer(log, 0), 100))
      else (Cursor(c.sequence, Some(g)), records)
  }

  // A read never carries a cursor into a recreated room: what it returns starts right after
  // the cursor it leaves, which belongs to the observed generation.
  lemma {:induction false} ReadStartsAtCursor(c: Cursor, log: seq<Record>, observed: Option<nat>, n: nat)
    requires Rising(log) && P.At(log, n, GenerationSafe(c, log, observed).0.sequence)
    ensures var (c', records) := GenerationSafe(c, log, observed);
            && records == log[n..P.End(log, n)]
            && (observed.Some? ==> c'.generation == observed)
            && (c'.sequence != c.sequence ==>
                  c'.sequence == 0 && c.generation.Some? && observed.Some? && c.generation != observed)
  {
    P.BoundedRead(log, n, GenerationSafe(c, log, observed).0.sequence, 100);
  }

  // What the pilot posts in slot k.
  function Texts(baseUrl: string): nat -> string {
    (k: nat) => O.ProactiveText(k, baseUrl)
  }

  class PilotRuntime {
    const store: StateStore
    const target: LocalTechnocore

    constructor (store: StateStore, target: LocalTechnocore)
      ensures this.store == store && this.target == target
    {
      this.store, this.target := store, target;
    }

    method MarkFailed(k: R.Key, writes: nat, later: int) returns (end: J.End)
      modifies store`jobs
      ensures (store.Book(), end) == J.MarkedFailed(old(store.Book()), k, writes, later)
    {
      if writes == 0 {
        return J.Died;
      }
      var _ := store.MarkJob(k, R.Failed, later);
      end := J.Raised;
    }

    method Execute(k: R.Key, p: J.Plan) returns (end: J.End)
      modifies store`requests, store`jobs
      ensures (store.Book(), end) == J.Executed(old(store.Book()), k, p)
    {
      if p.writes == 0 {
        return J.Died;
      }
      var known := store.MarkJob(k, R.Running, p.now);
      if !known {
        return J.Raised;
      }
      var status := store.RequestStatus(k);
      if !p.build || status.None? || !p.send {
        end := MarkFailed(k, p.writes - 1, p.later);
        return;
      }
      if p.writes == 1 {
        return J.Died;
      }
      var _ := store.StoreResult(k, p.result, p.later);
      if !p.record {
        end := MarkFailed(k, p.writes - 2, p.later);
        return;
      }
      end := J.Completed;
    }

    // Runs the pending jobs in the order the store lists them.
    method Recover(plan: R.Key -> J.Plan) returns (end: J.End, ghost order: seq<R.Key>)
      modifies store`requests, store`jobs
      ensures J.Enumerates(order, R.PendingKeys(old(store.Book()))) && Sorted(order, R.JobOrder(old(store.jobs)))
      ensures (store.Book(), end) == J.Recovered(old(store.Book()), order, plan)
    {
      var keys := store.PendingJobs();
      order := keys;
      for i := 0 to |keys|
        invariant J.Recovered(old(store.Book()), keys, plan) == J.Recovered(store.Book(), keys[i..], plan)
      {
        assert keys[i..][0] == keys[i] && keys[i..][1..] == keys[i + 1..];
        end := Execute(keys[i], plan(keys[i]));
        if !end.Completed? {
          return;
        }
      }
      end := J.Completed;
    }

    method ServeOne(room: string, x: J.Incoming, perDid: int, global: int) returns (end: J.End)
      modifies store`requests, store`jobs, store`didQuotas, store`globalQuotas, store`roomCursors
      ensures J.Served(store.Book(), store.RoomCheckpoint(room).sequence, end)
           == J.ServedOne(old(store.Book()), old(store.RoomCheckpoint(room)).sequence, x, perDid, global)
    {
      if x.Asked? {
        var k := (x.call.requester, x.call.id);
        var prior := store.RequestStatus(k);
        var r := store.ReserveRequest(x.call, perDid, global);
        if r.IntegrityError? {
          return J.Raised;
        }
        if !r.Duplicate? && !x.replySends {
          return J.Raised;
        }
        if r.ReservedNew? || (r.Duplicate? && prior.value.result.None?) {
          end := Execute(k, x.plan);
          if !end.Completed? {
            return;
          }
        }
      }
      if !x.lives {
        return J.Died;
      }
      var moved := store.AdvanceRoomCursor(room, x.sequence);
      end := if moved then J.Completed else J.Raised;
    }

    method ServeRequests(room: string, incoming: seq<J.Incoming>, perDid: int, global: int) returns (end: J.End)
      modifies store`requests, store`jobs, store`didQuotas, store`globalQuotas, store`roomCursors
      ensures J.Served(store.Book(), store.RoomCheckpoint(room).sequence, end)
           == J.ServedAll(old(store.Book()), old(store.RoomCheckpoint(room)).sequence, incoming, perDid, global)
    {
      ghost var goal := J.ServedAll(store.Book(), store.RoomCheckpoint(room).sequence, incoming, perDid, global);
      for i := 0 to |incoming|
        invariant goal == J.ServedAll(store.Book(), store.RoomCheckpoint(room).sequence, incoming[i..], perDid, global)
      {
        assert incoming[i..][0] == incoming[i] && incoming[i..][1..] == incoming[i + 1..];
        end := ServeOne(room, incoming[i], perDid, global);
        if !end.Completed? {
          return;
        }
      }
      end := J.Completed;
    }

    method ReadGenerationSafe(room: string, observed: Option<nat>) returns (records: seq<Record>)
      modifies store`roomCursors
      ensures (store.RoomCheckpoint(room), records)
           == GenerationSafe(old(store.RoomCheckpoint(room)), Log(target.State(), room), observed)
    {
      var cursor := store.RoomCheckpoint(room);
      var read := target.Read(room, cursor.sequence, 100);
      records := read.value;
      if observed.None? {
        return;
      }
      if cursor.generation.Some? && observed.value != cursor.generation.value {
        store.SetRoomGeneration(room, observed.value, true);
        read := target.Read(room, 0, 100);
        return read.value;
      }
      if cursor.generation.None? {
        store.SetRoomGeneration(room, observed.value, false);
      }
    }

    // The engagement poll of one room whose checkpoint is initialised.
    method PollEngagementRoom(room: string, generation: nat, now: int, s: P.Settings,
                              opportunity: Record -> bool, sends: Record -> bool)
      returns (completed: bool, sent: nat, ghost poll: P.Poll)
      requires room in store.engagementCursors
      modifies store`engagementCursors, store`replies
      ensures poll == P.PolledRoom(old(store.Participation()),
                                   P.Checkpoint(old(store.engagementCursors)[room].0,
                                                old(store.engagementCursors)[room].1),
                                   Log(target.State(), room), generation, room, now, s, opportunity, sends)
      ensures completed == poll.completed && store.Participation() == poll.tables
      ensures completed ==> sent == poll.sent && |store.replies| == |old(store.replies)| + sent
      ensures store.engagementCursors
           == old(store.engagementCursors)[room := (poll.checkpoint.sequence, poll.checkpoint.generation)]
    {
      var (cursor, stored) := store.engagementCursors[room];
      var read := target.Read(room, cursor, 100);
      var records := read.value;
      var last := target.RoomLastSequence(room);
      poll := P.PolledRoom(store.Participation(), P.Checkpoint(cursor, stored), Log(target.State(), room), generation,
                           room, now, s, opportunity, sends);
      var backlog := last as int - cursor as int;
      if generation != stored || backlog > 100 {
        store.SetEngagementCheckpoint(room, last, generation);
        return true, 0, poll;
      }
      P.SentAreReserved(store.Participation(), P.Checkpoint(cursor, stored), records, room, now, s, opportunity, sends);
      completed, sent := HandleRecords(room, generation, records, now, s, opportunity, sends);
    }

    // The records of one batch in order, up to a send that raises.
    method HandleRecords(room: string, generation: nat, records: seq<Record>, now: int, s: P.Settings,
                         opportunity: Record -> bool, sends: Record -> bool)
      returns (completed: bool, sent: nat)
      requires room in store.engagementCursors && store.engagementCursors[room].1 == generation
      modifies store`engagementCursors, store`replies
      ensures var poll := P.Handled(old(store.Participation()),
                                    P.Checkpoint(old(store.engagementCursors)[room].0, generation),
                                    records, room, now, s, opportunity, sends);
              && completed == poll.completed && (completed ==> sent == poll.sent)
              && store.Participation() == poll.tables
              && store.engagementCursors
                 == old(store.engagementCursors)[room := (poll.checkpoint.sequence, poll.checkpoint.generation)]
    {
      ghost var before := store.engagementCursors;
      ghost var poll := P.Handled(store.Participation(), P.Checkpoint(before[room].0, generation), records, room,
                                  now, s, opportunity, sends);
      assert before[room := before[room]] == before;
      sent := 0;
      for i := 0 to |records|
        invariant room in store.engagementCursors && store.engagementCursors[room].1 == generation
        invariant store.engagementCursors == before[room := store.engagementCursors[room]]
        invariant
          var rest := P.Handled(store.Participation(), P.Checkpoint(store.engagementCursors[room].0, generation),
                                records[i..], room, now, s, opportunity, sends);
          && poll.tables == rest.tables && poll.checkpoint == rest.checkpoint
          && poll.completed == rest.completed && (poll.completed ==> poll.sent == sent + rest.sent)
      {
        assert records[i..][0] == records[i] && records[i..][1..] == records[i + 1..];
        var x := records[i];
        if opportunity(x) {
          var d := store.ReserveEngagementReply(G.ReplyKey(room, generation, x.sequence), x.did, now, s.maxPerDay,
                                                s.cooldownHours);
          if (d.Reserved? || d.Existing?) && !sends(x) {
            return false, sent;
          }
          sent := sent + if d.Reserved? then 1 else 0;
        }
        store.SetEngagementCheckpoint(room, x.sequence, generation);
      }
      completed := true;
    }

    // One room of the proactive poll: reserve, and send what is granted.
    method PostTo(room: string, index: nat, now: int, c: G.Campaign, texts: nat -> string,
                  sends: (string, string) -> bool)
      returns (goesOn: bool, isNew: bool)
      requires c.activatedAt <= now
      modifies store`posts
      ensures store.Participation()
           == G.ReservePost(old(store.Participation()), G.PostKey(c.policy, room, G.SlotOf(c, now)), room, now, c).0
      ensures goesOn <==>
                (G.Granted(old(store.Participation()), room, now, c) ==>
                   sends(room, G.PostText(c, now, index, texts)))
      ensures |store.posts| == |old(store.posts)| + if isNew then 1 else 0
    {
      var slot := G.SlotOf(c, now);
      var d := store.ReserveProactivePost(G.PostKey(c.policy, room, slot), room, now, c);
      isNew := d.Reserved?;
      goesOn := if d.Reserved? || d.Existing? then sends(room, texts(slot + index)) else true;
    }

    // The rooms in order, up to a send that raises.
    method PostAll(rooms: seq<string>, now: int, c: G.Campaign, texts: nat -> string, sends: (string, string) -> bool)
      returns (completed: bool, sent: nat, ghost cut: nat)
      requires c.activatedAt <= now
      modifies store`posts
      ensures cut <= |rooms| && store.Participation() == G.Polled(old(store.Participation()), rooms, cut, now, c)
      ensures completed ==> cut == |rooms| && |store.posts| == |old(store.posts)| + sent
      ensures completed ==> G.AllSent(old(store.Participation()), rooms, cut, now, c, texts, sends)
      ensures !completed ==>
                cut > 0 && G.StoppedAt(old(store.Participation()), rooms, cut, now, c, texts, sends)
    {
      ghost var t0 := store.Participation();
      cut, sent := 0, 0;
      for i := 0 to |rooms|
        invariant cut == i
        invariant G.Reached(t0, rooms, i, now, c, texts, sends, store.Participation())
        invariant |store.posts| == |t0.posts| + sent
      {
        ghost var before := store.Participation();
        var goesOn, isNew := PostTo(rooms[i], i, now, c, texts, sends);
        G.PolledNext(t0, rooms, i, now, c, texts, sends, before, store.Participation(), goesOn);
        cut := i + 1;
        if !goesOn {
          return false, sent, cut;
        }
        sent := sent + if isNew then 1 else 0;
      }
      completed := true;
    }

    // The proactive poll; a send that raises cuts it off after the room's reservation.
    method PollProactive(rooms: seq<string>, now: int, c: G.Campaign, baseUrl: string, sends: (string, string) -> bool)
      returns (completed: bool, sent: nat, ghost cut: nat)
      modifies store`posts
      ensures cut <= |rooms| && store.Participation() == G.Polled(old(store.Participation()), rooms, cut, now, c)
      ensures completed ==> cut == |rooms| && |store.posts| == |old(store.posts)| + sent
      ensures now >= c.activatedAt && completed ==>
                G.AllSent(old(store.Participation()), rooms, cut, now, c, Texts(baseUrl), sends)
      ensures !completed ==>
                now >= c.activatedAt && cut > 0
                  && G.StoppedAt(old(store.Participation()), rooms, cut, now, c, Texts(baseUrl), sends)
    {
      if now < c.activatedAt {
        return true, 0, |rooms|;
      }
      completed, sent, cut := PostAll(rooms, now, c, Texts(baseUrl), sends);
    }
  }
}
