// Bounded participation: the reply and proactive-post tables of the state store
// (src/rosetta/persistence.py:350-452) and the campaign loop that fills the second
// (src/rosetta/pilot.py:928-963). Clocks are arbitrary; they may jump backwards.
module Engagement {
  import opened Wrappers
  import opened Canonical
  import opened Requests

  datatype ReplyKey = ReplyKey(room: string, generation: int, sequence: int)

  datatype Reply = Reply(author: string, createdAt: int)

  datatype ProactivePost = ProactivePost(room: string, createdAt: int)

  datatype Tables = Tables(replies: map<ReplyKey, Reply>, posts: map<string, ProactivePost>)

  datatype Decision = Reserved | Existing | Mismatch | OverQuota | Inactive

  function DayStart(t: int): int {
    DayOf(t) * DAY
  }

  function RepliesSince(t: Tables, from: int): set<ReplyKey> {
    set k | k in t.replies && t.replies[k].createdAt >= from
  }

  // reserve_engagement_reply, as one transaction.
  function ReserveReply(t: Tables, k: ReplyKey, author: string, now: int, maxPerDay: nat,
                        cooldownHours: nat): (Tables, Decision)
  {
    if k in t.replies then (t, if t.replies[k].author == author then Existing else Mismatch)
    else if || |RepliesSince(t, DayStart(now))| >= maxPerDay
            || (exists j :: j in t.replies && t.replies[j].author == author && t.replies[j].createdAt >= now - 7 * DAY)
            || (exists j :: j in t.replies && j.room == k.room && t.replies[j].createdAt >= now - cooldownHours * HOUR)
    then (t, OverQuota)
    else (t.(replies := t.replies[k := Reply(author, now)]), Reserved)
  }

  function PostsWithin(t: Tables, room: string, from: int, to: int): set<string> {
    set k | k in t.posts && t.posts[k].room == room && from <= t.posts[k].createdAt < to
  }

  datatype Campaign = Campaign(policy: string, activatedAt: int, days: nat, maxPerRoomPerDay: nat,
                               minIntervalHours: nat)

  // reserve_proactive_post, as one transaction.
  function ReservePost(t: Tables, key: string, room: string, now: int, c: Campaign): (Tables, Decision) {
    if now < c.activatedAt || now >= c.activatedAt + c.days * DAY then (t, Inactive)
    else if key in t.posts then (t, Existing)
    else if || |PostsWithin(t, room, DayStart(now), DayStart(now) + DAY)| >= c.maxPerRoomPerDay
            || (exists j :: j in t.replies && j.room == room
                            && t.replies[j].createdAt > now - c.minIntervalHours * HOUR)
            || (exists j :: j in t.posts && t.posts[j].room == room
                            && t.posts[j].createdAt > now - c.minIntervalHours * HOUR)
    then (t, OverQuota)
    else (t.(posts := t.posts[key := ProactivePost(room, now)]), Reserved)
  }

  predicate Apart(a: int, b: int, gap: int) {
    a - b > gap || b - a > gap
  }

  // ---- the proactive campaign ----

  const SLOT: int := 6 * HOUR

  function SlotText(slot: nat): string {
    if slot == 0 then "0" else Decimal(slot)
  }

  const PROACTIVE_PREFIX: string := "engagement:proactive:"

  function PostKey(policy: string, room: string, slot: nat): string {
    PROACTIVE_PREFIX + policy + ":" + room + ":" + SlotText(slot)
  }

  function SlotOf(c: Campaign, now: int): int {
    (now - c.activatedAt) / SLOT
  }

  // The room's reservation of this slot is there, new or old.
  predicate Granted(t: Tables, room: string, now: int, c: Campaign)
    requires c.activatedAt <= now
  {
    var d := ReservePost(t, PostKey(c.policy, room, SlotOf(c, now)), room, now, c).1;
    d.Reserved? || d.Existing?
  }

  // One poll over the rooms, cut off after the first n of them.
  function Polled(t: Tables, rooms: seq<string>, n: nat, now: int, c: Campaign): Tables
    requires n <= |rooms|
  {
    if n == 0 || now < c.activatedAt then t
    else
      var before := Polled(t, rooms, n - 1, now, c);
      ReservePost(before, PostKey(c.policy, rooms[n - 1], SlotOf(c, now)), rooms[n - 1], now, c).0
  }

  // What a poll posts to its room number i.
  function PostText(c: Campaign, now: int, i: nat, texts: nat -> string): string
    requires c.activatedAt <= now
  {
    texts(SlotOf(c, now) + i)
  }

  // In the first n rooms of a poll, every granted reservation was sent.
  predicate AllSent(t: Tables, rooms: seq<string>, n: nat, now: int, c: Campaign, texts: nat -> string,
                    sends: (string, string) -> bool)
    requires n <= |rooms| && c.activatedAt <= now
  {
    n == 0
    || (AllSent(t, rooms, n - 1, now, c, texts, sends)
        && (Granted(Polled(t, rooms, n - 1, now, c), rooms[n - 1], now, c)
            ==> sends(rooms[n - 1], PostText(c, now, n - 1, texts))))
  }

  // The poll came to its first n rooms and the send to the last of them raised.
  predicate StoppedAt(t: Tables, rooms: seq<string>, n: nat, now: int, c: Campaign, texts: nat -> string,
                      sends: (string, string) -> bool)
    requires 0 < n <= |rooms| && c.activatedAt <= now
  {
    && AllSent(t, rooms, n - 1, now, c, texts, sends)
    && Granted(Polled(t, rooms, n - 1, now, c), rooms[n - 1], now, c)
    && !sends(rooms[n - 1], PostText(c, now, n - 1, texts))
  }

  // The tables after a poll's first n rooms, all granted reservations sent.
  predicate Reached(t: Tables, rooms: seq<string>, n: nat, now: int, c: Campaign, texts: nat -> string,
                    sends: (string, string) -> bool, after: Tables)
    requires n <= |rooms| && c.activatedAt <= now
  {
    after == Polled(t, rooms, n, now, c) && AllSent(t, rooms, n, now, c, texts, sends)
  }

  // One more room: reserved, and sent if granted.
  lemma {:induction false} PolledNext(t: Tables, rooms: seq<string>, n: nat, now: int, c: Campaign,
                                      texts: nat -> string, sends: (string, string) -> bool, before: Tables,
                                      after: Tables, goesOn: bool)
    requires n < |rooms| && c.activatedAt <= now && Reached(t, rooms, n, now, c, texts, sends, before)
    requires after == ReservePost(before, PostKey(c.policy, rooms[n], SlotOf(c, now)), rooms[n], now, c).0
    requires goesOn <==> (Granted(before, rooms[n], now, c) ==> sends(rooms[n], PostText(c, now, n, texts)))
    ensures if goesOn then Reached(t, rooms, n + 1, now, c, texts, sends, after)
            else after == Polled(t, rooms, n + 1, now, c) && StoppedAt(t, rooms, n + 1, now, c, texts, sends)
  {
  }
}
