// What a campaign keeps: its window, its slots, its spacing and its daily maximum
// (src/rosetta/persistence.py:400-452, src/rosetta/pilot.py:928-963).
module EngagementCampaign {
  import opened Requests
  import opened Engagement
  import opened EngagementReplies

  // The posts a campaign has added to the table it found.
  function NewPosts(t: Tables, base: set<string>, room: string): set<string> {
    set k | k in t.posts && k !in base && t.posts[k].room == room
  }

  function NewPostsOn(t: Tables, base: set<string>, room: string, day: int): set<string> {
    set k | k in t.posts && k !in base && t.posts[k].room == room && DayOf(t.posts[k].createdAt) == day
  }

  // New posts lie in the window and are filed under the key of their room and slot.
  ghost predicate PostsInWindow(t: Tables, base: set<string>, c: Campaign) {
    forall k :: k in t.posts && k !in base ==>
      && c.activatedAt <= t.posts[k].createdAt < c.activatedAt + c.days * DAY
      && k == PostKey(c.policy, t.posts[k].room, SlotOf(c, t.posts[k].createdAt))
  }

  ghost predicate PostsSpaced(t: Tables, base: set<string>, c: Campaign) {
    forall j, k :: j in t.posts && k in t.posts && j != k && !(j in base && k in base)
                    && t.posts[j].room == t.posts[k].room ==>
      Apart(t.posts[j].createdAt, t.posts[k].createdAt, c.minIntervalHours * HOUR - 1)
  }

  ghost predicate PostsPerDay(t: Tables, base: set<string>, c: Campaign) {
    forall room, day :: |NewPostsOn(t, base, room, day)| <= c.maxPerRoomPerDay
  }

  ghost predicate CampaignInv(t: Tables, base: set<string>, c: Campaign) {
    && (forall k :: k in base ==> k in t.posts)
    && PostsInWindow(t, base, c) && PostsSpaced(t, base, c) && PostsPerDay(t, base, c)
  }

  lemma {:induction false} DayIsWithin(now: int, t: int)
    requires DayOf(t) == DayOf(now)
    ensures DayStart(now) <= t < DayStart(now) + DAY
  {
  }

  lemma {:induction false} NewPostsAfterInsert(t: Tables, base: set<string>, key: string, post: ProactivePost,
                                               r: string, day: int)
    requires key !in t.posts
    ensures NewPostsOn(t.(posts := t.posts[key := post]), base, r, day)
         == NewPostsOn(t, base, r, day)
            + (if key !in base && post.room == r && DayOf(post.createdAt) == day then {key} else {})
  {
  }

  lemma {:induction false} TodaysPostsAreWithin(t: Tables, base: set<string>, room: string, now: int)
    ensures |NewPostsOn(t, base, room, DayOf(now))| <= |PostsWithin(t, room, DayStart(now), DayStart(now) + DAY)|
  {
    var within := PostsWithin(t, room, DayStart(now), DayStart(now) + DAY);
    forall k | k in NewPostsOn(t, base, room, DayOf(now)) ensures k in within {
      DayIsWithin(now, t.posts[k].createdAt);
    }
    SubsetCard(NewPostsOn(t, base, room, DayOf(now)), within);
  }

  lemma {:induction false} PostKeepsDays(t: Tables, base: set<string>, key: string, room: string, now: int, c: Campaign)
    requires PostsPerDay(t, base, c)
    ensures PostsPerDay(ReservePost(t, key, room, now, c).0, base, c)
  {
    var (t', d) := ReservePost(t, key, room, now, c);
    if d == Reserved {
      forall r, day ensures |NewPostsOn(t', base, r, day)| <= c.maxPerRoomPerDay {
        assert |NewPostsOn(t, base, r, day)| <= c.maxPerRoomPerDay;
        NewPostsAfterInsert(t, base, key, ProactivePost(room, now), r, day);
        TodaysPostsAreWithin(t, base, room, now);
      }
    }
  }

  lemma {:induction false} PostKeepsSpacing(t: Tables, base: set<string>, key: string, room: string, now: int,
                                            c: Campaign)
    requires PostsSpaced(t, base, c)
    ensures PostsSpaced(ReservePost(t, key, room, now, c).0, base, c)
  {
    var (t', d) := ReservePost(t, key, room, now, c);
    if d == Reserved {
      forall j | j in t.posts && t.posts[j].room == room
        ensures j != key && Apart(now, t.posts[j].createdAt, c.minIntervalHours * HOUR - 1)
      {
      }
    }
  }

  lemma {:induction false} PostKeepsWindow(t: Tables, base: set<string>, key: string, room: string, now: int,
                                           c: Campaign)
    requires PostsInWindow(t, base, c) && c.activatedAt <= now && key == PostKey(c.policy, room, SlotOf(c, now))
    ensures PostsInWindow(ReservePost(t, key, room, now, c).0, base, c)
  {
  }

  lemma {:induction false} PostKeepsCampaign(t: Tables, base: set<string>, key: string, room: string, now: int,
                                             c: Campaign)
    requires CampaignInv(t, base, c) && c.activatedAt <= now && key == PostKey(c.policy, room, SlotOf(c, now))
    ensures CampaignInv(ReservePost(t, key, room, now, c).0, base, c)
  {
    PostKeepsDays(t, base, key, room, now, c);
    PostKeepsSpacing(t, base, key, room, now, c);
    PostKeepsWindow(t, base, key, room, now, c);
  }

  lemma {:induction false} PollKeepsReplies(t: Tables, rooms: seq<string>, n: nat, now: int, c: Campaign)
    requires n <= |rooms|
    ensures Polled(t, rooms, n, now, c).replies == t.replies
  {
    if n == 0 || now < c.activatedAt {
    } else {
      PollKeepsReplies(t, rooms, n - 1, now, c);
    }
  }

  lemma {:induction false} PollKeepsCampaign(t: Tables, base: set<string>, rooms: seq<string>, n: nat, now: int,
                                             c: Campaign)
    requires CampaignInv(t, base, c) && n <= |rooms|
    ensures CampaignInv(Polled(t, rooms, n, now, c), base, c)
  {
    if n == 0 || now < c.activatedAt {
    } else {
      var before, key := Polled(t, rooms, n - 1, now, c), PostKey(c.policy, rooms[n - 1], SlotOf(c, now));
      PollKeepsCampaign(t, base, rooms, n - 1, now, c);
      PostKeepsCampaign(before, base, key, rooms[n - 1], now, c);
      assert Polled(t, rooms, n, now, c) == ReservePost(before, key, rooms[n - 1], now, c).0;
    }
  }

  // ---- what a poll does to one room, exactly ----

  ghost predicate InWindow(now: int, c: Campaign) {
    c.activatedAt <= now && now - c.activatedAt < c.days * DAY
  }

  // A post is free: fewer than the maximum in the room on this day, and no reply or post in the room
  // within the interval.
  ghost predicate PostFree(t: Tables, room: string, now: int, c: Campaign) {
    && |set k | k in t.posts && t.posts[k].room == room && DayOf(t.posts[k].createdAt) == DayOf(now)|
       < c.maxPerRoomPerDay
    && (forall k :: k in t.replies && k.room == room ==>
          t.replies[k].createdAt <= now - c.minIntervalHours * HOUR)
    && (forall k :: k in t.posts && t.posts[k].room == room ==>
          t.posts[k].createdAt <= now - c.minIntervalHours * HOUR)
  }

  lemma {:induction false} TodaysPosts(t: Tables, room: string, now: int)
    ensures PostsWithin(t, room, DayStart(now), DayStart(now) + DAY)
         == set k | k in t.posts && t.posts[k].room == room && DayOf(t.posts[k].createdAt) == DayOf(now)
  {
    forall k | k in t.posts
      ensures DayStart(now) <= t.posts[k].createdAt < DayStart(now) + DAY
         <==> DayOf(t.posts[k].createdAt) == DayOf(now)
    {
      SameDay(now, t.posts[k].createdAt);
    }
  }

  lemma {:induction false} SameDay(now: int, t: int)
    ensures DayStart(now) <= t < DayStart(now) + DAY <==> DayOf(t) == DayOf(now)
  {
  }

  // A poll comes to each room in turn: in the window, a slot of the room that is new gains its row
  // exactly if a post is free, and it is sent exactly if its row is there, new or old; outside
  // the window nothing is gained and nothing is sent. The text is that of the slot's number and the room's.
  lemma {:induction false} OneRoomPolled(t: Tables, rooms: seq<string>, n: nat, now: int, c: Campaign,
                                         texts: nat -> string)
    requires n < |rooms|
    ensures now < c.activatedAt ==> Polled(t, rooms, n + 1, now, c) == t
    ensures c.activatedAt <= now ==>
              var before, room := Polled(t, rooms, n, now, c), rooms[n];
              var key := PostKey(c.policy, room, (now - c.activatedAt) / (6 * HOUR));
              && Polled(t, rooms, n + 1, now, c)
                 == (if InWindow(now, c) && key !in before.posts && PostFree(before, room, now, c)
                     then before.(posts := before.posts[key := ProactivePost(room, now)]) else before)
              && (Granted(before, room, now, c)
                  <==> InWindow(now, c) && (key in before.posts || PostFree(before, room, now, c)))
              && PostText(c, now, n, texts) == texts((now - c.activatedAt) / (6 * HOUR) + n)
  {
    TodaysPosts(Polled(t, rooms, n, now, c), rooms[n], now);
  }
}
