// Any interleaving of replies and campaign polls over both tables, and the bounds that holds.
module EngagementBounds {
  import opened Requests
  import opened Engagement
  import opened EngagementReplies
  import opened EngagementCampaign

  datatype Use =
    | Answering(key: ReplyKey, author: string, now: int)
    | Polling(rooms: seq<string>, cut: nat, now: int)

  datatype Limits = Limits(maxPerDay: nat, cooldownHours: nat, campaign: Campaign)

  function Used(t: Tables, u: Use, l: Limits): Tables {
    match u
    case Answering(k, author, now) => ReserveReply(t, k, author, now, l.maxPerDay, l.cooldownHours).0
    case Polling(rooms, cut, now) => if cut <= |rooms| then Polled(t, rooms, cut, now, l.campaign) else t
  }

  function UsedAll(t: Tables, us: seq<Use>, l: Limits): Tables {
    if us == [] then t else Used(UsedAll(t, us[..|us| - 1], l), us[|us| - 1], l)
  }

  lemma {:induction false} UsesKeep(posts: map<string, ProactivePost>, us: seq<Use>, l: Limits)
    ensures var t := UsedAll(Tables(map[], posts), us, l);
            RepliesSpaced(t, l.cooldownHours) && RepliesPerDay(t, l.maxPerDay) && CampaignInv(t, posts.Keys, l.campaign)
  {
    if us == [] {
      var t := Tables(map[], posts);
      assert forall day :: RepliesOn(t, day) == {};
      assert forall room, day :: NewPostsOn(t, posts.Keys, room, day) == {};
    } else {
      var before, u := UsedAll(Tables(map[], posts), us[..|us| - 1], l), us[|us| - 1];
      UsesKeep(posts, us[..|us| - 1], l);
      UseKeeps(before, posts.Keys, u, l);
    }
  }

  lemma {:induction false} UseKeeps(t: Tables, base: set<string>, u: Use, l: Limits)
    requires RepliesSpaced(t, l.cooldownHours) && RepliesPerDay(t, l.maxPerDay) && CampaignInv(t, base, l.campaign)
    ensures var t' := Used(t, u, l);
            RepliesSpaced(t', l.cooldownHours) && RepliesPerDay(t', l.maxPerDay) && CampaignInv(t', base, l.campaign)
  {
    match u
    case Answering(k, author, now) =>
      ReplyKeepsDays(t, k, author, now, l.maxPerDay, l.cooldownHours);
      ReplyKeepsSpacing(t, k, author, now, l.maxPerDay, l.cooldownHours);
      SamePostsSameCampaign(t, Used(t, u, l), base, l.campaign);
    case Polling(rooms, cut, now) =>
      if cut <= |rooms| {
        PollKeepsCampaign(t, base, rooms, cut, now, l.campaign);
        PollKeepsReplies(t, rooms, cut, now, l.campaign);
        SameRepliesSameDays(t, Used(t, u, l), l.maxPerDay);
      }
  }

  lemma {:induction false} SamePostsSameCampaign(t: Tables, t': Tables, base: set<string>, c: Campaign)
    requires CampaignInv(t, base, c) && t'.posts == t.posts
    ensures CampaignInv(t', base, c)
  {
    assert forall room, day :: NewPostsOn(t', base, room, day) == NewPostsOn(t, base, room, day);
  }

  lemma {:induction false} SameRepliesSameDays(t: Tables, t': Tables, maxPerDay: nat)
    requires RepliesPerDay(t, maxPerDay) && t'.replies == t.replies
    ensures RepliesPerDay(t', maxPerDay)
  {
    assert forall day :: RepliesOn(t', day) == RepliesOn(t, day);
  }

  // Two replies to one author lie more than seven days apart, two in one room more than the
  // cooldown apart, and no UTC day holds more than its maximum, whatever the clocks did.
  lemma {:induction false} RepliesBounded(posts: map<string, ProactivePost>, us: seq<Use>, l: Limits, j: ReplyKey,
                                          k: ReplyKey, day: int)
    requires var t := UsedAll(Tables(map[], posts), us, l); j in t.replies && k in t.replies && j != k
    ensures var t := UsedAll(Tables(map[], posts), us, l);
            && (t.replies[j].author == t.replies[k].author ==>
                  Apart(t.replies[j].createdAt, t.replies[k].createdAt, 7 * DAY))
            && (j.room == k.room ==> Apart(t.replies[j].createdAt, t.replies[k].createdAt, l.cooldownHours * HOUR))
            && |RepliesOn(t, day)| <= l.maxPerDay
  {
    UsesKeep(posts, us, l);
  }

  // No more keys than slots when no two keys share a slot.
  lemma {:induction false} AtMostSlots(keys: set<string>, slotOf: map<string, int>, n: nat)
    requires forall k :: k in keys ==> k in slotOf && 0 <= slotOf[k] < n
    requires forall j, k :: j in keys && k in keys && slotOf[j] == slotOf[k] ==> j == k
    ensures |keys| <= n
  {
    if n == 0 {
      assert keys == {};
    } else if k :| k in keys && slotOf[k] == n - 1 {
      AtMostSlots(keys - {k}, slotOf, n - 1);
    } else {
      AtMostSlots(keys, slotOf, n - 1);
    }
  }

  lemma {:induction false} SlotInRange(c: Campaign, now: int)
    requires c.activatedAt <= now < c.activatedAt + c.days * DAY
    ensures 0 <= SlotOf(c, now) < 4 * c.days
  {
  }

  // Over any run, one campaign adds at most four posts per campaign day to a room (28 in
  // seven days), at most its maximum per room and UTC day, each inside the window, and each at
  // least the minimum interval from every other post of its room, old or new.
  lemma {:induction false} CampaignBounded(posts: map<string, ProactivePost>, us: seq<Use>, l: Limits, room: string,
                                           day: int)
    ensures var t, c := UsedAll(Tables(map[], posts), us, l), l.campaign;
            var added := NewPosts(t, posts.Keys, room);
            && |added| <= 4 * c.days
            && |NewPostsOn(t, posts.Keys, room, day)| <= c.maxPerRoomPerDay
            && (forall k :: k in added ==> c.activatedAt <= t.posts[k].createdAt < c.activatedAt + c.days * DAY)
            && (forall j, k :: j in added && k in t.posts && t.posts[k].room == room && j != k ==>
                  || t.posts[j].createdAt - t.posts[k].createdAt >= c.minIntervalHours * HOUR
                  || t.posts[k].createdAt - t.posts[j].createdAt >= c.minIntervalHours * HOUR)
  {
    var t, c := UsedAll(Tables(map[], posts), us, l), l.campaign;
    var added := NewPosts(t, posts.Keys, room);
    UsesKeep(posts, us, l);
    var slotOf := map k | k in added :: SlotOf(c, t.posts[k].createdAt);
    forall k | k in added ensures 0 <= slotOf[k] < 4 * c.days {
      SlotInRange(c, t.posts[k].createdAt);
    }
    AtMostSlots(added, slotOf, 4 * c.days);
  }
}
