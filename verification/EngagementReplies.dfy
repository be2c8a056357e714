// The bounds on replies: per author, per room and per day, under any clock
// (src/rosetta/persistence.py:350-398).
module EngagementReplies {
  import opened Requests
  import opened Engagement

  function RepliesOn(t: Tables, day: int): set<ReplyKey> {
    set k | k in t.replies && DayOf(t.replies[k].createdAt) == day
  }

  ghost predicate RepliesSpaced(t: Tables, cooldownHours: nat) {
    forall j, k :: j in t.replies && k in t.replies && j != k ==>
      && (t.replies[j].author == t.replies[k].author ==> Apart(t.replies[j].createdAt, t.replies[k].createdAt, 7 * DAY))
      && (j.room == k.room ==> Apart(t.replies[j].createdAt, t.replies[k].createdAt, cooldownHours * HOUR))
  }

  ghost predicate RepliesPerDay(t: Tables, maxPerDay: nat) {
    forall day :: |RepliesOn(t, day)| <= maxPerDay
  }

  lemma {:induction false} SameDayIsSince(now: int, t: int)
    requires DayOf(t) == DayOf(now)
    ensures t >= DayStart(now)
  {
  }

  lemma {:induction false} SubsetCard<T>(a: set<T>, b: set<T>)
    requires a <= b
    ensures |a| <= |b|
  {
    assert b == a + (b - a);
  }

  lemma {:induction false} ReplyKeepsDays(t: Tables, k: ReplyKey, author: string, now: int, maxPerDay: nat,
                                          cooldownHours: nat)
    requires RepliesPerDay(t, maxPerDay)
    ensures RepliesPerDay(ReserveReply(t, k, author, now, maxPerDay, cooldownHours).0, maxPerDay)
  {
    var (t', d) := ReserveReply(t, k, author, now, maxPerDay, cooldownHours);
    if d == Reserved {
      forall day ensures |RepliesOn(t', day)| <= maxPerDay {
        if day == DayOf(now) {
          assert RepliesOn(t', day) == RepliesOn(t, day) + {k};
          forall j | j in RepliesOn(t, day) ensures j in RepliesSince(t, DayStart(now)) {
            SameDayIsSince(now, t.replies[j].createdAt);
          }
          SubsetCard(RepliesOn(t, day), RepliesSince(t, DayStart(now)));
        } else {
          assert RepliesOn(t', day) == RepliesOn(t, day);
        }
      }
    }
  }

  lemma {:induction false} ReplyKeepsSpacing(t: Tables, k: ReplyKey, author: string, now: int, maxPerDay: nat,
                                             cooldownHours: nat)
    requires RepliesSpaced(t, cooldownHours)
    ensures RepliesSpaced(ReserveReply(t, k, author, now, maxPerDay, cooldownHours).0, cooldownHours)
  {
  }
}
