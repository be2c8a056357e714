// The windows of the two participation tables as the store computes them, on texts
// (src/rosetta/persistence.py:350-452): bounds are times moved back or cut to midnight, rows are
// compared with them as text. The decisions are those of the tables with integer times.
module StoredTimes {
  import opened Orders
  import opened Requests
  import opened Engagement
  import opened IsoTime

  // ---- days and their starts ----

  function Midnight(t: DateTime): DateTime {
    t.(hour := 0, minute := 0, second := 0, micro := 0)
  }

  // The time of day.
  function Clock(t: DateTime): nat {
    ((t.hour * 60 + t.minute) * 60 + t.second) * 1_000_000 + t.micro
  }

  lemma {:induction false} InstantInDay(t: DateTime)
    requires Valid(t)
    ensures Clock(t) < DAY && Instant(t) == DayNumber(t) * DAY + Clock(t)
  {
  }

  lemma {:induction false} MidnightIsDayStart(t: DateTime)
    requires Valid(t)
    ensures Valid(Midnight(t)) && DayOf(Instant(t)) == DayNumber(t) && Instant(Midnight(t)) == DayStart(Instant(t))
  {
    InstantInDay(t);
    InstantInDay(Midnight(t));
    assert DayNumber(Midnight(t)) == DayNumber(t);
  }

  // ---- every instant of the calendar has its time ----

  lemma {:induction false} YearAt(day: nat, last: nat) returns (year: nat)
    requires 0 < day <= DaysBeforeYear(last + 1) && last >= 1
    ensures 1 <= year <= last && DaysBeforeYear(year) < day <= DaysBeforeYear(year + 1)
    decreases last
  {
    if last == 1 || day > DaysBeforeYear(last) {
      year := last;
    } else {
      year := YearAt(day, last - 1);
    }
  }

  lemma {:induction false} MonthAt(year: nat, day: nat, last: nat) returns (month: nat)
    requires 0 < day <= DaysBeforeMonth(year, last + 1) && last >= 1
    ensures 1 <= month <= last && DaysBeforeMonth(year, month) < day <= DaysBeforeMonth(year, month + 1)
    decreases last
  {
    if last == 1 || day > DaysBeforeMonth(year, last) {
      month := last;
    } else {
      month := MonthAt(year, day, last - 1);
    }
  }

  lemma {:induction false} DateAt(day: nat, years: nat) returns (t: DateTime)
    requires 1 <= years <= 9999 && 0 < day <= DaysBeforeYear(years + 1)
    ensures Valid(t) && Midnight(t) == t && DayNumber(t) == day
  {
    var year := YearAt(day, years);
    YearLength(year);
    MonthStep(year, 12);
    assert DaysBeforeYear(year + 1) == DaysBeforeYear(year) + if Leap(year) then 366 else 365;
    var month := MonthAt(year, day - DaysBeforeYear(year), 12);
    MonthStep(year, month);
    t := DateTime(year, month, day - DaysBeforeYear(year) - DaysBeforeMonth(year, month), 0, 0, 0, 0);
  }

  lemma {:induction false} ClockAt(clock: nat) returns (hour: nat, minute: nat, second: nat, micro: nat)
    requires clock < DAY
    ensures hour < 24 && minute < 60 && second < 60 && micro < 1_000_000
    ensures clock == ((hour * 60 + minute) * 60 + second) * 1_000_000 + micro
  {
    hour, minute := clock / 3_600_000_000, clock / 60_000_000 % 60;
    second, micro := clock / 1_000_000 % 60, clock % 1_000_000;
  }

  lemma {:induction false} TimeAt(instant: nat, years: nat) returns (t: DateTime)
    requires 1 <= years <= 9999 && DAY <= instant < (DaysBeforeYear(years + 1) + 1) * DAY
    ensures Valid(t) && Instant(t) == instant
  {
    var date := DateAt(instant / DAY, years);
    var hour, minute, second, micro := ClockAt(instant % DAY);
    t := date.(hour := hour, minute := minute, second := second, micro := micro);
    InstantInDay(t);
    assert DayNumber(t) == DayNumber(date);
  }

  lemma {:induction false} DayInCalendar(t: DateTime, years: nat)
    requires Valid(t) && t.year <= years
    ensures 0 < DayNumber(t) <= DaysBeforeYear(years + 1)
  {
    YearsPass(t.year, years + 1);
    YearLength(t.year);
    if t.month < 12 { MonthsPass(t.year, t.month, 12); }
  }

  lemma {:induction false} InCalendar(t: DateTime, years: nat)
    requires Valid(t) && t.year <= years
    ensures DAY <= Instant(t) < (DaysBeforeYear(years + 1) + 1) * DAY
  {
    DayInCalendar(t, years);
    InstantInDay(t);
    assert DAY <= DayNumber(t) * DAY <= DaysBeforeYear(years + 1) * DAY;
  }

  // The times are the instants from the first of January of year 1 to the end of year 9999, so moving
  // a time back gives a time exactly while it stays there.
  lemma {:induction false} TimesAreTheCalendar(instant: nat, years: nat)
    requires years == 9999
    ensures (exists t :: Valid(t) && Instant(t) == instant) <==>
              DAY <= instant < (DaysBeforeYear(years + 1) + 1) * DAY
  {
    if t :| Valid(t) && Instant(t) == instant { InCalendar(t, years); }
    if DAY <= instant < (DaysBeforeYear(years + 1) + 1) * DAY { var t := TimeAt(instant, years); }
  }

  // ---- the tables as they are stored ----

  datatype StoredReply = StoredReply(author: string, createdAt: string)

  datatype StoredPost = StoredPost(room: string, createdAt: string)

  // A stored time is the text of a time at this instant.
  ghost predicate Stamps(text: string, instant: int) {
    exists t :: Valid(t) && IsoFormat(t) == text && Instant(t) == instant
  }

  ghost predicate StoresReplies(rows: map<ReplyKey, StoredReply>, t: Tables) {
    && rows.Keys == t.replies.Keys
    && forall k :: k in rows ==>
         rows[k].author == t.replies[k].author && Stamps(rows[k].createdAt, t.replies[k].createdAt)
  }

  ghost predicate StoresPosts(rows: map<string, StoredPost>, t: Tables) {
    && rows.Keys == t.posts.Keys
    && forall k :: k in rows ==> rows[k].room == t.posts[k].room && Stamps(rows[k].createdAt, t.posts[k].createdAt)
  }

  predicate NotBefore(text: string, bound: DateTime) {
    StringLe(IsoFormat(bound), text)
  }

  predicate After(text: string, bound: DateTime) {
    !StringLe(text, IsoFormat(bound))
  }

  // A comparison of texts is the comparison of their instants.
  lemma {:induction false} ComparesAsTime(text: string, instant: int, bound: DateTime)
    requires Stamps(text, instant) && Valid(bound)
    ensures NotBefore(text, bound) <==> instant >= Instant(bound)
    ensures After(text, bound) <==> instant > Instant(bound)
  {
    var t :| Valid(t) && IsoFormat(t) == text && Instant(t) == instant;
    IsoOrderIsTime(bound, t);
    IsoOrderIsTime(t, bound);
  }

  // ---- replies ----

  // Over a limit, by the rows as stored; the two moved bounds are given.
  predicate StoredReplyOver(rows: map<ReplyKey, StoredReply>, k: ReplyKey, author: string, now: DateTime,
                            weekAgo: DateTime, cooldownAgo: DateTime, maxPerDay: nat)
  {
    || |set j | j in rows && NotBefore(rows[j].createdAt, Midnight(now))| >= maxPerDay
    || (exists j :: j in rows && rows[j].author == author && NotBefore(rows[j].createdAt, weekAgo))
    || (exists j :: j in rows && j.room == k.room && NotBefore(rows[j].createdAt, cooldownAgo))
  }

  // The transaction on the stored rows.
  function StoredReserveReply(rows: map<ReplyKey, StoredReply>, k: ReplyKey, author: string, now: DateTime,
                              weekAgo: DateTime, cooldownAgo: DateTime, maxPerDay: nat)
    : (map<ReplyKey, StoredReply>, Decision)
  {
    if k in rows then (rows, if rows[k].author == author then Existing else Mismatch)
    else if StoredReplyOver(rows, k, author, now, weekAgo, cooldownAgo, maxPerDay) then (rows, OverQuota)
    else (rows[k := StoredReply(author, IsoFormat(now))], Reserved)
  }

  // The same by times.
  predicate ReplyOver(t: Tables, k: ReplyKey, author: string, now: int, maxPerDay: nat, cooldownHours: nat) {
    || |RepliesSince(t, DayStart(now))| >= maxPerDay
    || (exists j :: j in t.replies && t.replies[j].author == author && t.replies[j].createdAt >= now - 7 * DAY)
    || (exists j :: j in t.replies && j.room == k.room && t.replies[j].createdAt >= now - cooldownHours * HOUR)
  }

  lemma {:induction false} ReserveReplyByOver(t: Tables, k: ReplyKey, author: string, now: int, maxPerDay: nat,
                                              cooldownHours: nat)
    requires k !in t.replies
    ensures ReserveReply(t, k, author, now, maxPerDay, cooldownHours) ==
            if ReplyOver(t, k, author, now, maxPerDay, cooldownHours) then (t, OverQuota)
            else (t.(replies := t.replies[k := Reply(author, now)]), Reserved)
  {
  }

  lemma {:induction false} ReplyWindow(rows: map<ReplyKey, StoredReply>, t: Tables, bound: DateTime)
    requires StoresReplies(rows, t) && Valid(bound)
    ensures forall k :: k in rows ==>
              (NotBefore(rows[k].createdAt, bound) <==> t.replies[k].createdAt >= Instant(bound))
    ensures forall k :: k in rows ==> (After(rows[k].createdAt, bound) <==> t.replies[k].createdAt > Instant(bound))
  {
    forall k | k in rows
      ensures NotBefore(rows[k].createdAt, bound) <==> t.replies[k].createdAt >= Instant(bound)
      ensures After(rows[k].createdAt, bound) <==> t.replies[k].createdAt > Instant(bound)
    {
      ComparesAsTime(rows[k].createdAt, t.replies[k].createdAt, bound);
    }
  }

  lemma {:induction false} ReplyDayCount(rows: map<ReplyKey, StoredReply>, t: Tables, now: DateTime)
    requires StoresReplies(rows, t) && Valid(now)
    ensures (set j | j in rows && NotBefore(rows[j].createdAt, Midnight(now)))
            == RepliesSince(t, DayStart(Instant(now)))
  {
    MidnightIsDayStart(now);
    ReplyWindow(rows, t, Midnight(now));
  }

  lemma {:induction false} ReplyQuotas(rows: map<ReplyKey, StoredReply>, t: Tables, k: ReplyKey, author: string,
                                       now: DateTime, weekAgo: DateTime, cooldownAgo: DateTime, cooldownHours: nat)
    requires StoresReplies(rows, t) && Valid(now) && Valid(weekAgo) && Valid(cooldownAgo)
    requires Instant(weekAgo) == Instant(now) - 7 * DAY && Instant(cooldownAgo) == Instant(now) - cooldownHours * HOUR
    ensures (exists j :: j in rows && rows[j].author == author && NotBefore(rows[j].createdAt, weekAgo)) <==>
              exists j :: j in t.replies && t.replies[j].author == author
                && t.replies[j].createdAt >= Instant(now) - 7 * DAY
    ensures (exists j :: j in rows && j.room == k.room && NotBefore(rows[j].createdAt, cooldownAgo)) <==>
              exists j :: j in t.replies && j.room == k.room
                          && t.replies[j].createdAt >= Instant(now) - cooldownHours * HOUR
  {
    ReplyWindow(rows, t, weekAgo);
    ReplyWindow(rows, t, cooldownAgo);
  }

  lemma {:induction false} ReplyInserted(rows: map<ReplyKey, StoredReply>, t: Tables, k: ReplyKey, author: string,
                                         now: DateTime)
    requires StoresReplies(rows, t) && Valid(now) && k !in rows
    ensures StoresReplies(rows[k := StoredReply(author, IsoFormat(now))],
                          t.(replies := t.replies[k := Reply(author, Instant(now))]))
  {
    assert Stamps(IsoFormat(now), Instant(now));
  }

  lemma {:induction false} SameReplyOver(rows: map<ReplyKey, StoredReply>, t: Tables, k: ReplyKey, author: string,
                                         now: DateTime, weekAgo: DateTime, cooldownAgo: DateTime, maxPerDay: nat,
                                         cooldownHours: nat)
    requires StoresReplies(rows, t) && Valid(now) && Valid(weekAgo) && Valid(cooldownAgo)
    requires Instant(weekAgo) == Instant(now) - 7 * DAY && Instant(cooldownAgo) == Instant(now) - cooldownHours * HOUR
    ensures StoredReplyOver(rows, k, author, now, weekAgo, cooldownAgo, maxPerDay) <==>
              ReplyOver(t, k, author, Instant(now), maxPerDay, cooldownHours)
  {
    ReplyDayCount(rows, t, now);
    ReplyQuotas(rows, t, k, author, now, weekAgo, cooldownAgo, cooldownHours);
  }

  // On stored texts the reply transaction decides and writes what it does on times.
  lemma {:induction false} RepliesAsTimes(rows: map<ReplyKey, StoredReply>, t: Tables, k: ReplyKey, author: string,
                                          now: DateTime, weekAgo: DateTime, cooldownAgo: DateTime, maxPerDay: nat,
                                          cooldownHours: nat)
    requires StoresReplies(rows, t) && Valid(now) && Valid(weekAgo) && Valid(cooldownAgo)
    requires Instant(weekAgo) == Instant(now) - 7 * DAY && Instant(cooldownAgo) == Instant(now) - cooldownHours * HOUR
    ensures var (rows', d) := StoredReserveReply(rows, k, author, now, weekAgo, cooldownAgo, maxPerDay);
            var (t', e) := ReserveReply(t, k, author, Instant(now), maxPerDay, cooldownHours);
            d == e && StoresReplies(rows', t')
  {
    if k !in rows {
      SameReplyOver(rows, t, k, author, now, weekAgo, cooldownAgo, maxPerDay, cooldownHours);
      ReserveReplyByOver(t, k, author, Instant(now), maxPerDay, cooldownHours);
      ReplyInserted(rows, t, k, author, now);
    }
  }

  // ---- proactive posts ----

  predicate StoredReplySince(rows: map<ReplyKey, StoredReply>, room: string, since: DateTime) {
    exists j :: j in rows && j.room == room && After(rows[j].createdAt, since)
  }

  predicate StoredPostSince(rows: map<string, StoredPost>, room: string, since: DateTime) {
    exists j :: j in rows && rows[j].room == room && After(rows[j].createdAt, since)
  }

  function StoredPostsOn(rows: map<string, StoredPost>, room: string, now: DateTime, dayEnd: DateTime): set<string> {
    set j | j in rows && rows[j].room == room && NotBefore(rows[j].createdAt, Midnight(now))
            && !NotBefore(rows[j].createdAt, dayEnd)
  }

  // Over a limit, by the rows as stored; the day's end and the bound of the interval are given.
  predicate StoredPostOver(replies: map<ReplyKey, StoredReply>, posts: map<string, StoredPost>, room: string,
                           now: DateTime, dayEnd: DateTime, since: DateTime, maxPerDay: nat)
  {
    || |StoredPostsOn(posts, room, now, dayEnd)| >= maxPerDay
    || StoredReplySince(replies, room, since)
    || StoredPostSince(posts, room, since)
  }

  // The transaction on the stored rows.
  function StoredReservePost(replies: map<ReplyKey, StoredReply>, posts: map<string, StoredPost>, key: string,
                             room: string, now: DateTime, dayEnd: DateTime, since: DateTime, c: Campaign)
    : (map<string, StoredPost>, Decision)
  {
    if Instant(now) < c.activatedAt || Instant(now) >= c.activatedAt + c.days * DAY then (posts, Inactive)
    else if key in posts then (posts, Existing)
    else if StoredPostOver(replies, posts, room, now, dayEnd, since, c.maxPerRoomPerDay) then (posts, OverQuota)
    else (posts[key := StoredPost(room, IsoFormat(now))], Reserved)
  }

  predicate ReplySince(t: Tables, room: string, from: int) {
    exists j :: j in t.replies && j.room == room && t.replies[j].createdAt > from
  }

  predicate PostSince(t: Tables, room: string, from: int) {
    exists j :: j in t.posts && t.posts[j].room == room && t.posts[j].createdAt > from
  }

  // The same by times.
  predicate PostOver(t: Tables, room: string, now: int, c: Campaign) {
    || |PostsWithin(t, room, DayStart(now), DayStart(now) + DAY)| >= c.maxPerRoomPerDay
    || ReplySince(t, room, now - c.minIntervalHours * HOUR)
    || PostSince(t, room, now - c.minIntervalHours * HOUR)
  }

  lemma {:induction false} ReservePostByOver(t: Tables, key: string, room: string, now: int, c: Campaign)
    requires key !in t.posts && c.activatedAt <= now < c.activatedAt + c.days * DAY
    ensures ReservePost(t, key, room, now, c) ==
            if PostOver(t, room, now, c) then (t, OverQuota)
            else (t.(posts := t.posts[key := ProactivePost(room, now)]), Reserved)
  {
  }

  lemma {:induction false} PostWindow(rows: map<string, StoredPost>, t: Tables, bound: DateTime)
    requires StoresPosts(rows, t) && Valid(bound)
    ensures forall k :: k in rows ==> (NotBefore(rows[k].createdAt, bound) <==> t.posts[k].createdAt >= Instant(bound))
    ensures forall k :: k in rows ==> (After(rows[k].createdAt, bound) <==> t.posts[k].createdAt > Instant(bound))
  {
    forall k | k in rows
      ensures NotBefore(rows[k].createdAt, bound) <==> t.posts[k].createdAt >= Instant(bound)
      ensures After(rows[k].createdAt, bound) <==> t.posts[k].createdAt > Instant(bound)
    {
      ComparesAsTime(rows[k].createdAt, t.posts[k].createdAt, bound);
    }
  }

  lemma {:induction false} PostDayCount(rows: map<string, StoredPost>, t: Tables, room: string, now: DateTime,
                                        dayEnd: DateTime)
    requires StoresPosts(rows, t) && Valid(now) && Valid(dayEnd) && Instant(dayEnd) == Instant(Midnight(now)) + DAY
    ensures StoredPostsOn(rows, room, now, dayEnd)
         == PostsWithin(t, room, DayStart(Instant(now)), DayStart(Instant(now)) + DAY)
  {
    MidnightIsDayStart(now);
    PostWindow(rows, t, Midnight(now));
    PostWindow(rows, t, dayEnd);
  }

  lemma {:induction false} PostQuotas(replies: map<ReplyKey, StoredReply>, posts: map<string, StoredPost>, t: Tables,
                                      room: string, since: DateTime, from: int)
    requires StoresReplies(replies, t) && StoresPosts(posts, t) && Valid(since) && Instant(since) == from
    ensures StoredReplySince(replies, room, since) <==> ReplySince(t, room, from)
    ensures StoredPostSince(posts, room, since) <==> PostSince(t, room, from)
  {
    ReplyWindow(replies, t, since);
    PostWindow(posts, t, since);
  }

  lemma {:induction false} PostInserted(rows: map<string, StoredPost>, t: Tables, key: string, room: string,
                                        now: DateTime)
    requires StoresPosts(rows, t) && Valid(now) && key !in rows
    ensures StoresPosts(rows[key := StoredPost(room, IsoFormat(now))],
                        t.(posts := t.posts[key := ProactivePost(room, Instant(now))]))
  {
    assert Stamps(IsoFormat(now), Instant(now));
  }

  lemma {:induction false} SamePostOver(replies: map<ReplyKey, StoredReply>, posts: map<string, StoredPost>,
                                        t: Tables, room: string, now: DateTime, dayEnd: DateTime, since: DateTime,
                                        c: Campaign, at: int)
    requires StoredPostsOn(posts, room, now, dayEnd) == PostsWithin(t, room, DayStart(at), DayStart(at) + DAY)
    requires StoredReplySince(replies, room, since) <==> ReplySince(t, room, at - c.minIntervalHours * HOUR)
    requires StoredPostSince(posts, room, since) <==> PostSince(t, room, at - c.minIntervalHours * HOUR)
    ensures StoredPostOver(replies, posts, room, now, dayEnd, since, c.maxPerRoomPerDay) <==> PostOver(t, room, at, c)
  {
  }

  // On stored texts the post transaction decides and writes what it does on times.
  lemma {:induction false} PostsAsTimes(replies: map<ReplyKey, StoredReply>, posts: map<string, StoredPost>,
                                        t: Tables, key: string, room: string, now: DateTime, dayEnd: DateTime,
                                        since: DateTime, c: Campaign)
    requires StoresReplies(replies, t) && StoresPosts(posts, t) && Valid(now) && Valid(dayEnd) && Valid(since)
    requires Instant(dayEnd) == Instant(Midnight(now)) + DAY
             && Instant(since) == Instant(now) - c.minIntervalHours * HOUR
    ensures var (posts', d) := StoredReservePost(replies, posts, key, room, now, dayEnd, since, c);
            var (t', e) := ReservePost(t, key, room, Instant(now), c);
            d == e && StoresPosts(posts', t') && StoresReplies(replies, t')
  {
    if c.activatedAt <= Instant(now) < c.activatedAt + c.days * DAY && key !in posts {
      PostDayCount(posts, t, room, now, dayEnd);
      PostQuotas(replies, posts, t, room, since, Instant(now) - c.minIntervalHours * HOUR);
      SamePostOver(replies, posts, t, room, now, dayEnd, since, c, Instant(now));
      ReservePostByOver(t, key, room, Instant(now), c);
      PostInserted(posts, t, key, room, now);
    }
  }
}
