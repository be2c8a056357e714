// All public writes of the pilot together: every send is made under its purpose's key, after the
// tables were asked (src/rosetta/pilot.py:734-768, 858-963, src/rosetta/service.py:273-368), and
// goes through the messenger, with any interleaving, faults and deaths.
module PublicWrites {
  import opened Requests
  import opened Engagement
  import opened DeliveryKeys
  import opened Technocore
  import D = DeliveryProtocol
  import M = EngagementReplies
  import C = EngagementCampaign
  import B = EngagementBounds
  import K = DeliverySafety

  // `roots` are the bundles built so far, one for each request.
  datatype Publisher = Publisher(sending: D.State, tables: Tables, book: Book, roots: map<Key, string>)

  datatype Limits = Limits(maxPerDay: nat, cooldownHours: nat, campaign: Campaign, perDid: nat, global: nat)

  // A send is begun here and goes on, or dies, by events of delivery. The book is also used without
  // a send: by results, marks, and a reservation whose process dies before its acknowledgement.
  datatype Event =
    | Answer(id: nat, message: ReplyKey, author: string, now: int, actor: string, text: string)
    | Advertise(id: nat, room: string, now: int, actor: string, text: string)
    | Accept(id: nat, call: Call, actor: string, room: string, text: string)
    | Build(request: Key, root: string)
    | Report(id: nat, request: Key, actor: string, room: string, text: string)
    | Keep(op: BookOp)
    | Say(id: nat, other: D.Request)
    | Deliver(event: D.Event)

  function Began(own: string, p: Publisher, id: nat, q: D.Request): Publisher {
    p.(sending := D.Exec(own, p.sending, D.Begin(id, q)))
  }

  function SlotPurpose(l: Limits, room: string, now: int): Purpose
    requires l.campaign.activatedAt <= now
  {
    PostIn(l.campaign.policy, room, SlotOf(l.campaign, now))
  }

  function Answered(own: string, p: Publisher, e: Event, l: Limits): Publisher
    requires e.Answer?
  {
    var (t, d) := ReserveReply(p.tables, e.message, e.author, e.now, l.maxPerDay, l.cooldownHours);
    if d.Reserved? || d.Existing? then
      Began(own, p.(tables := t), e.id, D.Request(KeyOf(ReplyTo(e.message)), e.actor, e.message.room, e.text))
    else p.(tables := t)
  }

  function Advertised(own: string, p: Publisher, e: Event, l: Limits): Publisher
    requires e.Advertise?
  {
    if e.now < l.campaign.activatedAt then p
    else
      var key := KeyOf(SlotPurpose(l, e.room, e.now));
      var (t, d) := ReservePost(p.tables, key, e.room, e.now, l.campaign);
      if d.Reserved? || d.Existing? then Began(own, p.(tables := t), e.id, D.Request(key, e.actor, e.room, e.text))
      else p.(tables := t)
  }

  // An acknowledgement is sent for a new request only.
  function Accepted(own: string, p: Publisher, e: Event, l: Limits): Publisher
    requires e.Accept?
  {
    var (b, r) := Reserve(p.book, e.call, l.perDid, l.global);
    var k := (e.call.requester, e.call.id);
    if r.ReservedNew? then Began(own, p.(book := b), e.id, D.Request(KeyOf(AckOf(k)), e.actor, e.room, e.text))
    else p.(book := b)
  }

  // A result is sent for a known request whose bundle is built.
  function Reported(own: string, p: Publisher, e: Event): Publisher
    requires e.Report?
  {
    if e.request in p.book.requests && e.request in p.roots then
      Began(own, p, e.id, D.Request(KeyOf(ResultOf(e.request, p.roots[e.request])), e.actor, e.room, e.text))
    else p
  }

  function Step(own: string, p: Publisher, e: Event, l: Limits): Publisher {
    match e
    case Answer(_, _, _, _, _, _) => Answered(own, p, e, l)
    case Advertise(_, _, _, _, _) => Advertised(own, p, e, l)
    case Accept(_, _, _, _, _) => Accepted(own, p, e, l)
    case Build(k, root) => if k in p.roots then p else p.(roots := p.roots[k := root])
    case Report(_, _, _, _, _) => Reported(own, p, e)
    case Keep(op) => p.(book := Applied(p.book, op, l.perDid, l.global))
    case Say(id, q) => Began(own, p, id, q)
    case Deliver(d) => if d.Begin? then p else p.(sending := D.Exec(own, p.sending, d))
  }

  function Run(own: string, p: Publisher, es: seq<Event>, l: Limits): Publisher {
    if es == [] then p else Step(own, Run(own, p, es[..|es| - 1], l), es[|es| - 1], l)
  }

  // Rooms, ids and roots are of their kinds, and other sends go under other keys.
  predicate Legal(e: Event, l: Limits) {
    match e
    case Answer(_, k, _, _, _, _) => Proper(ReplyTo(k))
    case Advertise(_, room, now, _, _) => l.campaign.activatedAt <= now ==> Proper(SlotPurpose(l, room, now))
    case Accept(_, call, _, _, _) => Proper(AckOf((call.requester, call.id)))
    case Build(k, root) => Proper(ResultOf(k, root))
    case Report(_, _, _, _, _) => true
    case Keep(_) => true
    case Say(_, q) => Proper(Other(q.key))
    case Deliver(_) => true
  }

  predicate AllLegal(es: seq<Event>, l: Limits) {
    forall i :: 0 <= i < |es| ==> Legal(es[i], l)
  }

  ghost predicate Fresh(own: string, p: Publisher) {
    D.Initial(own, p.sending) && p.tables == Tables(map[], map[]) && p.book == EMPTY && p.roots == map[]
  }

  // ---- purposes and their accounts ----

  // The tables know of it.
  predicate Accounted(p: Publisher, u: Purpose) {
    match u
    case ReplyTo(k) => k in p.tables.replies
    case PostIn(_, room, _) => KeyOf(u) in p.tables.posts && p.tables.posts[KeyOf(u)].room == room
    case AckOf(k) => k in p.book.requests
    case ResultOf(k, root) => k in p.book.requests && k in p.roots && p.roots[k] == root
    case Other(_) => true
  }

  predicate InRoom(u: Purpose, room: string) {
    (u.ReplyTo? ==> u.message.room == room) && (u.PostIn? ==> u.room == room)
  }

  ghost predicate Purposeful(p: Publisher, key: string, room: string) {
    exists u :: Proper(u) && KeyOf(u) == key && Accounted(p, u) && InRoom(u, room)
  }

  // Every row, and every send on its way, has its purpose.
  ghost predicate AllPurposeful(p: Publisher) {
    && (forall k :: k in p.sending.w.rows ==> Purposeful(p, k, p.sending.w.rows[k].room))
    && (forall i :: i in p.sending.senders ==>
          Purposeful(p, p.sending.senders[i].request.key, p.sending.senders[i].request.room))
  }

  ghost predicate TablesOk(t: Tables, l: Limits) {
    && M.RepliesSpaced(t, l.cooldownHours) && M.RepliesPerDay(t, l.maxPerDay) && C.CampaignInv(t, {}, l.campaign)
    && forall k :: k in t.posts ==> NoColon(t.posts[k].room)
  }

  ghost predicate BookOk(b: Book, l: Limits) {
    QuotasCountRows(b) && WithinLimits(b, l.perDid, l.global)
  }

  predicate RootsOk(p: Publisher) {
    forall k :: k in p.roots ==> Proper(ResultOf(k, p.roots[k]))
  }

  ghost predicate PublicInv(own: string, p: Publisher, l: Limits) {
    D.Inv(own, p.sending) && AllPurposeful(p) && TablesOk(p.tables, l) && BookOk(p.book, l) && RootsOk(p)
  }

  // What no step takes back.
  predicate Richer(p: Publisher, p': Publisher) {
    && (forall k :: k in p.tables.replies ==> k in p'.tables.replies)
    && (forall k :: k in p.tables.posts ==> k in p'.tables.posts && p'.tables.posts[k] == p.tables.posts[k])
    && (forall k :: k in p.book.requests ==> k in p'.book.requests)
    && (forall k :: k in p.roots ==> k in p'.roots && p'.roots[k] == p.roots[k])
  }

  lemma {:induction false} PurposeStays(p: Publisher, p': Publisher, key: string, room: string)
    requires Richer(p, p') && Purposeful(p, key, room)
    ensures Purposeful(p', key, room)
  {
    var u :| Proper(u) && KeyOf(u) == key && Accounted(p, u) && InRoom(u, room);
    assert Accounted(p', u);
  }

  // ---- what delivery does to rows and senders ----

  // Rows keep their rooms; a new one is the sender's.
  predicate RowsOf(s: D.State, s': D.State, e: D.Event) {
    forall k :: k in s'.w.rows ==>
      || (k in s.w.rows && s'.w.rows[k].room == s.w.rows[k].room)
      || (e.Advance? && e.id in s.senders && k == s.senders[e.id].request.key
          && s'.w.rows[k].room == s.senders[e.id].request.room)
  }

  predicate SendersOf(s: D.State, s': D.State, e: D.Event) {
    forall i :: i in s'.senders ==>
      || (i in s.senders && s'.senders[i].request == s.senders[i].request)
      || (e.Begin? && i == e.id && s'.senders[i].request == e.request)
  }

  lemma {:induction false} StepRows(own: string, w: D.World, s: D.Sender)
    ensures var (w', s') := D.Step(own, w, s);
            && s'.request == s.request
            && forall k :: k in w'.rows ==>
                 || (k in w.rows && w'.rows[k].room == w.rows[k].room)
                 || (k == s.request.key && w'.rows[k].room == s.request.room)
  {
  }

  lemma {:induction false} ExecRows(own: string, s: D.State, e: D.Event)
    ensures RowsOf(s, D.Exec(own, s, e), e) && SendersOf(s, D.Exec(own, s, e), e)
  {
    if e.Advance? && e.id in s.senders { StepRows(own, s.w, s.senders[e.id]); }
  }

  lemma {:induction false} ExecKeepsPurposes(own: string, p: Publisher, e: D.Event)
    requires AllPurposeful(p) && (e.Begin? ==> Purposeful(p, e.request.key, e.request.room))
    ensures AllPurposeful(p.(sending := D.Exec(own, p.sending, e)))
  {
    var p' := p.(sending := D.Exec(own, p.sending, e));
    ExecRows(own, p.sending, e);
    assert Richer(p, p');
    forall k | k in p'.sending.w.rows ensures Purposeful(p', k, p'.sending.w.rows[k].room) {
      PurposeStays(p, p', k, p'.sending.w.rows[k].room);
    }
    forall i | i in p'.sending.senders
      ensures Purposeful(p', p'.sending.senders[i].request.key, p'.sending.senders[i].request.room)
    {
      PurposeStays(p, p', p'.sending.senders[i].request.key, p'.sending.senders[i].request.room);
    }
  }

  // ---- every step ----

  lemma {:induction false} TablesMove(own: string, p: Publisher, p': Publisher, l: Limits)
    requires PublicInv(own, p, l) && p'.sending == p.sending && Richer(p, p')
    requires TablesOk(p'.tables, l) && BookOk(p'.book, l) && RootsOk(p')
    ensures PublicInv(own, p', l)
  {
    forall k | k in p'.sending.w.rows ensures Purposeful(p', k, p'.sending.w.rows[k].room) {
      PurposeStays(p, p', k, p'.sending.w.rows[k].room);
    }
    forall i | i in p'.sending.senders
      ensures Purposeful(p', p'.sending.senders[i].request.key, p'.sending.senders[i].request.room)
    {
      PurposeStays(p, p', p'.sending.senders[i].request.key, p'.sending.senders[i].request.room);
    }
  }

  lemma {:induction false} BeginKeeps(own: string, p: Publisher, id: nat, q: D.Request, u: Purpose, l: Limits)
    requires PublicInv(own, p, l) && Proper(u) && KeyOf(u) == q.key && Accounted(p, u) && InRoom(u, q.room)
    ensures PublicInv(own, Began(own, p, id, q), l)
  {
    K.EventKeeps(own, p.sending, D.Begin(id, q));
    assert Purposeful(p, q.key, q.room);
    ExecKeepsPurposes(own, p, D.Begin(id, q));
  }

  lemma {:induction false} ReplyKeepsTables(t: Tables, k: ReplyKey, author: string, now: int, l: Limits)
    requires TablesOk(t, l)
    ensures var (t', d) := ReserveReply(t, k, author, now, l.maxPerDay, l.cooldownHours);
            && TablesOk(t', l) && t'.posts == t.posts && (forall j :: j in t.replies ==> j in t'.replies)
            && (d.Reserved? || d.Existing? ==> k in t'.replies)
  {
    B.UseKeeps(t, {}, B.Answering(k, author, now), B.Limits(l.maxPerDay, l.cooldownHours, l.campaign));
  }

  lemma {:induction false} AnswerKeeps(own: string, p: Publisher, e: Event, l: Limits)
    requires PublicInv(own, p, l) && e.Answer? && Legal(e, l)
    ensures PublicInv(own, Answered(own, p, e, l), l)
  {
    var (t, d) := ReserveReply(p.tables, e.message, e.author, e.now, l.maxPerDay, l.cooldownHours);
    ReplyKeepsTables(p.tables, e.message, e.author, e.now, l);
    TablesMove(own, p, p.(tables := t), l);
    if d.Reserved? || d.Existing? {
      BeginKeeps(own, p.(tables := t), e.id, D.Request(KeyOf(ReplyTo(e.message)), e.actor, e.message.room, e.text),
                 ReplyTo(e.message), l);
    }
  }

  lemma {:induction false} PostFrame(t: Tables, key: string, room: string, now: int, c: Campaign)
    ensures var (t', d) := ReservePost(t, key, room, now, c);
            && t'.replies == t.replies && (forall j :: j in t.posts ==> j in t'.posts && t'.posts[j] == t.posts[j])
            && (forall j :: j in t'.posts ==> j in t.posts || t'.posts[j].room == room)
            && (d.Reserved? || d.Existing? ==> key in t'.posts)
            && (key in t'.posts && key !in t.posts ==> t'.posts[key].room == room)
  {
  }

  lemma {:induction false} PostKeepsTables(t: Tables, room: string, now: int, l: Limits)
    requires TablesOk(t, l) && l.campaign.activatedAt <= now && NoColon(room)
    ensures TablesOk(ReservePost(t, KeyOf(SlotPurpose(l, room, now)), room, now, l.campaign).0, l)
  {
    var key := KeyOf(SlotPurpose(l, room, now));
    C.PostKeepsCampaign(t, {}, key, room, now, l.campaign);
    PostFrame(t, key, room, now, l.campaign);
    B.SameRepliesSameDays(t, ReservePost(t, key, room, now, l.campaign).0, l.maxPerDay);
  }

  lemma {:induction false} KeyOfSlot(t: Tables, key: string, l: Limits)
    requires C.CampaignInv(t, {}, l.campaign) && key in t.posts
    ensures l.campaign.activatedAt <= t.posts[key].createdAt
    ensures key == KeyOf(SlotPurpose(l, t.posts[key].room, t.posts[key].createdAt))
  {
  }

  // An existing post of this key is one of this room.
  lemma {:induction false} SlotIsOfRoom(t: Tables, room: string, now: int, l: Limits)
    requires TablesOk(t, l) && l.campaign.activatedAt <= now && Proper(SlotPurpose(l, room, now))
    requires KeyOf(SlotPurpose(l, room, now)) in t.posts
    ensures t.posts[KeyOf(SlotPurpose(l, room, now))].room == room
  {
    var key := KeyOf(SlotPurpose(l, room, now));
    KeyOfSlot(t, key, l);
    KeysDiffer(SlotPurpose(l, room, now), SlotPurpose(l, t.posts[key].room, t.posts[key].createdAt));
  }

  lemma {:induction false} AdvertiseKeeps(own: string, p: Publisher, e: Event, l: Limits)
    requires PublicInv(own, p, l) && e.Advertise? && Legal(e, l)
    ensures PublicInv(own, Advertised(own, p, e, l), l)
  {
    if e.now >= l.campaign.activatedAt {
      var u := SlotPurpose(l, e.room, e.now);
      var (t, d) := ReservePost(p.tables, KeyOf(u), e.room, e.now, l.campaign);
      PostKeepsTables(p.tables, e.room, e.now, l);
      PostFrame(p.tables, KeyOf(u), e.room, e.now, l.campaign);
      TablesMove(own, p, p.(tables := t), l);
      if d.Reserved? || d.Existing? {
        SlotIsOfRoom(t, e.room, e.now, l);
        BeginKeeps(own, p.(tables := t), e.id, D.Request(KeyOf(u), e.actor, e.room, e.text), u, l);
      }
    }
  }

  lemma {:induction false} ReserveKeepsBook(b: Book, c: Call, l: Limits)
    requires BookOk(b, l)
    ensures var (b', r) := Reserve(b, c, l.perDid, l.global);
            && BookOk(b', l) && (forall k :: k in b.requests ==> k in b'.requests)
            && (r.ReservedNew? ==> (c.requester, c.id) in b'.requests)
  {
    ReserveKeepsCounts(b, c, l.perDid, l.global);
    ReserveKeepsLimits(b, c, l.perDid, l.global);
  }

  lemma {:induction false} AcceptKeeps(own: string, p: Publisher, e: Event, l: Limits)
    requires PublicInv(own, p, l) && e.Accept? && Legal(e, l)
    ensures PublicInv(own, Accepted(own, p, e, l), l)
  {
    var (b, r) := Reserve(p.book, e.call, l.perDid, l.global);
    var k := (e.call.requester, e.call.id);
    ReserveKeepsBook(p.book, e.call, l);
    TablesMove(own, p, p.(book := b), l);
    if r.ReservedNew? {
      BeginKeeps(own, p.(book := b), e.id, D.Request(KeyOf(AckOf(k)), e.actor, e.room, e.text), AckOf(k), l);
    }
  }

  lemma {:induction false} OpKeepsBook(b: Book, op: BookOp, l: Limits)
    requires BookOk(b, l)
    ensures BookOk(Applied(b, op, l.perDid, l.global), l)
    ensures forall k :: k in b.requests ==> k in Applied(b, op, l.perDid, l.global).requests
  {
    if op.Reserving? {
      ReserveKeepsBook(b, op.call, l);
    } else {
      SameRowsSameCounts(b, Applied(b, op, l.perDid, l.global));
      SameQuotasSameLimits(b, Applied(b, op, l.perDid, l.global), l.perDid, l.global);
    }
  }

  lemma {:induction false} KeepKeeps(own: string, p: Publisher, op: BookOp, l: Limits)
    requires PublicInv(own, p, l)
    ensures PublicInv(own, p.(book := Applied(p.book, op, l.perDid, l.global)), l)
  {
    OpKeepsBook(p.book, op, l);
    TablesMove(own, p, p.(book := Applied(p.book, op, l.perDid, l.global)), l);
  }

  lemma {:induction false} BuildKeeps(own: string, p: Publisher, k: Key, root: string, l: Limits)
    requires PublicInv(own, p, l) && Proper(ResultOf(k, root)) && k !in p.roots
    ensures PublicInv(own, p.(roots := p.roots[k := root]), l)
  {
    TablesMove(own, p, p.(roots := p.roots[k := root]), l);
  }

  lemma {:induction false} ReportKeeps(own: string, p: Publisher, e: Event, l: Limits)
    requires PublicInv(own, p, l) && e.Report?
    ensures PublicInv(own, Reported(own, p, e), l)
  {
    if e.request in p.book.requests && e.request in p.roots {
      var u := ResultOf(e.request, p.roots[e.request]);
      BeginKeeps(own, p, e.id, D.Request(KeyOf(u), e.actor, e.room, e.text), u, l);
    }
  }

  lemma {:induction false} DeliverKeeps(own: string, p: Publisher, d: D.Event, l: Limits)
    requires PublicInv(own, p, l) && !d.Begin?
    ensures PublicInv(own, p.(sending := D.Exec(own, p.sending, d)), l)
  {
    K.EventKeeps(own, p.sending, d);
    ExecKeepsPurposes(own, p, d);
  }

  lemma {:induction false} StepKeeps(own: string, p: Publisher, e: Event, l: Limits)
    requires PublicInv(own, p, l) && Legal(e, l)
    ensures PublicInv(own, Step(own, p, e, l), l)
  {
    match e
    case Answer(_, _, _, _, _, _) => AnswerKeeps(own, p, e, l);
    case Advertise(_, _, _, _, _) => AdvertiseKeeps(own, p, e, l);
    case Accept(_, _, _, _, _) => AcceptKeeps(own, p, e, l);
    case Build(k, root) => if k !in p.roots { BuildKeeps(own, p, k, root, l); }
    case Report(_, _, _, _, _) => ReportKeeps(own, p, e, l);
    case Keep(op) => KeepKeeps(own, p, op, l);
    case Say(id, q) => BeginKeeps(own, p, id, q, Other(q.key), l);
    case Deliver(d) => if !d.Begin? { DeliverKeeps(own, p, d, l); }
  }

  lemma {:induction false} FreshTablesOk(l: Limits)
    ensures TablesOk(Tables(map[], map[]), l) && BookOk(EMPTY, l)
  {
    B.UsesKeep(map[], [], B.Limits(l.maxPerDay, l.cooldownHours, l.campaign));
    OpsKeepQuotas([], l.perDid, l.global);
  }

  lemma {:induction false} RunKeeps(own: string, p: Publisher, es: seq<Event>, l: Limits)
    requires Fresh(own, p) && AllLegal(es, l)
    ensures PublicInv(own, Run(own, p, es, l), l)
  {
    if es == [] {
      K.RunKeeps(own, p.sending, []);
      FreshTablesOk(l);
    } else {
      RunKeeps(own, p, es[..|es| - 1], l);
      StepKeeps(own, Run(own, p, es[..|es| - 1], l), es[|es| - 1], l);
    }
  }

  // ---- what the log says ----

  ghost predicate InLog(p: Publisher, own: string, x: Record) {
    x.did == own && exists room :: x in Log(p.sending.w.remote, room)
  }

  // The record carries the row of this purpose.
  ghost predicate Says(p: Publisher, own: string, x: Record, u: Purpose) {
    InLog(p, own, x) && Proper(u) && KeyOf(u) in p.sending.w.rows && D.Carries(x, p.sending.w.rows[KeyOf(u)])
  }

  lemma {:induction false} FiledUnderRoom(p: Publisher, own: string, x: Record)
    requires D.WorldOk(own, p.sending.w) && InLog(p, own, x)
    ensures x in Log(p.sending.w.remote, x.room)
  {
    var room :| x in Log(p.sending.w.remote, room);
    LogsMakeRemote(p.sending.w.remote);
    assert GoodLog(Log(p.sending.w.remote, room), room, p.sending.w.remote.nextSequence);
  }

  // In every reachable state every own record says exactly one purpose, the tables know of it, and
  // no other record says it.
  lemma {:induction false} EveryRecordHasItsPurpose(own: string, p0: Publisher, es: seq<Event>, l: Limits, x: Record)
    returns (u: Purpose)
    requires Fresh(own, p0) && AllLegal(es, l) && InLog(Run(own, p0, es, l), own, x)
    ensures var p := Run(own, p0, es, l);
            && Says(p, own, x, u) && Accounted(p, u)
            && (forall v :: Says(p, own, x, v) ==> v == u)
            && (forall y :: Says(p, own, y, u) ==> y == x)
  {
    var p := Run(own, p0, es, l);
    RunKeeps(own, p0, es, l);
    u := PurposeOf(own, p, l, x);
    forall v | Says(p, own, x, v) ensures v == u { OnePurpose(own, p, l, x, u, v); }
    forall y | Says(p, own, y, u) ensures y == x { OneRecord(own, p, l, x, y, u); }
  }

  lemma {:induction false} PurposeOf(own: string, p: Publisher, l: Limits, x: Record) returns (u: Purpose)
    requires PublicInv(own, p, l) && InLog(p, own, x)
    ensures Says(p, own, x, u) && Accounted(p, u) && InRoom(u, x.room)
  {
    FiledUnderRoom(p, own, x);
    assert D.HasRow(p.sending.w, x);
    var k :| k in p.sending.w.rows && D.Carries(x, p.sending.w.rows[k]);
    assert Purposeful(p, k, x.room);
    u :| Proper(u) && KeyOf(u) == k && Accounted(p, u) && InRoom(u, x.room);
  }

  lemma {:induction false} OnePurpose(own: string, p: Publisher, l: Limits, x: Record, u: Purpose, v: Purpose)
    requires PublicInv(own, p, l) && Says(p, own, x, u) && Says(p, own, x, v)
    ensures u == v
  {
    assert D.RowsDistinct(p.sending.w);
    assert KeyOf(u) == KeyOf(v);
    KeysDiffer(u, v);
  }

  lemma {:induction false} OneRecord(own: string, p: Publisher, l: Limits, x: Record, y: Record, u: Purpose)
    requires PublicInv(own, p, l) && Says(p, own, x, u) && Says(p, own, y, u)
    ensures x == y
  {
    FiledUnderRoom(p, own, x);
    FiledUnderRoom(p, own, y);
    K.RowHasOneRecord(own, p.sending.w, KeyOf(u), x, y);
  }

  // What a record says is what its row was begun for.
  lemma {:induction false} SaidIsAccounted(own: string, p: Publisher, l: Limits, x: Record, u: Purpose)
    requires PublicInv(own, p, l) && Says(p, own, x, u)
    ensures Accounted(p, u) && InRoom(u, x.room)
  {
    var v := PurposeOf(own, p, l, x);
    OnePurpose(own, p, l, x, u, v);
  }

  // A request is answered once: its results, under whatever root, are one record.
  lemma {:induction false} OneResultPerRequest(own: string, p0: Publisher, es: seq<Event>, l: Limits, x: Record,
                                               y: Record, k: Key, r1: string, r2: string)
    requires Fresh(own, p0) && AllLegal(es, l)
    requires var p := Run(own, p0, es, l); Says(p, own, x, ResultOf(k, r1)) && Says(p, own, y, ResultOf(k, r2))
    ensures x == y && r1 == r2
  {
    var p := Run(own, p0, es, l);
    RunKeeps(own, p0, es, l);
    SaidIsAccounted(own, p, l, x, ResultOf(k, r1));
    SaidIsAccounted(own, p, l, y, ResultOf(k, r2));
    OneRecord(own, p, l, x, y, ResultOf(k, r1));
  }

  // ---- what the log can hold ----

  lemma {:induction false} NoMoreThan<A, B>(xs: set<A>, f: map<A, B>, ys: set<B>)
    requires forall x :: x in xs ==> x in f && f[x] in ys
    requires forall x, y :: x in xs && y in xs && f[x] == f[y] ==> x == y
    ensures |xs| <= |ys|
  {
    if xs == {} {
    } else {
      var x :| x in xs;
      NoMoreThan(xs - {x}, f, ys - {f[x]});
    }
  }

  // The reply this record is, reserved on this day.
  ghost predicate RepliesOn(p: Publisher, own: string, x: Record, k: ReplyKey, day: int) {
    Says(p, own, x, ReplyTo(k)) && k in p.tables.replies && DayOf(p.tables.replies[k].createdAt) == day
  }

  lemma {:induction false} RepliesWithin(own: string, p: Publisher, l: Limits, xs: set<Record>, day: int)
    requires PublicInv(own, p, l) && forall x :: x in xs ==> exists k :: RepliesOn(p, own, x, k, day)
    ensures |xs| <= |M.RepliesOn(p.tables, day)|
  {
    var f := ReplyOf(p, own, xs, day);
    forall x, y | x in xs && y in xs && f[x] == f[y] ensures x == y {
      OneRecord(own, p, l, x, y, ReplyTo(f[x]));
    }
    NoMoreThan(xs, f, M.RepliesOn(p.tables, day));
  }

  // However the run went, the log holds no more replies reserved on one UTC day than its maximum.
  lemma {:induction false} PublicRepliesBounded(own: string, p0: Publisher, es: seq<Event>, l: Limits,
                                                xs: set<Record>, day: int)
    requires Fresh(own, p0) && AllLegal(es, l)
    requires forall x :: x in xs ==> exists k :: RepliesOn(Run(own, p0, es, l), own, x, k, day)
    ensures |xs| <= l.maxPerDay
  {
    RunKeeps(own, p0, es, l);
    RepliesWithin(own, Run(own, p0, es, l), l, xs, day);
  }

  ghost function ReplyOf(p: Publisher, own: string, xs: set<Record>, day: int): (f: map<Record, ReplyKey>)
    requires forall x :: x in xs ==> exists k :: RepliesOn(p, own, x, k, day)
    ensures forall x :: x in xs ==> x in f && RepliesOn(p, own, x, f[x], day)
  {
    map x | x in xs :: var k :| RepliesOn(p, own, x, k, day); k
  }

  // Two replies in the log to one author were reserved more than seven days apart, and two in one
  // room more than the cooldown apart.
  lemma {:induction false} PublicRepliesSpaced(own: string, p0: Publisher, es: seq<Event>, l: Limits, x: Record,
                                               y: Record, j: ReplyKey, k: ReplyKey)
    requires Fresh(own, p0) && AllLegal(es, l) && x != y
    requires var p := Run(own, p0, es, l); Says(p, own, x, ReplyTo(j)) && Says(p, own, y, ReplyTo(k))
    ensures var rs := Run(own, p0, es, l).tables.replies;
            && j in rs && k in rs && j != k
            && (rs[j].author == rs[k].author ==> Apart(rs[j].createdAt, rs[k].createdAt, 7 * DAY))
            && (x.room == y.room ==> Apart(rs[j].createdAt, rs[k].createdAt, l.cooldownHours * HOUR))
  {
    var p := Run(own, p0, es, l);
    RunKeeps(own, p0, es, l);
    SaidIsAccounted(own, p, l, x, ReplyTo(j));
    SaidIsAccounted(own, p, l, y, ReplyTo(k));
    if j == k { OneRecord(own, p, l, x, y, ReplyTo(j)); }
  }

  ghost predicate AcksOn(p: Publisher, own: string, x: Record, k: Key, day: int) {
    Says(p, own, x, AckOf(k)) && k in p.book.requests && p.book.requests[k].day == day
  }

  ghost function AckedBy(p: Publisher, own: string, xs: set<Record>, day: int): (f: map<Record, Key>)
    requires forall x :: x in xs ==> exists k :: AcksOn(p, own, x, k, day)
    ensures forall x :: x in xs ==> x in f && AcksOn(p, own, x, f[x], day)
  {
    map x | x in xs :: var k :| AcksOn(p, own, x, k, day); k
  }

  lemma {:induction false} AcksWithin(own: string, p: Publisher, l: Limits, xs: set<Record>, day: int)
    requires PublicInv(own, p, l) && forall x :: x in xs ==> exists k :: AcksOn(p, own, x, k, day)
    ensures |xs| <= |RowsOn(p.book, day)|
  {
    var f := AckedBy(p, own, xs, day);
    forall x, y | x in xs && y in xs && f[x] == f[y] ensures x == y {
      OneRecord(own, p, l, x, y, AckOf(f[x]));
    }
    NoMoreThan(xs, f, RowsOn(p.book, day));
  }

  // The log holds no more acknowledgements of one UTC day's requests than the global quota.
  lemma {:induction false} PublicAcksBounded(own: string, p0: Publisher, es: seq<Event>, l: Limits, xs: set<Record>,
                                             day: int)
    requires Fresh(own, p0) && AllLegal(es, l)
    requires forall x :: x in xs ==> exists k :: AcksOn(Run(own, p0, es, l), own, x, k, day)
    ensures |xs| <= l.global
  {
    var p := Run(own, p0, es, l);
    RunKeeps(own, p0, es, l);
    AcksWithin(own, p, l, xs, day);
    assert GlobalQuota(p.book, day) == |RowsOn(p.book, day)| <= l.global;
  }

  ghost predicate PostsOn(p: Publisher, own: string, x: Record, u: Purpose, day: int) {
    Says(p, own, x, u) && u.PostIn? && KeyOf(u) in p.tables.posts && DayOf(p.tables.posts[KeyOf(u)].createdAt) == day
  }

  ghost function PostedUnder(p: Publisher, own: string, xs: set<Record>, day: int): (f: map<Record, string>)
    requires forall x :: x in xs ==> exists u :: PostsOn(p, own, x, u, day)
    ensures forall x :: x in xs ==> x in f && exists u :: PostsOn(p, own, x, u, day) && KeyOf(u) == f[x]
  {
    map x | x in xs :: var u :| PostsOn(p, own, x, u, day); KeyOf(u)
  }

  lemma {:induction false} PostIsOfRoom(own: string, p: Publisher, l: Limits, x: Record, u: Purpose, day: int)
    requires PublicInv(own, p, l) && PostsOn(p, own, x, u, day)
    ensures KeyOf(u) in C.NewPostsOn(p.tables, {}, x.room, day)
  {
    SaidIsAccounted(own, p, l, x, u);
  }

  lemma {:induction false} SamePost(own: string, p: Publisher, l: Limits, x: Record, y: Record, u: Purpose,
                                    v: Purpose, day: int)
    requires PublicInv(own, p, l) && PostsOn(p, own, x, u, day) && PostsOn(p, own, y, v, day) && KeyOf(u) == KeyOf(v)
    ensures x == y
  {
    KeysDiffer(u, v);
    OneRecord(own, p, l, x, y, u);
  }

  lemma {:induction false} PostsWithinTable(own: string, p: Publisher, l: Limits, xs: set<Record>, room: string,
                                            day: int)
    requires PublicInv(own, p, l) && forall x :: x in xs ==> x.room == room && exists u :: PostsOn(p, own, x, u, day)
    ensures |xs| <= |C.NewPostsOn(p.tables, {}, room, day)|
  {
    var f := PostedUnder(p, own, xs, day);
    forall x | x in xs ensures f[x] in C.NewPostsOn(p.tables, {}, room, day) {
      var u :| PostsOn(p, own, x, u, day) && KeyOf(u) == f[x];
      PostIsOfRoom(own, p, l, x, u, day);
    }
    forall x, y | x in xs && y in xs && f[x] == f[y] ensures x == y {
      var u :| PostsOn(p, own, x, u, day) && KeyOf(u) == f[x];
      var v :| PostsOn(p, own, y, v, day) && KeyOf(v) == f[y];
      SamePost(own, p, l, x, y, u, v, day);
    }
    NoMoreThan(xs, f, C.NewPostsOn(p.tables, {}, room, day));
  }

  // A room's log holds no more posts reserved on one UTC day than its maximum.
  lemma {:induction false} PublicPostsBounded(own: string, p0: Publisher, es: seq<Event>, l: Limits, xs: set<Record>,
                                              room: string, day: int)
    requires Fresh(own, p0) && AllLegal(es, l)
    requires forall x :: x in xs ==> x.room == room && exists u :: PostsOn(Run(own, p0, es, l), own, x, u, day)
    ensures |xs| <= l.campaign.maxPerRoomPerDay
  {
    RunKeeps(own, p0, es, l);
    PostsWithinTable(own, Run(own, p0, es, l), l, xs, room, day);
  }
}
