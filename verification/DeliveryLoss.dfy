// The one way a send on a quiet network is not confirmed, reached from a fresh system: a hundred
// records of others fill the room, and the reply to the send is lost. The record is there; the
// read that looks for it ends before it (src/rosetta/delivery.py:36-47, 93-115).
module DeliveryLoss {
  import opened Wrappers
  import opened Canonical
  import opened Signer
  import opened Technocore
  import opened DeliveryProtocol
  import opened DeliverySafety
  import opened DeliveryProgress
  import opened AdapterPosting

  const FRESH_SYSTEM: State := State(World(SignerState(map[], []), map[], FRESH, [], true), map[])

  // What can be posted at all.
  predicate Postable(room: string, text: string) {
    SingleField(room) && SweepText(text, 4096).Ok?
  }

  function ForeignRecord(other: string, room: string, text: string, nonce: nat): Event
    requires Postable(room, text) && NonceInRange(nonce)
  {
    ForeignPost(other, room, other, nonce, text, Signature(other, RoomPayload(room, nonce, text).value))
  }

  // n posts by somebody else.
  function Crowd(other: string, room: string, text: string, n: nat): (es: seq<Event>)
    requires Postable(room, text) && n <= 100
    ensures |es| == n
  {
    if n == 0 then [] else Crowd(other, room, text, n - 1) + [ForeignRecord(other, room, text, n)]
  }

  // The log is theirs, and nothing else has happened.
  ghost predicate Crowded(w: World, other: string, room: string, n: nat) {
    && w == FRESH_SYSTEM.w.(remote := w.remote)
    && w.remote == FRESH.(rooms := w.remote.rooms, nextSequence := w.remote.nextSequence)
    && |Log(w.remote, room)| == n
    && forall x :: x in Log(w.remote, room) ==> x.did == other && x.nonce <= n
  }

  lemma {:induction false} OneMoreRecord(own: string, s: State, other: string, room: string, text: string, n: nat)
    requires other != own && Postable(room, text) && n < 100 && Crowded(s.w, other, room, n)
    ensures Crowded(Exec(own, s, ForeignRecord(other, room, text, n + 1)).w, other, room, n + 1)
    ensures Exec(own, s, ForeignRecord(other, room, text, n + 1)).senders == s.senders
  {
    assert Find(Log(s.w.remote, room), other, n + 1).None?;
  }

  lemma {:induction false} CrowdGathers(own: string, other: string, room: string, text: string, n: nat)
    requires other != own && Postable(room, text) && n <= 100
    ensures var s := Run(own, FRESH_SYSTEM, Crowd(other, room, text, n));
            Crowded(s.w, other, room, n) && s.senders == map[]
  {
    if n == 0 {
    } else {
      CrowdGathers(own, other, room, text, n - 1);
      RunLast(own, FRESH_SYSTEM, Crowd(other, room, text, n - 1), ForeignRecord(other, room, text, n));
      OneMoreRecord(own, Run(own, FRESH_SYSTEM, Crowd(other, room, text, n - 1)), other, room, text, n - 1);
    }
  }

  // The run: a hundred foreign posts and one lost reply to come.
  function BeforeLoss(other: string, actor: string, room: string, text: string): seq<Event>
    requires Postable(room, text)
  {
    Crowd(other, room, text, 100) + [InjectUncertainWrite(actor, room)]
  }

  lemma {:induction false} RunBeforeLoss(own: string, other: string, actor: string, room: string, text: string)
    requires other != own && Postable(room, text)
    ensures var w := Run(own, FRESH_SYSTEM, BeforeLoss(other, actor, room, text)).w;
            && WorldOk(own, w)
            && w == FRESH_SYSTEM.w.(remote := w.remote) && |Log(w.remote, room)| == 100
            && (forall x :: x in Log(w.remote, room) ==> x.did == other)
            && w.remote.uncertainOnce == {(actor, room)} && w.remote.uncertainConsumed == {}
  {
    CrowdGathers(own, other, room, text, 100);
    RunLast(own, FRESH_SYSTEM, Crowd(other, room, text, 100), InjectUncertainWrite(actor, room));
    RunKeeps(own, FRESH_SYSTEM, BeforeLoss(other, actor, room, text));
  }

  // After it the very first send of any request ends unconfirmed, and the next one delivers.
  lemma {:induction false} FirstSendIsLost(own: string, other: string, q: Request)
    requires other != own && Postable(q.room, q.text)
    ensures var w := Run(own, FRESH_SYSTEM, BeforeLoss(other, q.actor, q.room, q.text)).w;
            && WorldOk(own, w) && Servable(w, q) && Loses(w, q)
            && Solo(own, w, Sender(q, Starting), 7).1.at == Finished(Failed(NotFoundUpstream))
            && DeliversWithin(own, Solo(own, w, Sender(q, Starting), 7).0, Sender(q, Starting), 7)
  {
    RunBeforeLoss(own, other, q.actor, q.room, q.text);
    var w := Run(own, FRESH_SYSTEM, BeforeLoss(other, q.actor, q.room, q.text)).w;
    SendEnds(own, w, q, 7);
    SecondSendDelivers(own, w, q, 7, 7);
  }

  // An adapter's post in the same place raises, though its record is in the log.
  lemma {:induction false} FirstPostIsUncertain(own: string, other: string, id: string, scope: string, room: string,
                                                text: string)
    requires other != own && Postable(room, text)
    ensures var t := Run(own, FRESH_SYSTEM, BeforeLoss(other, id, room, text)).w.remote;
            var sent := AdapterPost(own, SignerState(map[], []), t, id, scope, room, text);
            && sent.result == Err(Uncertain)
            && |Log(sent.remote, room)| == 101 && Log(sent.remote, room)[100].did == own
            && Log(sent.remote, room)[100].text == text
  {
    RunBeforeLoss(own, other, id, room, text);
    var t := Run(own, FRESH_SYSTEM, BeforeLoss(other, id, room, text)).w.remote;
    FieldsArePresent(MessageRequest(scope, room, text));
    OnePostOneRecord(own, SignerState(map[], []), t, id, scope, room, text);
  }

  // Such requests exist.
  lemma {:induction false} LobbyIsPostable()
    ensures Postable("lobby", "hello")
  {
    CleanIsFixed("hello");
  }
}
