// The messenger itself (src/rosetta/delivery.py): send_text over the signer, the store and the
// target it shares with the rest of the process, cut off by a death after any number of steps.
module Delivery {
  import opened Wrappers
  import opened Signer
  import opened Technocore
  import opened DeliveryProtocol
  import opened Persistence

  class OperationalGate {
    var open: bool

    constructor ()
      ensures open
    {
      open := true;
    }
  }

  // The log behind a network that has a plan for the next posts.
  class NetworkTarget {
    const log: LocalTechnocore
    var plan: seq<Fault>

    constructor (log: LocalTechnocore)
      ensures this.log == log && plan == []
    {
      this.log := log;
      plan := [];
    }

    method PostSigned(actor: string, room: string, did: string, nonce: nat, text: string, signature: Signature,
                      ghost before: World) returns (r: PostResult)
      requires before.network == plan && before.remote == log.State()
      modifies this, log
      ensures var (after, result) := Transported(before, actor, room, did, nonce, text, signature);
              r == result && plan == after.network && log.State() == after.remote
    {
      var fault := Pass;
      if plan != [] {
        fault := plan[0];
        plan := plan[1..];
      }
      match fault
      case Limit(seconds) => return RateLimited(seconds);
      case LoseRequest => return UncertainWrite;
      case Refuse(status, landed) =>
        if !landed {
          return Refusal(status);
        }
        var _ := log.Post(actor, room, did, nonce, text, signature);
        return Refusal(status);
      case LoseReply =>
        var _ := log.Post(actor, room, did, nonce, text, signature);
        return UncertainWrite;
      case Pass =>
        r := log.Post(actor, room, did, nonce, text, signature);
    }
  }

  class ReliableMessenger {
    const target: NetworkTarget
    const signer: SignerProtocol
    const store: StateStore
    const gate: OperationalGate

    constructor (target: NetworkTarget, signer: SignerProtocol, store: StateStore, gate: OperationalGate)
      ensures this.target == target && this.signer == signer && this.store == store && this.gate == gate
    {
      this.target, this.signer, this.store, this.gate := target, signer, store, gate;
    }

    function Now(): World
      reads target, target.log, signer.store, store`deliveries, gate
    {
      World(signer.State(), store.deliveries, target.log.State(), target.plan, gate.open)
    }

    method Reconcile(row: Row) returns (r: Point)
      ensures r == Reconciled(old(Now()).remote, row)
      ensures r.Confirming? ==> r.row == row
    {
      var read := target.log.Read(row.room, 0, 100);
      var records := read.value;
      var matches: seq<Record> := [];
      for i := 0 to |records|
        invariant matches == Matches(records[..i], row)
      {
        assert records[..i + 1][..i] == records[..i];
        var x := records[i];
        if x.did == row.did && x.nonce == row.nonce && x.text == row.text {
          matches := matches + [x];
        }
      }
      assert records[..|records|] == records;
      if |matches| > 1 {
        return Finished(Failed(DuplicateRemote));
      }
      if |matches| == 0 {
        return Finished(Failed(NotFoundUpstream));
      }
      r := Confirming(row, Record(matches[0].sequence, row.room, row.did, row.nonce, row.text, row.signature));
    }

    // What a call shows its caller: its outcome, or nothing when the process died first.
    static function Shown(s: Sender): Option<Outcome> {
      match s.at case Finished(o) => Some(o) case _ => None
    }

    // Runs until it ends or until the process dies after `steps` steps (None). Either way the
    // durable state is exactly what that many steps of one sender leave.
    method SendText(key: string, actor: string, room: string, text: string, steps: nat) returns (out: Option<Outcome>)
      modifies target, target.log, signer.store, store`deliveries
      ensures (Now(), out) == Ended(signer.did, old(Now()), Sender(Request(key, actor, room, text), Starting), steps)
    {
      ghost var s := Sender(Request(key, actor, room, text), Starting);
      if steps == 0 {
        return None;
      }
      ghost var s1 := Step(signer.did, Now(), s).1;
      if !gate.open {
        FinishedStays(signer.did, Now(), s1, steps - 1);
        return Some(Failed(GateClosed));
      }
      var existing := store.Delivery(key);
      if existing.None? {
        out := SignAndPrepare(key, actor, room, text, steps - 1);
        return;
      }
      var current := existing.value;
      if current.actor != actor || current.room != room || current.text != text {
        FinishedStays(signer.did, Now(), s1, steps - 1);
        return Some(Failed(KeyConflict));
      }
      if current.status.Confirmed? {
        FinishedStays(signer.did, Now(), s1, steps - 1);
        if current.sequence.None? {
          return Some(Failed(MissingSequence));
        }
        return Some(Delivered(Record(current.sequence.value, room, current.did, current.nonce, current.text,
                                     current.signature)));
      }
      out := PostAndConfirm(key, actor, room, text, current, steps - 1);
    }

    static function Ended(own: string, w: World, s: Sender, steps: nat): (World, Option<Outcome>) {
      var (w', s') := Solo(own, w, s, steps);
      (w', Shown(s'))
    }

    // No row yet: draw a nonce and sign, then persist the exact signed bytes.
    method SignAndPrepare(key: string, actor: string, room: string, text: string, steps: nat)
      returns (out: Option<Outcome>)
      modifies target, target.log, signer.store, store`deliveries
      ensures (Now(), out) == Ended(signer.did, old(Now()), Sender(Request(key, actor, room, text), Signing), steps)
    {
      ghost var q := Request(key, actor, room, text);
      if steps == 0 {
        return None;
      }
      var signed := signer.Handle(MessageRequest(actor, room, text));
      assert Now() == Step(signer.did, old(Now()), Sender(q, Signing)).0;
      if signed.Err? {
        FinishedStays(signer.did, Now(), Sender(q, Finished(Failed(SignerFailed(signed.error)))), steps - 1);
        return Some(Failed(SignerFailed(signed.error)));
      }
      if signed.value.nonce.None? {
        assert false; // the source raises here; the signer never omits a message nonce
      }
      out := Prepare(key, actor, room, text, signed.value.did, signed.value.nonce.value, signed.value.signature,
                     steps - 1);
    }

    method Prepare(key: string, actor: string, room: string, text: string, did: string, nonce: nat,
                   signature: Signature,
                   steps: nat) returns (out: Option<Outcome>)
      modifies target, target.log, store`deliveries
      ensures (Now(), out) == Ended(signer.did, old(Now()),
                                    Sender(Request(key, actor, room, text), Signed(did, nonce, signature)), steps)
    {
      ghost var s := Sender(Request(key, actor, room, text), Signed(did, nonce, signature));
      if steps == 0 {
        return None;
      }
      ghost var s1 := Step(signer.did, Now(), s).1;
      var inserted := store.PrepareDelivery(key, actor, room, did, nonce, text, signature);
      assert Now() == Step(signer.did, old(Now()), s).0;
      if !inserted {
        FinishedStays(signer.did, Now(), s1, steps - 1);
        return Some(Failed(KeyTaken));
      }
      var current := Row(actor, room, did, nonce, text, signature, Prepared, None);
      out := PostAndConfirm(key, actor, room, text, current, steps - 1);
    }

    // The bounded retry loop: a second attempt only after a short 429.
    method PostAndConfirm(key: string, actor: string, room: string, text: string, current: Row, steps: nat)
      returns (out: Option<Outcome>)
      modifies target, target.log, store`deliveries
      ensures (Now(), out) == Ended(signer.did, old(Now()),
                                    Sender(Request(key, actor, room, text), Sending(current, 0)), steps)
    {
      ghost var q := Request(key, actor, room, text);
      ghost var goal := Ended(signer.did, Now(), Sender(q, Sending(current, 0)), steps);
      var left := steps;
      var attempt := 0;
      while true
        invariant attempt <= 1
        invariant goal == Ended(signer.did, Now(), Sender(q, Sending(current, attempt)), left)
        invariant store.deliveries == old(store.deliveries)
        decreases 2 - attempt
      {
        if left == 0 {
          return None;
        }
        ghost var w := Now();
        var result := target.PostSigned(actor, room, current.did, current.nonce, current.text, current.signature, w);
        ghost var s := Sender(q, Answered(current, attempt, result));
        assert (Now(), s) == Step(signer.did, w, Sender(q, Sending(current, attempt)));
        left := left - 1;
        assert goal == Ended(signer.did, Now(), s, left);
        if result.Posted? {
          out := Confirm(key, result.record, left, q, current);
          return;
        }
        if !result.RateLimited? {
          out := Settle(key, current, attempt, result, left, q);
          return;
        }
        if attempt > 0 || result.retryAfter > 2 {
          FinishedStays(signer.did, Now(), s, left);
          return Some(Failed(StillRateLimited));
        }
        attempt := attempt + 1;
      }
    }

    // Anything but a record or a 429: reconcile an uncertain write, or give up.
    method Settle(key: string, current: Row, attempt: nat, result: PostResult, steps: nat, ghost q: Request)
      returns (out: Option<Outcome>)
      requires q.key == key && !result.Posted? && !result.RateLimited?
      modifies store`deliveries
      ensures (Now(), out) == Ended(signer.did, old(Now()), Sender(q, Answered(current, attempt, result)), steps)
    {
      ghost var s := Sender(q, Answered(current, attempt, result));
      if result.InvalidRequest? {
        FinishedStays(signer.did, Now(), s, steps);
        return Some(Failed(InvalidUpstream(result.reason)));
      }
      if result.Refusal? && result.status != 403 && result.status != 409 && result.status != 422 {
        FinishedStays(signer.did, Now(), s, steps);
        return Some(Failed(RefusedUpstream(result.status)));
      }
      if steps == 0 {
        return None;
      }
      var found := Reconcile(current);
      if found.Finished? {
        FinishedStays(signer.did, Now(), Sender(q, found), steps - 1);
        return Some(found.outcome);
      }
      out := Confirm(key, found.record, steps - 1, q, current);
    }

    method Confirm(key: string, record: Record, steps: nat, ghost q: Request, ghost row: Row)
      returns (out: Option<Outcome>)
      requires q.key == key
      modifies store`deliveries
      ensures (Now(), out) == Ended(signer.did, old(Now()), Sender(q, Confirming(row, record)), steps)
    {
      if steps == 0 {
        return None;
      }
      ghost var (w, s) := Step(signer.did, Now(), Sender(q, Confirming(row, record)));
      var ok := store.ConfirmDelivery(key, record.sequence);
      FinishedStays(signer.did, w, s, steps - 1);
      if !ok {
        return Some(Failed(InvalidUpstream("unknown outbound delivery")));
      }
      out := Some(Delivered(record));
    }
  }
}
