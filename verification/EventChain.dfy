// The hash chain over a cell's events (src/rosetta/evidence.py:29-46).
module EventChain {

  datatype Event = Event(actor: string, operation: string, status: string, detail: string)

  // What one event contributes to the hash; the schema name is the same for all.
  datatype Base = Base(
    sequence: nat,
    actor: string,
    operation: string,
    status: string,
    correlation: string,
    detail: string,
    previous: string)

  datatype Link = Link(base: Base, hash: string)

  // "sha256:" and the digest of the canonical JSON of a base.
  type BaseHash = Base -> string

  type Redaction = string -> string

  ghost predicate CollisionFree(hash: BaseHash) {
    forall x, y :: hash(x) == hash(y) ==> x == y
  }

  const GENESIS := "sha256:" + Zeros(64)

  function Zeros(n: nat): string {
    if n == 0 then "" else "0" + Zeros(n - 1)
  }

  // The last event hash of a chain, which stands for the whole of it.
  function HeadOf(links: seq<Link>): string {
    if links == [] then GENESIS else links[|links| - 1].hash
  }

  function BaseOf(event: Event, sequence: nat, correlation: string, redact: Redaction, previous: string): Base {
    Base(sequence, event.actor, event.operation, event.status, correlation, redact(event.detail), previous)
  }

  // A chain as anyone can check it: numbered from one, each link carrying the hash of the one
  // before it and its own.
  ghost predicate WellChained(links: seq<Link>, hash: BaseHash) {
    if links == [] then true
    else
      var front, last := links[..|links| - 1], links[|links| - 1];
      && WellChained(front, hash)
      && last.base.sequence == |links| && last.base.previous == HeadOf(front) && last.hash == hash(last.base)
  }

  // A link tells of an event: its place, what happened in whose name, and the redacted detail.
  ghost predicate TellsOf(base: Base, event: Event, place: nat, correlation: string, redact: Redaction) {
    && base.sequence == place && base.correlation == correlation
    && base.actor == event.actor && base.operation == event.operation && base.status == event.status
    && base.detail == redact(event.detail)
  }

  // The events a chain tells of, numbered from one.
  ghost predicate Tells(links: seq<Link>, events: seq<Event>, correlation: string, redact: Redaction) {
    && |links| == |events|
    && forall i :: 0 <= i < |links| ==> TellsOf(links[i].base, events[i], i + 1, correlation, redact)
  }

  lemma {:induction false} Longer(links: seq<Link>, events: seq<Event>, correlation: string, redact: Redaction,
                                  hash: BaseHash, base: Base)
    requires |links| < |events| && WellChained(links, hash) && Tells(links, events[..|links|], correlation, redact)
    requires base == BaseOf(events[|links|], |links| + 1, correlation, redact, HeadOf(links))
    ensures var longer := links + [Link(base, hash(base))];
            && WellChained(longer, hash) && Tells(longer, events[..|links| + 1], correlation, redact)
            && HeadOf(longer) == hash(base)
  {
    var i := |links|;
    assert (links + [Link(base, hash(base))])[..i] == links;
    assert events[..i + 1] == events[..i] + [events[i]];
  }

  method Build(events: seq<Event>, correlation: string, redact: Redaction, hash: BaseHash) returns (output: seq<Link>)
    ensures WellChained(output, hash) && Tells(output, events, correlation, redact)
  {
    var previous := GENESIS;
    output := [];
    for i := 0 to |events|
      invariant |output| == i && previous == HeadOf(output)
      invariant WellChained(output, hash) && Tells(output, events[..i], correlation, redact)
    {
      var base := BaseOf(events[i], i + 1, correlation, redact, previous);
      var current := hash(base);
      Longer(output, events, correlation, redact, hash, base);
      output := output + [Link(base, current)];
      previous := current;
    }
    assert events[..|events|] == events;
  }

  // One hash stands for one chain: the sequence field fixes how many links there are, and then
  // each previous hash fixes the link before.
  lemma {:induction false} HeadDeterminesChain(a: seq<Link>, b: seq<Link>, hash: BaseHash)
    requires CollisionFree(hash) && WellChained(a, hash) && WellChained(b, hash)
    requires a != [] && b != [] && HeadOf(a) == HeadOf(b)
    ensures a == b
  {
    var n := |a| - 1;
    assert a[n].base == b[|b| - 1].base;
    if n == 0 {
    } else {
      HeadDeterminesChain(a[..n], b[..n], hash);
    }
    assert a == a[..n] + [a[n]] && b == b[..n] + [b[n]];
  }

  // Two event lists with the same last event hash have the same length and, event by event, the
  // same actor, operation, status and redacted detail. With an empty list on one side this needs
  // that nothing hashes to the genesis value.
  lemma {:induction false} HeadDeterminesEvents(a: seq<Link>, b: seq<Link>, x: seq<Event>, y: seq<Event>, cx: string,
                                                cy: string, redact: Redaction, hash: BaseHash)
    requires CollisionFree(hash) && WellChained(a, hash) && WellChained(b, hash)
    requires Tells(a, x, cx, redact) && Tells(b, y, cy, redact) && HeadOf(a) == HeadOf(b)
    requires (x == [] <==> y == []) || forall base :: hash(base) != GENESIS
    ensures a == b && |x| == |y| && (x != [] ==> cx == cy)
    ensures forall i :: 0 <= i < |x| ==>
              && x[i].actor == y[i].actor && x[i].operation == y[i].operation && x[i].status == y[i].status
              && redact(x[i].detail) == redact(y[i].detail)
  {
    if a != [] { assert a[|a| - 1].hash == hash(a[|a| - 1].base); }
    if b != [] { assert b[|b| - 1].hash == hash(b[|b| - 1].base); }
    if a != [] && b != [] { HeadDeterminesChain(a, b, hash); }
    if a != [] { assert TellsOf(a[0].base, x[0], 1, cx, redact) && TellsOf(b[0].base, y[0], 1, cy, redact); }
    forall i | 0 <= i < |x|
      ensures && x[i].actor == y[i].actor && x[i].operation == y[i].operation && x[i].status == y[i].status
              && redact(x[i].detail) == redact(y[i].detail)
    {
      assert TellsOf(a[i].base, x[i], i + 1, cx, redact) && TellsOf(b[i].base, y[i], i + 1, cy, redact);
    }
  }
}
