// What a delivery is for and the key it is sent under (src/rosetta/engagement.py:43, 156-159,
// src/rosetta/service.py:334-368): no two purposes share a key.
module DeliveryKeys {
  import opened Canonical
  import opened Engagement
  import R = Requests
  import S = Signer

  datatype Purpose =
    | ReplyTo(message: ReplyKey)
    | PostIn(policy: string, room: string, slot: nat)
    | AckOf(request: R.Key)
    | ResultOf(request: R.Key, root: string)
    | Other(key: string)

  const ENGAGEMENT: string := "engagement:"
  const PROACTIVE: string := "proactive:"
  const ACK: string := "ack:"
  const RESULT: string := "result:"

  function NumberText(n: int): string {
    if n < 0 then "" else SlotText(n)
  }

  function KeyOf(u: Purpose): string {
    match u
    case ReplyTo(k) => ENGAGEMENT + k.room + ":" + NumberText(k.generation) + ":" + NumberText(k.sequence)
    case PostIn(policy, room, slot) => PostKey(policy, room, slot)
    case AckOf(k) => ACK + k.0 + ":" + k.1
    case ResultOf(k, root) => RESULT + k.0 + ":" + k.1 + ":" + root
    case Other(key) => key
  }

  predicate NoColon(s: string) {
    forall i :: 0 <= i < |s| ==> s[i] != ':'
  }

  // The client's room names and the requests' ids have no colon; a root is "sha256:" and 64 digits.
  predicate Proper(u: Purpose) {
    match u
    case ReplyTo(k) => NoColon(k.room) && k.generation >= 0 && k.sequence >= 0
    case PostIn(policy, room, _) => S.ValidDigest(policy) && NoColon(room)
    case AckOf(k) => NoColon(k.1)
    case ResultOf(k, root) => NoColon(k.1) && S.ValidDigest(root)
    case Other(key) => !(ENGAGEMENT <= key) && !(ACK <= key) && !(RESULT <= key)
  }

  // ---- splitting at the last colon ----

  lemma {:induction false} SameEnds(a: string, x: string, b: string, y: string)
    requires a + x == b + y && |x| == |y|
    ensures a == b && x == y
  {
    var s := a + x;
    assert a == s[..|a|] && x == s[|a|..] && b == s[..|b|] && y == s[|b|..];
  }

  lemma {:induction false} LastField(a: string, x: string, b: string, y: string)
    requires NoColon(x) && NoColon(y) && a + ":" + x == b + ":" + y
    ensures a == b && x == y
  {
    var s := a + ":" + x;
    assert s == b + ":" + y;
    assert s[|a|] == ':' && s[|b|] == ':';
    assert forall i :: |a| < i < |s| ==> s[i] == x[i - |a| - 1];
    assert forall i :: |b| < i < |s| ==> s[i] == y[i - |b| - 1];
    assert |a| == |b|;
    SameEnds(a + ":", x, b + ":", y);
    SameEnds(a, ":", b, ":");
  }

  lemma {:induction false} SameStart(p: string, a: string, b: string)
    requires p + a == p + b
    ensures a == b
  {
    assert a == (p + a)[|p|..] && b == (p + b)[|p|..];
  }

  lemma {:induction false} NumberIsPlain(n: int)
    requires n >= 0
    ensures NoColon(NumberText(n)) && NumberText(n) != ""
  {
    if n == 0 {
      assert NumberText(0) == "0";
    } else {
      var s := Decimal(n);
      forall i | 0 <= i < |s| ensures s[i] != ':' { assert s[i] in s; }
    }
  }

  lemma {:induction false} FirstDigit(n: int)
    requires n >= 0
    ensures NumberText(n) != "" && (NumberText(n)[0] == '0' <==> n == 0)
  {
    if n == 0 { assert NumberText(0) == "0"; }
  }

  lemma {:induction false} NumbersDiffer(m: int, n: int)
    requires m >= 0 && n >= 0 && NumberText(m) == NumberText(n)
    ensures m == n
  {
    if m > 0 && n > 0 {
      DecimalInjective(m, n);
    } else {
      FirstDigit(m);
      FirstDigit(n);
    }
  }

  // ---- one kind ----

  lemma {:induction false} RepliesDiffer(j: ReplyKey, k: ReplyKey)
    requires Proper(ReplyTo(j)) && Proper(ReplyTo(k)) && KeyOf(ReplyTo(j)) == KeyOf(ReplyTo(k))
    ensures j == k
  {
    NumberIsPlain(j.generation);
    NumberIsPlain(j.sequence);
    NumberIsPlain(k.generation);
    NumberIsPlain(k.sequence);
    LastField(ENGAGEMENT + j.room + ":" + NumberText(j.generation), NumberText(j.sequence),
              ENGAGEMENT + k.room + ":" + NumberText(k.generation), NumberText(k.sequence));
    LastField(ENGAGEMENT + j.room, NumberText(j.generation), ENGAGEMENT + k.room, NumberText(k.generation));
    SameStart(ENGAGEMENT, j.room, k.room);
    NumbersDiffer(j.generation, k.generation);
    NumbersDiffer(j.sequence, k.sequence);
  }

  lemma {:induction false} PostsDiffer(u: Purpose, v: Purpose)
    requires u.PostIn? && v.PostIn? && Proper(u) && Proper(v) && KeyOf(u) == KeyOf(v)
    ensures u == v
  {
    NumberIsPlain(u.slot);
    NumberIsPlain(v.slot);
    LastField(PROACTIVE_PREFIX + u.policy + ":" + u.room, SlotText(u.slot),
              PROACTIVE_PREFIX + v.policy + ":" + v.room, SlotText(v.slot));
    LastField(PROACTIVE_PREFIX + u.policy, u.room, PROACTIVE_PREFIX + v.policy, v.room);
    SameStart(PROACTIVE_PREFIX, u.policy, v.policy);
    NumbersDiffer(u.slot, v.slot);
  }

  lemma {:induction false} AcksDiffer(j: R.Key, k: R.Key)
    requires Proper(AckOf(j)) && Proper(AckOf(k)) && KeyOf(AckOf(j)) == KeyOf(AckOf(k))
    ensures j == k
  {
    LastField(ACK + j.0, j.1, ACK + k.0, k.1);
    SameStart(ACK, j.0, k.0);
  }

  lemma {:induction false} ResultsDiffer(u: Purpose, v: Purpose)
    requires u.ResultOf? && v.ResultOf? && Proper(u) && Proper(v) && KeyOf(u) == KeyOf(v)
    ensures u == v
  {
    SameEnds(RESULT + u.request.0 + ":" + u.request.1 + ":", u.root, RESULT + v.request.0 + ":" + v.request.1 + ":",
             v.root);
    SameEnds(RESULT + u.request.0 + ":" + u.request.1, ":", RESULT + v.request.0 + ":" + v.request.1, ":");
    LastField(RESULT + u.request.0, u.request.1, RESULT + v.request.0, v.request.1);
    SameStart(RESULT, u.request.0, v.request.0);
  }

  // ---- two kinds ----

  lemma {:induction false} PrefixInParts()
    ensures PROACTIVE_PREFIX == ENGAGEMENT + PROACTIVE
  {
  }

  lemma {:induction false} PolicyHasColon(policy: string)
    ensures !NoColon(PROACTIVE + policy)
  {
    assert (PROACTIVE + policy)[9] == ':';
  }

  // A reply's room would have to hold the colons of a post's policy.
  lemma {:induction false} ReplyIsNoPost(k: ReplyKey, v: Purpose)
    requires v.PostIn? && Proper(ReplyTo(k)) && Proper(v)
    ensures KeyOf(ReplyTo(k)) != KeyOf(v)
  {
    if KeyOf(ReplyTo(k)) == KeyOf(v) {
      NumberIsPlain(k.generation);
      NumberIsPlain(k.sequence);
      NumberIsPlain(v.slot);
      LastField(ENGAGEMENT + k.room + ":" + NumberText(k.generation), NumberText(k.sequence),
                PROACTIVE_PREFIX + v.policy + ":" + v.room, SlotText(v.slot));
      LastField(ENGAGEMENT + k.room, NumberText(k.generation), PROACTIVE_PREFIX + v.policy, v.room);
      PrefixInParts();
      assert PROACTIVE_PREFIX + v.policy == ENGAGEMENT + (PROACTIVE + v.policy);
      SameStart(ENGAGEMENT, k.room, PROACTIVE + v.policy);
      PolicyHasColon(v.policy);
    }
  }

  function KindOf(u: Purpose): string {
    match u
    case ReplyTo(_) => ENGAGEMENT
    case PostIn(_, _, _) => ENGAGEMENT
    case AckOf(_) => ACK
    case ResultOf(_, _) => RESULT
    case Other(_) => ""
  }

  lemma {:induction false} StartsWithKind(u: Purpose)
    ensures KindOf(u) <= KeyOf(u)
  {
    if u.PostIn? {
      PrefixInParts();
      assert PROACTIVE_PREFIX <= KeyOf(u);
    }
  }

  lemma {:induction false} KindsDiffer(u: Purpose, v: Purpose)
    requires Proper(u) && Proper(v) && KeyOf(u) == KeyOf(v)
    ensures KindOf(u) == KindOf(v)
  {
    StartsWithKind(u);
    StartsWithKind(v);
    assert ENGAGEMENT[0] == 'e' && ACK[0] == 'a' && RESULT[0] == 'r';
  }

  // No two purposes share a key.
  lemma {:induction false} KeysDiffer(u: Purpose, v: Purpose)
    requires Proper(u) && Proper(v) && KeyOf(u) == KeyOf(v)
    ensures u == v
  {
    KindsDiffer(u, v);
    match u
    case ReplyTo(k) => if v.ReplyTo? { RepliesDiffer(k, v.message); } else { ReplyIsNoPost(k, v); }
    case PostIn(_, _, _) => if v.PostIn? { PostsDiffer(u, v); } else { ReplyIsNoPost(v.message, u); }
    case AckOf(k) => AcksDiffer(k, v.request);
    case ResultOf(_, _) => ResultsDiffer(u, v);
    case Other(_) =>
  }

  const OTHERS: seq<string> := ["offer:", "rejection:", "announcement:", "announcement-recovery:", "service-presence:"]

  lemma {:induction false} OtherStarts(i: nat, rest: string)
    requires i < |OTHERS|
    ensures var key := OTHERS[i] + rest;
            |key| > 2 && key[0] != 'e' && (key[0] == 'a' ==> key[1] != 'c') && (key[0] == 'r' ==> key[2] != 's')
  {
    assert OTHERS[i] == "offer:" || OTHERS[i] == "rejection:" || OTHERS[i] == "announcement:"
           || OTHERS[i] == "announcement-recovery:" || OTHERS[i] == "service-presence:";
  }

  // Everything else the service sends goes under a key of another kind.
  lemma {:induction false} OthersAreProper(i: nat, rest: string)
    requires i < |OTHERS|
    ensures Proper(Other(OTHERS[i] + rest))
  {
    OtherStarts(i, rest);
    assert ENGAGEMENT[0] == 'e' && ACK[0] == 'a' && ACK[1] == 'c' && RESULT[0] == 'r' && RESULT[2] == 's';
  }
}
