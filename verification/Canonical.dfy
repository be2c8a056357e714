// Signed payload text (src/rosetta_signer/canonical.py): the single-line sweep, and the
// room and note envelopes. A payload is its text; UTF-8 is injective and left implicit.
module Canonical {
  import opened Wrappers
  import opened Radix

  const MAX_NONCE: nat := 9_999_999_999_999_999_999

  predicate Between(c: char, lo: int, hi: int) {
    lo <= c as int <= hi
  }

  // General categories Cc, Cf, Co, Zl and Zp (Unicode 15.0; Cs cannot occur in a char).
  predicate SweptCategory(c: char) {
    || Between(c, 0x00, 0x1F) || Between(c, 0x7F, 0x9F)
    || c as int == 0xAD || Between(c, 0x600, 0x605) || c as int == 0x61C || c as int == 0x6DD
    || c as int == 0x70F || Between(c, 0x890, 0x891) || c as int == 0x8E2 || c as int == 0x180E
    || Between(c, 0x200B, 0x200F) || Between(c, 0x2028, 0x202E) || Between(c, 0x2060, 0x2064)
    || Between(c, 0x2066, 0x206F) || c as int == 0xFEFF || Between(c, 0xFFF9, 0xFFFB)
    || c as int == 0x110BD || c as int == 0x110CD || Between(c, 0x13430, 0x1343F)
    || Between(c, 0x1BCA0, 0x1BCA3) || Between(c, 0x1D173, 0x1D17A)
    || c as int == 0xE0001 || Between(c, 0xE0020, 0xE007F)
    || Between(c, 0xE000, 0xF8FF) || Between(c, 0xF0000, 0xFFFFD) || Between(c, 0x100000, 0x10FFFD)
  }

  // What str.strip() removes.
  predicate Whitespace(c: char) {
    || Between(c, 0x09, 0x0D) || Between(c, 0x1C, 0x20) || c as int == 0x85 || c as int == 0xA0
    || c as int == 0x1680 || Between(c, 0x2000, 0x200A) || Between(c, 0x2028, 0x2029)
    || c as int == 0x202F || c as int == 0x205F || c as int == 0x3000
  }

  function SweepChars(text: string): (s: string)
    ensures |s| == |text|
    ensures forall i :: 0 <= i < |s| ==> s[i] == (if SweptCategory(text[i]) then ' ' else text[i])
  {
    seq(|text|, i requires 0 <= i < |text| => if SweptCategory(text[i]) then ' ' else text[i])
  }

  function StripLeft(s: string): string {
    if s != "" && Whitespace(s[0]) then StripLeft(s[1..]) else s
  }

  function StripRight(s: string): string {
    if s != "" && Whitespace(s[|s| - 1]) then StripRight(s[..|s| - 1]) else s
  }

  function Strip(s: string): string {
    StripRight(StripLeft(s))
  }

  function SweepText(text: string, maxChars: nat): Result<string, string> {
    var swept := Strip(SweepChars(text));
    if swept == "" then Err("message is empty after Unicode sweep")
    else if |swept| > maxChars then Err("message exceeds post-sweep character limit")
    else Ok(swept)
  }

  predicate NonceInRange(nonce: int) {
    1 <= nonce <= MAX_NONCE
  }

  predicate SingleField(name: string) {
    name != "" && '|' !in name
  }

  function Decimal(n: nat): (s: string)
    requires n > 0
    ensures s != "" && s[0] != '0' && forall c :: c in s ==> '0' <= c <= '9'
  {
    var ds := Digits(n, 10);
    seq(|ds|, i requires 0 <= i < |ds| => (ds[i] + 48) as char)
  }

  function RoomPayload(room: string, nonce: int, text: string): Result<string, string> {
    if !SingleField(room) then Err("invalid room")
    else if !NonceInRange(nonce) then Err("nonce must contain 1-19 ASCII digits")
    else match SweepText(text, 4096)
      case Err(e) => Err(e)
      case Ok(swept) => Ok(room + "|" + Decimal(nonce) + "|" + swept)
  }

  function NotePayload(namespace: string, key: string, nonce: int, value: string): Result<string, string> {
    if namespace != "room-owners" && namespace != "room-allow" then Err("signed note namespace is not allowed")
    else if !SingleField(key) then Err("invalid note key")
    else if !NonceInRange(nonce) then Err("nonce must contain 1-19 ASCII digits")
    else match SweepText(value, 8192)
      case Err(e) => Err(e)
      case Ok(swept) => Ok(namespace + "|" + key + "|" + Decimal(nonce) + "|" + swept)
  }

  // ---- the sweep ----

  predicate Clean(s: string) {
    && (forall i :: 0 <= i < |s| ==> !SweptCategory(s[i]))
    && (s != "" ==> !Whitespace(s[0]) && !Whitespace(s[|s| - 1]))
  }

  lemma {:induction false} StripLeftIsSuffix(s: string)
    ensures var t := StripLeft(s); |t| <= |s| && t == s[|s| - |t|..] && (t != "" ==> !Whitespace(t[0]))
  {
    if s == "" || !Whitespace(s[0]) {
    } else {
      StripLeftIsSuffix(s[1..]);
    }
  }

  lemma {:induction false} StripRightIsPrefix(s: string)
    ensures var t := StripRight(s); t <= s && (t != "" ==> !Whitespace(t[|t| - 1]))
  {
    if s == "" || !Whitespace(s[|s| - 1]) {
    } else {
      StripRightIsPrefix(s[..|s| - 1]);
    }
  }

  lemma {:induction false} SweptIsClean(text: string)
    ensures Clean(Strip(SweepChars(text)))
  {
    var s := SweepChars(text);
    StripLeftIsSuffix(s);
    StripRightIsPrefix(StripLeft(s));
  }

  lemma {:induction false} CleanIsFixed(s: string)
    requires Clean(s)
    ensures Strip(SweepChars(s)) == s
  {
    assert SweepChars(s) == s;
  }

  // The sweep is idempotent, and its result never exceeds the bound.
  lemma {:induction false} SweepIdempotent(text: string, maxChars: nat)
    requires SweepText(text, maxChars).Ok?
    ensures SweepText(SweepText(text, maxChars).value, maxChars) == SweepText(text, maxChars)
    ensures Clean(SweepText(text, maxChars).value)
  {
    SweptIsClean(text);
    CleanIsFixed(SweepText(text, maxChars).value);
  }

  // From the first character that is not whitespace to the last; nothing if all are.
  predicate Stretch(s: string, i: nat, j: nat) {
    && i <= j <= |s| && (i < j ==> !Whitespace(s[i]) && !Whitespace(s[j - 1]))
    && forall k :: 0 <= k < |s| && !(i <= k < j) ==> Whitespace(s[k])
  }

  lemma {:induction false} StrippedLeft(s: string, i: nat)
    requires i <= |s| && (i < |s| ==> !Whitespace(s[i])) && forall k :: 0 <= k < i ==> Whitespace(s[k])
    ensures StripLeft(s) == s[i..]
  {
    if i == 0 {
    } else {
      StrippedLeft(s[1..], i - 1);
    }
  }

  lemma {:induction false} StrippedRight(s: string, j: nat)
    requires j <= |s| && (j > 0 ==> !Whitespace(s[j - 1])) && forall k :: j <= k < |s| ==> Whitespace(s[k])
    ensures StripRight(s) == s[..j]
  {
    if j == |s| {
    } else {
      StrippedRight(s[..|s| - 1], j);
      assert s[..|s| - 1][..j] == s[..j];
    }
  }

  lemma {:induction false} StrippedToStretch(s: string, i: nat, j: nat)
    requires Stretch(s, i, j)
    ensures Strip(s) == s[i..j]
  {
    if i == j {
      StrippedLeft(s, |s|);
    } else {
      StrippedLeft(s, i);
      StrippedRight(s[i..], j - i);
    }
  }

  lemma {:induction false} FirstKept(s: string) returns (i: nat)
    requires s != "" && !Whitespace(s[|s| - 1])
    ensures i < |s| && !Whitespace(s[i]) && forall k :: 0 <= k < i ==> Whitespace(s[k])
  {
    if !Whitespace(s[0]) {
      i := 0;
    } else {
      i := FirstKept(s[1..]);
      assert forall k :: 0 < k < |s| ==> s[k] == s[1..][k - 1];
      i := i + 1;
    }
  }

  lemma {:induction false} StretchExists(s: string) returns (i: nat, j: nat)
    ensures Stretch(s, i, j)
  {
    if s == "" {
      i, j := 0, 0;
    } else if !Whitespace(s[|s| - 1]) {
      i := FirstKept(s);
      j := |s|;
    } else {
      i, j := StretchExists(s[..|s| - 1]);
    }
  }

  // Every swept character is a space, every other itself.
  predicate Spaced(text: string, s: string) {
    |s| == |text| && forall k :: 0 <= k < |s| ==> s[k] == if SweptCategory(text[k]) then ' ' else text[k]
  }

  // The sweep of a text is the stretch of its spaced characters from the first to the last that is not
  // whitespace; it is refused exactly if there is none or it is too long.
  lemma {:induction false} SweepExactly(text: string, s: string, i: nat, j: nat, maxChars: nat)
    requires Spaced(text, s) && Stretch(s, i, j)
    ensures SweepText(text, maxChars)
         == if i == j then Err("message is empty after Unicode sweep")
            else if j - i > maxChars then Err("message exceeds post-sweep character limit")
            else Ok(s[i..j])
  {
    assert SweepChars(text) == s;
    StrippedToStretch(s, i, j);
  }

  // Every text has such a stretch.
  lemma {:induction false} SweepIsStretch(text: string) returns (s: string, i: nat, j: nat)
    ensures Spaced(text, s) && Stretch(s, i, j)
  {
    s := SweepChars(text);
    i, j := StretchExists(s);
  }

  // ---- what a payload determines ----

  lemma {:induction false} DecimalInjective(m: nat, n: nat)
    requires m > 0 && n > 0 && Decimal(m) == Decimal(n)
    ensures m == n
  {
    var a, b := Digits(m, 10), Digits(n, 10);
    assert |a| == |Decimal(m)| && |b| == |Decimal(n)|;
    assert forall i :: 0 <= i < |a| ==> Decimal(m)[i] == (a[i] + 48) as char;
    assert forall i :: 0 <= i < |a| ==> Decimal(n)[i] == (b[i] + 48) as char;
    assert a == b;
    ValueOfDigits(m, 10);
    ValueOfDigits(n, 10);
  }

  // Where the first separator is.
  function FirstBar(s: string): nat {
    if s == "" || s[0] == '|' then 0 else 1 + FirstBar(s[1..])
  }

  lemma {:induction false} FirstBarAfter(a: string, x: string)
    requires '|' !in a
    ensures FirstBar(a + "|" + x) == |a|
  {
    if a == "" {
    } else {
      FirstBarAfter(a[1..], x);
      assert (a + "|" + x)[1..] == a[1..] + "|" + x;
    }
  }

  // Text before the first separator is determined by the whole.
  lemma {:induction false} SplitAtBar(a: string, x: string, b: string, y: string)
    requires '|' !in a && '|' !in b
    requires a + "|" + x == b + "|" + y
    ensures a == b && x == y
  {
    var s := a + "|" + x;
    FirstBarAfter(a, x);
    FirstBarAfter(b, y);
    assert a == s[..|a|] && b == s[..|a|];
    assert x == s[|a| + 1..] && y == s[|a| + 1..];
  }

  lemma {:induction false} FieldsSplit(a: string, x: string, b: string, y: string, s: string)
    requires '|' !in a && '|' !in b
    requires s == a + "|" + x && s == b + "|" + y
    ensures a == b && x == y
  {
    SplitAtBar(a, x, b, y);
  }

  lemma {:induction false} RoomPayloadDetermines(r1: string, n1: int, t1: string, r2: string, n2: int, t2: string)
    requires RoomPayload(r1, n1, t1).Ok? && RoomPayload(r1, n1, t1) == RoomPayload(r2, n2, t2)
    ensures r1 == r2 && n1 == n2 && SweepText(t1, 4096) == SweepText(t2, 4096)
  {
    var s := RoomPayload(r1, n1, t1).value;
    var w1, w2 := SweepText(t1, 4096).value, SweepText(t2, 4096).value;
    assert s == r1 + "|" + (Decimal(n1) + "|" + w1);
    assert s == r2 + "|" + (Decimal(n2) + "|" + w2);
    FieldsSplit(r1, Decimal(n1) + "|" + w1, r2, Decimal(n2) + "|" + w2, s);
    SplitAtBar(Decimal(n1), w1, Decimal(n2), w2);
    DecimalInjective(n1, n2);
  }

  // What a payload says after its names: the nonce and the swept text.
  lemma {:induction false} NonceAndTextDetermine(n1: nat, w1: string, n2: nat, w2: string)
    requires n1 > 0 && n2 > 0 && Decimal(n1) + "|" + w1 == Decimal(n2) + "|" + w2
    ensures n1 == n2 && w1 == w2
  {
    SplitAtBar(Decimal(n1), w1, Decimal(n2), w2);
    DecimalInjective(n1, n2);
  }

  lemma {:induction false} TwoNamesDetermine(p1: string, k1: string, x1: string, p2: string, k2: string, x2: string)
    requires '|' !in p1 && '|' !in k1 && '|' !in p2 && '|' !in k2
    requires p1 + "|" + k1 + "|" + x1 == p2 + "|" + k2 + "|" + x2
    ensures p1 == p2 && k1 == k2 && x1 == x2
  {
    assert p1 + "|" + (k1 + "|" + x1) == p1 + "|" + k1 + "|" + x1;
    assert p2 + "|" + (k2 + "|" + x2) == p2 + "|" + k2 + "|" + x2;
    SplitAtBar(p1, k1 + "|" + x1, p2, k2 + "|" + x2);
    SplitAtBar(k1, x1, k2, x2);
  }

  lemma {:induction false} NoteInParts(namespace: string, key: string, nonce: int, value: string)
    requires NotePayload(namespace, key, nonce, value).Ok?
    ensures '|' !in namespace && '|' !in key && NonceInRange(nonce) && SweepText(value, 8192).Ok?
    ensures NotePayload(namespace, key, nonce, value).value
         == namespace + "|" + key + "|" + (Decimal(nonce) + "|" + SweepText(value, 8192).value)
  {
    var w := SweepText(value, 8192).value;
    assert namespace + "|" + key + "|" + Decimal(nonce) + "|" + w
      == namespace + "|" + key + "|" + (Decimal(nonce) + "|" + w);
  }

  lemma {:induction false} NotePayloadDetermines(p1: string, k1: string, n1: int, v1: string, p2: string, k2: string,
                                                 n2: int, v2: string)
    requires NotePayload(p1, k1, n1, v1).Ok? && NotePayload(p1, k1, n1, v1) == NotePayload(p2, k2, n2, v2)
    ensures p1 == p2 && k1 == k2 && n1 == n2 && SweepText(v1, 8192) == SweepText(v2, 8192)
  {
    NoteInParts(p1, k1, n1, v1);
    NoteInParts(p2, k2, n2, v2);
    var w1, w2 := SweepText(v1, 8192).value, SweepText(v2, 8192).value;
    TwoNamesDetermine(p1, k1, Decimal(n1) + "|" + w1, p2, k2, Decimal(n2) + "|" + w2);
    NonceAndTextDetermine(n1, w1, n2, w2);
  }

  // The text a note payload leaves after its key, read as a room message.
  function NoteRest(nonce: nat, value: string): string
    requires nonce > 0 && SweepText(value, 8192).Ok?
  {
    Decimal(nonce) + "|" + SweepText(value, 8192).value
  }

  predicate IsNonceText(key: string) {
    exists n: nat :: 0 < n <= MAX_NONCE && key == Decimal(n)
  }

  ghost predicate SomeRoomPayloadIs(s: string) {
    exists room: string, nonce: int, text: string :: RoomPayload(room, nonce, text) == Ok(s)
  }

  lemma {:induction false} NoteRestIsClean(nonce: nat, value: string)
    requires nonce > 0 && SweepText(value, 8192).Ok?
    ensures Clean(NoteRest(nonce, value)) && NoteRest(nonce, value) != ""
  {
    SweepIdempotent(value, 8192);
  }

  // A note payload read as a room payload: the room is the namespace and the nonce is the key.
  lemma {:induction false} RoomReadingNeedsNonceKey(namespace: string, key: string, nonce: int, value: string,
                                                    room: string, n: int, text: string)
    requires NotePayload(namespace, key, nonce, value).Ok?
    requires RoomPayload(room, n, text) == NotePayload(namespace, key, nonce, value)
    ensures NonceInRange(n) && key == Decimal(n) && room == namespace && |NoteRest(nonce, value)| <= 4096
  {
    var rest, w := NoteRest(nonce, value), SweepText(text, 4096).value;
    NoteInParts(namespace, key, nonce, value);
    TwoNamesDetermine(namespace, key, rest, room, Decimal(n), w);
  }

  lemma {:induction false} NonceKeyReadsAsRoom(namespace: string, n: nat, nonce: int, value: string)
    requires 0 < n <= MAX_NONCE
    requires NotePayload(namespace, Decimal(n), nonce, value).Ok?
    requires |NoteRest(nonce, value)| <= 4096
    ensures RoomPayload(namespace, n, NoteRest(nonce, value)) == NotePayload(namespace, Decimal(n), nonce, value)
  {
    var rest := NoteRest(nonce, value);
    NoteRestIsClean(nonce, value);
    CleanIsFixed(rest);
    assert SweepText(rest, 4096) == Ok(rest);
    assert namespace + "|" + Decimal(n) + "|" + rest
        == namespace + "|" + Decimal(n) + "|" + Decimal(nonce) + "|" + SweepText(value, 8192).value;
  }

  // A note payload is also some room payload exactly when its key spells a nonce and what
  // follows the key fits in a room message.
  lemma {:induction false} NoteReadAsRoom(namespace: string, key: string, nonce: int, value: string)
    requires NotePayload(namespace, key, nonce, value).Ok?
    ensures SomeRoomPayloadIs(NotePayload(namespace, key, nonce, value).value)
       <==> IsNonceText(key) && |NoteRest(nonce, value)| <= 4096
  {
    var s := NotePayload(namespace, key, nonce, value).value;
    if SomeRoomPayloadIs(s) {
      var room, n, text :| RoomPayload(room, n, text) == Ok(s);
      RoomReadingNeedsNonceKey(namespace, key, nonce, value, room, n, text);
    }
    if IsNonceText(key) && |NoteRest(nonce, value)| <= 4096 {
      var n: nat :| 0 < n <= MAX_NONCE && key == Decimal(n);
      NonceKeyReadsAsRoom(namespace, n, nonce, value);
      assert RoomPayload(namespace, n, NoteRest(nonce, value)) == Ok(s);
    }
  }
}
