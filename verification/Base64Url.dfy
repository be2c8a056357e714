// Unpadded base64url, section 5 of RFC 4648 (src/rosetta_signer/did.py:44-51), and the shape the
// client demands of a signature (src/rosetta/technocore_client.py:25).
module Base64Url {
  import opened Wrappers
  import opened Base58

  type Sextet = x: nat | x < 64

  // ---- symbols ----

  function Letter(x: Sextet): char {
    if x < 26 then (x + 65) as char
    else if x < 52 then (x - 26 + 97) as char
    else if x < 62 then (x - 52 + 48) as char
    else if x == 62 then '-'
    else '_'
  }

  // Decoding also takes the two symbols of the plain alphabet.
  function SextetOf(c: char): Option<Sextet> {
    if 'A' <= c <= 'Z' then Some(c as int - 65)
    else if 'a' <= c <= 'z' then Some(c as int - 97 + 26)
    else if '0' <= c <= '9' then Some(c as int - 48 + 52)
    else if c == '-' || c == '+' then Some(62)
    else if c == '_' || c == '/' then Some(63)
    else None
  }

  predicate UrlSafe(c: char) {
    'A' <= c <= 'Z' || 'a' <= c <= 'z' || '0' <= c <= '9' || c == '-' || c == '_'
  }

  lemma {:induction false} LetterOf(x: Sextet)
    ensures SextetOf(Letter(x)) == Some(x) && UrlSafe(Letter(x))
  {
  }

  lemma {:induction false} LetterBack(c: char)
    requires UrlSafe(c)
    ensures SextetOf(c).Some? && Letter(SextetOf(c).value) == c
  {
  }

  // ---- bits in sixes and in eights ----

  function Sextets(d: seq<Byte>): seq<Sextet> {
    if |d| == 0 then []
    else if |d| == 1 then [d[0] / 4, d[0] % 4 * 16]
    else if |d| == 2 then [d[0] / 4, d[0] % 4 * 16 + d[1] / 16, d[1] % 16 * 4]
    else [d[0] / 4, d[0] % 4 * 16 + d[1] / 16, d[1] % 16 * 4 + d[2] / 64, d[2] % 64] + Sextets(d[3..])
  }

  function First(a: nat, b: nat): Byte
    requires a < 64 && b < 64
  {
    a * 4 + b / 16
  }

  function Second(b: nat, c: nat): Byte
    requires b < 64 && c < 64
  {
    b % 16 * 16 + c / 4
  }

  function Third(c: nat, d: nat): Byte
    requires c < 64 && d < 64
  {
    c % 4 * 64 + d
  }

  // A last group of two or three gives one or two bytes and drops its last bits.
  function Octets(q: seq<Sextet>): seq<Byte> {
    if |q| < 2 then []
    else if |q| == 2 then [First(q[0], q[1])]
    else if |q| == 3 then [First(q[0], q[1]), Second(q[1], q[2])]
    else [First(q[0], q[1]), Second(q[1], q[2]), Third(q[2], q[3])] + Octets(q[4..])
  }

  function Encode(d: seq<Byte>): string {
    Letters(Sextets(d))
  }

  function Letters(q: seq<Sextet>): (s: string)
    ensures |s| == |q| && forall i :: 0 <= i < |q| ==> s[i] == Letter(q[i])
  {
    seq(|q|, i requires 0 <= i < |q| => Letter(q[i]))
  }

  // The symbols of a text; everything else is passed over.
  function Symbols(s: string): seq<Sextet> {
    if s == "" then []
    else
      var front := Symbols(s[..|s| - 1]);
      var last := SextetOf(s[|s| - 1]);
      if last.Some? then front + [last.value] else front
  }

  // As many padding characters are added as the whole length asks for, symbols or not.
  function Decode(s: string): Result<seq<Byte>, string> {
    if '=' in s then Err("padding is forbidden")
    else if exists i :: 0 <= i < |s| && s[i] as int >= 128
      then Err("string argument should contain only ASCII characters")
    else
      var q := Symbols(s);
      var pads := (4 - |s| % 4) % 4;
      if |q| % 4 == 1 then Err("invalid base64-encoded string")
      else if |q| % 4 == 2 && pads < 2 then Err("incorrect padding")
      else if |q| % 4 == 3 && pads < 1 then Err("incorrect padding")
      else Ok(Octets(q))
  }

  lemma {:induction false} SextetsLength(d: seq<Byte>)
    ensures |Sextets(d)| == (4 * |d| + 2) / 3
  {
    if |d| < 3 {
    } else {
      SextetsLength(d[3..]);
    }
  }

  lemma {:induction false} BytesBack(x: Byte, y: Byte, z: Byte)
    ensures First(x / 4, x % 4 * 16 + y / 16) == x
    ensures Second(x % 4 * 16 + y / 16, y % 16 * 4 + z / 64) == y
    ensures Third(y % 16 * 4 + z / 64, z % 64) == z
  {
  }

  lemma {:induction false} LastBytesBack(d: seq<Byte>)
    requires |d| < 3
    ensures Octets(Sextets(d)) == d
  {
    if |d| == 1 {
      BytesBack(d[0], 0, 0);
    } else if |d| == 2 {
      BytesBack(d[0], d[1], 0);
    }
  }

  lemma {:induction false} OctetsOfSextets(d: seq<Byte>)
    ensures Octets(Sextets(d)) == d
  {
    if |d| < 3 {
      LastBytesBack(d);
    } else {
      OctetsOfSextets(d[3..]);
      BytesBack(d[0], d[1], d[2]);
      assert Sextets(d)[4..] == Sextets(d[3..]);
      assert d == [d[0], d[1], d[2]] + d[3..];
    }
  }

  // The bits a last group drops are zero.
  predicate TailIsZero(q: seq<Sextet>) {
    && |q| % 4 != 1
    && (|q| % 4 == 2 ==> q[|q| - 1] % 16 == 0)
    && (|q| % 4 == 3 ==> q[|q| - 1] % 4 == 0)
  }

  lemma {:induction false} SextetsTail(d: seq<Byte>)
    ensures TailIsZero(Sextets(d))
  {
    if |d| < 3 {
    } else {
      SextetsTail(d[3..]);
    }
  }

  function Group(a: Byte, b: Byte, c: Byte): seq<Sextet> {
    [a / 4, a % 4 * 16 + b / 16, b % 16 * 4 + c / 64, c % 64]
  }

  lemma {:induction false} SextetsOfThree(x: Byte, y: Byte, z: Byte, rest: seq<Byte>)
    ensures Sextets([x, y, z] + rest) == Group(x, y, z) + Sextets(rest)
  {
    assert ([x, y, z] + rest)[3..] == rest;
  }

  lemma {:induction false} LastGroupBack(q: seq<Sextet>)
    requires |q| < 4 && TailIsZero(q)
    ensures Sextets(Octets(q)) == q
  {
    if |q| == 2 { GroupBack(q[0], q[1], 0, 0); } else if |q| == 3 { GroupBack(q[0], q[1], q[2], 0); }
  }

  lemma {:induction false} SextetsOfOctets(q: seq<Sextet>)
    requires TailIsZero(q)
    ensures Sextets(Octets(q)) == q
  {
    if |q| < 4 {
      LastGroupBack(q);
    } else {
      SextetsOfOctets(q[4..]);
      SextetsOfThree(First(q[0], q[1]), Second(q[1], q[2]), Third(q[2], q[3]), Octets(q[4..]));
      GroupBack(q[0], q[1], q[2], q[3]);
      assert q == [q[0], q[1], q[2], q[3]] + q[4..];
    }
  }

  lemma {:induction false} GroupBack(a: Sextet, b: Sextet, c: Sextet, d: Sextet)
    ensures var x, y, z := First(a, b), Second(b, c), Third(c, d);
            x / 4 == a && x % 4 * 16 + y / 16 == b && y % 16 * 4 + z / 64 == c && z % 64 == d
  {
  }

  // ---- the bits, one by one ----

  // Bit k of x from below.
  function Bit(x: nat, k: nat): nat {
    if k == 0 then x % 2 else Bit(x / 2, k - 1)
  }

  // Bit n of the data, the highest of the first byte being bit 0; zeros follow the last byte.
  function BitOfBytes(d: seq<Byte>, n: nat): nat {
    if n / 8 < |d| then Bit(d[n / 8], 7 - n % 8) else 0
  }

  function BitOfSextets(q: seq<Sextet>, n: nat): nat
    requires n / 6 < |q|
  {
    Bit(q[n / 6], 5 - n % 6)
  }

  lemma {:induction false} BitOfSum(high: nat, low: nat, k: nat, j: nat)
    ensures low < Two(k) ==> Bit(high * Two(k) + low, j) == if j < k then Bit(low, j) else Bit(high, j - k)
    decreases k
  {
    if k == 0 || low >= Two(k) {
    } else {
      var x := high * Two(k) + low;
      assert x == 2 * (high * Two(k - 1)) + low;
      assert x / 2 == high * Two(k - 1) + low / 2 && x % 2 == low % 2;
      if j > 0 { BitOfSum(high, low / 2, k - 1, j - 1); }
    }
  }

  function Two(k: nat): (p: nat)
    ensures p > 0
  {
    if k == 0 then 1 else 2 * Two(k - 1)
  }

  function Unit(k: nat): nat {
    if k == 2 then 4 else if k == 4 then 16 else 64
  }

  lemma {:induction false} UnitIsTwo(k: nat)
    requires k == 2 || k == 4 || k == 6
    ensures Unit(k) == Two(k)
  {
    assert Two(2) == 4 && Two(4) == 16 && Two(6) == 64;
  }

  lemma {:induction false} BitsSplit(x: nat, k: nat, j: nat)
    requires k == 2 || k == 4 || k == 6
    ensures Bit(x / Unit(k), j) == Bit(x, j + k) && (j < k ==> Bit(x % Unit(k), j) == Bit(x, j))
  {
    UnitIsTwo(k);
    var u := Unit(k);
    assert x == x / u * u + x % u;
    BitOfSum(x / u, x % u, k, j);
    BitOfSum(x / u, x % u, k, j + k);
  }

  lemma {:induction false} BitsJoin(high: nat, low: nat, k: nat, j: nat)
    requires (k == 2 || k == 4) && low < Unit(k)
    ensures Bit(high * Unit(k) + low, j) == if j < k then Bit(low, j) else Bit(high, j - k)
  {
    assert Two(2) == 4 && Two(4) == 16;
    BitOfSum(high, low, k, j);
  }

  // Three bytes as four sextets, bit by bit.
  lemma {:induction false} GroupBits(a: Byte, b: Byte, c: Byte, j: nat)
    requires j < 6
    ensures Bit(a / 4, j) == Bit(a, j + 2)
    ensures Bit(a % 4 * 16 + b / 16, j) == if j < 4 then Bit(b, j + 4) else Bit(a, j - 4)
    ensures Bit(b % 16 * 4 + c / 64, j) == if j < 2 then Bit(c, j + 6) else Bit(b, j - 2)
    ensures Bit(c % 64, j) == Bit(c, j)
  {
    BitsSplit(a, 2, j);
    BitsSplit(b, 4, j);
    BitsSplit(c, 6, j);
    BitsJoin(a % 4, b / 16, 4, j);
    BitsJoin(b % 16, c / 64, 2, j);
    if j >= 4 { BitsSplit(a, 2, j - 4); }
    if j >= 2 { BitsSplit(b, 4, j - 2); }
  }

  lemma {:induction false} ZeroBits(j: nat)
    ensures Bit(0, j) == 0
  {
    if j == 0 {
    } else {
      ZeroBits(j - 1);
    }
  }

  lemma {:induction false} GroupBitAt(a: Byte, b: Byte, c: Byte, n: nat)
    requires n < 24
    ensures BitOfSextets(Group(a, b, c), n) == BitOfBytes([a, b, c], n)
  {
    GroupBits(a, b, c, 5 - n % 6);
    if n < 6 {
      assert n / 6 == 0 && n / 8 == 0;
    } else if n < 12 {
      assert n / 6 == 1;
    } else if n < 18 {
      assert n / 6 == 2;
    } else {
      assert n / 6 == 3 && n / 8 == 2;
    }
  }

  function ByteOr0(d: seq<Byte>, i: nat): Byte {
    if i < |d| then d[i] else 0
  }

  lemma {:induction false} FirstGroup(d: seq<Byte>, i: nat)
    requires i < |Sextets(d)| && i < 4
    ensures Sextets(d)[i] == Group(ByteOr0(d, 0), ByteOr0(d, 1), ByteOr0(d, 2))[i]
  {
  }

  lemma {:induction false} FirstBytes(d: seq<Byte>, n: nat)
    requires n < 24
    ensures BitOfBytes([ByteOr0(d, 0), ByteOr0(d, 1), ByteOr0(d, 2)], n) == BitOfBytes(d, n)
  {
    ZeroBits(7 - n % 8);
  }

  // The sextets carry the bits of the data in order, followed by zeros (section 4 of RFC 4648).
  lemma {:induction false} SextetBits(d: seq<Byte>, n: nat)
    requires n / 6 < |Sextets(d)|
    ensures BitOfSextets(Sextets(d), n) == BitOfBytes(d, n)
    decreases |d|
  {
    if n < 24 {
      FirstGroup(d, n / 6);
      GroupBitAt(ByteOr0(d, 0), ByteOr0(d, 1), ByteOr0(d, 2), n);
      FirstBytes(d, n);
    } else {
      LaterGroup(d, n);
      SextetBits(d[3..], n - 24);
    }
  }

  lemma {:induction false} LaterGroup(d: seq<Byte>, n: nat)
    requires n / 6 < |Sextets(d)| && n >= 24
    ensures |d| > 3 && (n - 24) / 6 < |Sextets(d[3..])|
    ensures BitOfSextets(Sextets(d), n) == BitOfSextets(Sextets(d[3..]), n - 24)
    ensures BitOfBytes(d, n) == BitOfBytes(d[3..], n - 24)
  {
    assert (n - 24) / 6 == n / 6 - 4 && (n - 24) % 6 == n % 6;
    assert (n - 24) / 8 == n / 8 - 3 && (n - 24) % 8 == n % 8;
    assert Sextets(d)[4..] == Sextets(d[3..]);
    assert Sextets(d)[n / 6] == Sextets(d)[4..][n / 6 - 4];
    if n / 8 < |d| { assert d[n / 8] == d[3..][n / 8 - 3]; }
  }

  // ---- texts ----

  predicate AllUrlSafe(s: string) {
    forall i :: 0 <= i < |s| ==> UrlSafe(s[i])
  }

  lemma {:induction false} SymbolsOfLetters(q: seq<Sextet>)
    ensures Symbols(Letters(q)) == q && AllUrlSafe(Letters(q))
  {
    if q == [] {
    } else {
      var n := |q| - 1;
      SymbolsOfLetters(q[..n]);
      assert Letters(q)[..n] == Letters(q[..n]);
      LetterOf(q[n]);
      assert q == q[..n] + [q[n]];
    }
  }

  lemma {:induction false} LettersOfSymbols(s: string)
    requires AllUrlSafe(s)
    ensures |Symbols(s)| == |s| && Letters(Symbols(s)) == s
    ensures forall i :: 0 <= i < |s| ==> SextetOf(s[i]) == Some(Symbols(s)[i])
  {
    if s == "" {
    } else {
      var n := |s| - 1;
      LettersOfSymbols(s[..n]);
      LetterBack(s[n]);
      assert s == s[..n] + [s[n]];
      assert Symbols(s) == Symbols(s[..n]) + [SextetOf(s[n]).value];
      forall i | 0 <= i < |s| ensures SextetOf(s[i]) == Some(Symbols(s)[i]) && Letters(Symbols(s))[i] == s[i] {
        if i < n { assert s[i] == s[..n][i] && Letters(Symbols(s[..n]))[i] == s[..n][i]; }
      }
    }
  }

  lemma {:induction false} SafeIsAscii(s: string)
    requires AllUrlSafe(s)
    ensures '=' !in s && forall i :: 0 <= i < |s| ==> s[i] as int < 128
  {
    forall i | 0 <= i < |s| ensures s[i] != '=' && s[i] as int < 128 { assert UrlSafe(s[i]); }
  }

  lemma {:induction false} PadsFit(n: nat)
    ensures n % 4 == 2 ==> (4 - n % 4) % 4 == 2
    ensures n % 4 == 3 ==> (4 - n % 4) % 4 == 1
  {
  }

  lemma {:induction false} PlainDecode(s: string)
    requires AllUrlSafe(s)
    ensures Decode(s) == if |s| % 4 == 1 then Err("invalid base64-encoded string") else Ok(Octets(Symbols(s)))
  {
    SafeIsAscii(s);
    PadsFit(|s|);
    assert |Symbols(s)| == |s| by { LettersOfSymbols(s); }
  }

  // Decoding inverts encoding, on every byte string.
  lemma {:induction false} DecodeOfEncode(d: seq<Byte>)
    ensures Decode(Encode(d)) == Ok(d) && AllUrlSafe(Encode(d)) && |Encode(d)| == (4 * |d| + 2) / 3
  {
    var q := Sextets(d);
    SymbolsOfLetters(q);
    SextetsTail(d);
    PlainDecode(Encode(d));
    OctetsOfSextets(d);
    SextetsLength(d);
  }

  predicate CanonicalText(s: string) {
    AllUrlSafe(s) && TailIsZero(Symbols(s))
  }

  // Encoding inverts decoding on exactly the texts that are encodings.
  lemma {:induction false} EncodeOfDecode(s: string)
    ensures Decode(s).Ok? && Encode(Decode(s).value) == s <==> CanonicalText(s)
  {
    if CanonicalText(s) {
      LettersOfSymbols(s);
      PlainDecode(s);
      SextetsOfOctets(Symbols(s));
    }
    if Decode(s).Ok? && Encode(Decode(s).value) == s {
      var q := Sextets(Decode(s).value);
      SymbolsOfLetters(q);
      SextetsTail(Decode(s).value);
    }
  }

  // ---- signatures ----

  // [A-Za-z0-9_-]{85}[AQgw]
  predicate SignatureShape(s: string) {
    |s| == 86 && AllUrlSafe(s) && s[85] in {'A', 'Q', 'g', 'w'}
  }

  lemma {:induction false} ShapeIsCanonical(s: string)
    ensures SignatureShape(s) <==> |s| == 86 && CanonicalText(s)
  {
    if AllUrlSafe(s) && |s| == 86 {
      LettersOfSymbols(s);
      assert SextetOf(s[85]) == Some(Symbols(s)[85]);
      FourLetters(s[85]);
    }
  }

  // The client's pattern takes exactly the encodings of 64 bytes.
  lemma {:induction false} ShapeIsEncoding(s: string)
    ensures SignatureShape(s) <==> Decode(s).Ok? && |Decode(s).value| == 64 && Encode(Decode(s).value) == s
  {
    ShapeIsCanonical(s);
    EncodeOfDecode(s);
    if CanonicalText(s) {
      PlainDecode(s);
      LettersOfSymbols(s);
      OctetsLength(Symbols(s));
    }
    if Decode(s).Ok? { DecodeOfEncode(Decode(s).value); }
  }

  lemma {:induction false} FourLetters(c: char)
    requires UrlSafe(c)
    ensures SextetOf(c).Some? && (SextetOf(c).value % 16 == 0 <==> c in {'A', 'Q', 'g', 'w'})
  {
  }

  lemma {:induction false} OctetsLength(q: seq<Sextet>)
    ensures |Octets(q)| == 3 * |q| / 4
  {
    if |q| < 4 {
    } else {
      OctetsLength(q[4..]);
    }
  }

  // Every 64 bytes encode to that shape, and no two texts of it decode alike.
  lemma {:induction false} SignaturesEncode(d: seq<Byte>, s: string, t: string)
    ensures |d| == 64 ==> SignatureShape(Encode(d))
    ensures SignatureShape(s) && SignatureShape(t) && Decode(s) == Decode(t) ==> s == t
  {
    if |d| == 64 {
      DecodeOfEncode(d);
      ShapeIsEncoding(Encode(d));
    }
    ShapeIsEncoding(s);
    ShapeIsEncoding(t);
  }
}
