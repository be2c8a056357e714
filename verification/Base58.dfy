// Base58btc and the Ed25519 did:key text built on it (src/rosetta_signer/did.py).
module Base58 {
  import opened Wrappers
  import opened Radix

  type Byte = x: nat | x < 256

  // The alphabet, as its six runs of consecutive code points.
  const ALPHABET: string :=
    "123456789" + "ABCDEFGH" + "JKLMN" + "PQRSTUVWXYZ" + "abcdefghijk" + "mnopqrstuvwxyz"

  predicate InAlphabet(c: char) {
    || '1' <= c <= '9' || 'A' <= c <= 'H' || 'J' <= c <= 'N'
    || 'P' <= c <= 'Z' || 'a' <= c <= 'k' || 'm' <= c <= 'z'
  }

  predicate AllInAlphabet(s: string) {
    forall i :: 0 <= i < |s| ==> InAlphabet(s[i])
  }

  // ALPHABET.index(c), by the six runs of consecutive code points.
  function Index(c: char): (i: nat)
    requires InAlphabet(c)
    ensures i < 58
  {
    if c <= '9' then c as int - 49
    else if c <= 'H' then c as int - 65 + 9
    else if c <= 'N' then c as int - 74 + 17
    else if c <= 'Z' then c as int - 80 + 22
    else if c <= 'k' then c as int - 97 + 33
    else c as int - 109 + 44
  }

  function Symbol(i: nat): (c: char)
    requires i < 58
    ensures InAlphabet(c) && Index(c) == i
  {
    if i < 9 then (i + 49) as char
    else if i < 17 then (i - 9 + 65) as char
    else if i < 22 then (i - 17 + 74) as char
    else if i < 33 then (i - 22 + 80) as char
    else if i < 44 then (i - 33 + 97) as char
    else (i - 44 + 109) as char
  }

  predicate Consecutive(run: string, first: char) {
    forall i :: 0 <= i < |run| ==> run[i] as int == first as int + i
  }

  lemma {:induction false} SymbolsSpellAlphabet(i: nat)
    requires i < 58
    ensures |ALPHABET| == 58 && Symbol(i) == ALPHABET[i]
  {
    assert Consecutive("123456789", '1') && Consecutive("ABCDEFGH", 'A') && Consecutive("JKLMN", 'J');
    assert Consecutive("PQRSTUVWXYZ", 'P') && Consecutive("abcdefghijk", 'a') && Consecutive("mnopqrstuvwxyz", 'm');
  }

  lemma {:induction false} IndexInverse(c: char)
    requires InAlphabet(c)
    ensures Symbol(Index(c)) == c
  {
  }

  function Symbols(ds: seq<nat>): (s: string)
    requires AllBelow(ds, 58)
    ensures |s| == |ds| && AllInAlphabet(s)
    ensures forall i :: 0 <= i < |ds| ==> s[i] == Symbol(ds[i])
  {
    seq(|ds|, i requires 0 <= i < |ds| => Symbol(ds[i]))
  }

  function Indices(s: string): (ds: seq<nat>)
    requires AllInAlphabet(s)
    ensures |ds| == |s| && AllBelow(ds, 58)
    ensures forall i :: 0 <= i < |s| ==> ds[i] == Index(s[i])
  {
    seq(|s|, i requires 0 <= i < |s| => Index(s[i]))
  }

  lemma {:induction false} IndicesOfSymbols(ds: seq<nat>)
    requires AllBelow(ds, 58)
    ensures Indices(Symbols(ds)) == ds
  {
  }

  lemma {:induction false} SymbolsOfIndices(s: string)
    requires AllInAlphabet(s)
    ensures Symbols(Indices(s)) == s
  {
    forall i | 0 <= i < |s| ensures Symbols(Indices(s))[i] == s[i] {
      IndexInverse(s[i]);
    }
  }

  // What the text stands for: a leading zero byte is a leading zero digit, and the
  // remaining digits are the value of the bytes in base 58.
  function Encoded(data: seq<Byte>): (s: string)
    ensures AllInAlphabet(s)
  {
    if data == [] then "1"
    else Symbols(Zeros(LeadingZeros(data)) + Digits(Value(data, 256), 58))
  }

  function Decoded(s: string): (r: Result<seq<Byte>, string>) {
    if !AllInAlphabet(s) then Err("invalid base58btc")
    else
      var ds := Indices(s);
      Ok(Zeros(LeadingZeros(ds)) + Digits(Value(ds, 58), 256))
  }

  lemma {:induction false} SymbolInFront(d: nat, low: seq<nat>)
    requires d < 58 && AllBelow(low, 58)
    ensures AllBelow([d] + low, 58) && Symbols([d] + low) == [Symbol(d)] + Symbols(low)
  {
  }

  method B58Encode(data: seq<Byte>) returns (s: string)
    ensures s == Encoded(data)
  {
    var zeros := LeadingZeros(data);
    var number := Value(data, 256);
    var encoded := "";
    ghost var low: seq<nat> := [];
    while number > 0
      invariant AllBelow(low, 58) && encoded == Symbols(low)
      invariant Digits(number, 58) + low == Digits(Value(data, 256), 58)
      decreases number
    {
      DigitMoves(number, low, 58);
      SymbolInFront(number % 58, low);
      SymbolsSpellAlphabet(number % 58);
      encoded := [ALPHABET[number % 58]] + encoded;
      low := [number % 58] + low;
      number := number / 58;
    }
    assert Digits(0, 58) + low == low;
    s := seq(zeros, _ => '1') + (if encoded != "" then encoded else if zeros > 0 then "" else "1");
    EncodedParts(data);
  }

  lemma {:induction false} EncodedParts(data: seq<Byte>)
    ensures var zeros, encoded := LeadingZeros(data), Symbols(Digits(Value(data, 256), 58));
            Encoded(data) ==
              seq(zeros, _ => '1') + (if encoded != "" then encoded else if zeros > 0 then "" else "1")
  {
    if data != [] {
      Canonical(data, 256);
      SymbolsPadded(LeadingZeros(data), Digits(Value(data, 256), 58));
    }
  }

  lemma {:induction false} SymbolsPadded(k: nat, ds: seq<nat>)
    requires AllBelow(ds, 58)
    ensures Symbols(Zeros(k) + ds) == seq(k, _ => '1') + Symbols(ds)
  {
  }

  function BitLength(n: nat): nat {
    if n == 0 then 0 else 1 + BitLength(n / 2)
  }

  // int.to_bytes(length, "big")
  function ToBytes(n: nat, length: nat): (bs: seq<Byte>)
    ensures |bs| == length
  {
    if length == 0 then [] else ToBytes(n / 256, length - 1) + [n % 256]
  }

  lemma {:induction false} MinimalByteLength(n: nat)
    ensures (BitLength(n) + 7) / 8 == |Digits(n, 256)|
    ensures ToBytes(n, (BitLength(n) + 7) / 8) == Digits(n, 256)
  {
    if n >= 256 {
      MinimalByteLength(n / 256);
      BitLengthOfByteShift(n);
    } else if n > 0 {
      assert Digits(n / 256, 256) == [];
      SmallBitLength(n);
      assert ToBytes(n / 256, 0) == [];
    }
  }

  lemma {:induction false} BitLengthOfByteShift(n: nat)
    requires n >= 256
    ensures BitLength(n) == 8 + BitLength(n / 256)
  {
    var n4 := n / 2 / 2 / 2 / 2;
    assert BitLength(n) == 2 + BitLength(n / 2 / 2);
    assert BitLength(n / 2 / 2) == 2 + BitLength(n4);
    assert BitLength(n4) == 2 + BitLength(n4 / 2 / 2);
    assert BitLength(n4 / 2 / 2) == 2 + BitLength(n4 / 2 / 2 / 2 / 2);
    assert n4 / 2 / 2 / 2 / 2 == n / 256;
  }

  lemma {:induction false} SmallBitLength(n: nat)
    requires 0 < n < 256
    ensures 1 <= BitLength(n) <= 8
  {
    var n4 := n / 2 / 2 / 2 / 2;
    assert BitLength(n) <= 2 + BitLength(n / 2 / 2);
    assert BitLength(n / 2 / 2) <= 2 + BitLength(n4);
    assert BitLength(n4) <= 2 + BitLength(n4 / 2 / 2);
    assert BitLength(n4 / 2 / 2) <= 2 + BitLength(n4 / 2 / 2 / 2 / 2);
  }

  lemma {:induction false} ValueOneMore(s: string, i: nat)
    requires i < |s| && AllInAlphabet(s[..i]) && InAlphabet(s[i])
    ensures AllInAlphabet(s[..i + 1])
    ensures Value(Indices(s[..i + 1]), 58) == Value(Indices(s[..i]), 58) * 58 + Index(s[i])
  {
    assert s[..i + 1][..i] == s[..i];
    assert Indices(s[..i + 1])[..i] == Indices(s[..i]);
  }

  method B58Decode(s: string) returns (r: Result<seq<Byte>, string>)
    ensures r == Decoded(s)
  {
    var number := 0;
    for i := 0 to |s|
      invariant AllInAlphabet(s[..i])
      invariant number == Value(Indices(s[..i]), 58)
    {
      if !InAlphabet(s[i]) {
        return Err("invalid base58btc");
      }
      ValueOneMore(s, i);
      number := number * 58 + Index(s[i]);
    }
    assert s[..|s|] == s;
    var raw := if number > 0 then ToBytes(number, (BitLength(number) + 7) / 8) else [];
    MinimalByteLength(number);
    r := Ok(Zeros(LeadingZeros(Indices(s))) + raw);
  }

  // Decoding inverts encoding on every byte string but the empty one.
  lemma {:induction false} DecodeEncode(data: seq<Byte>)
    ensures Decoded(Encoded(data)) == Ok(data) <==> data != []
  {
    if data == [] {
      assert Indices("1") == [0];
      assert Value([0], 58) == 0 * 58 + 0;
      assert Decoded("1") == Ok(Zeros(1) + []);
      assert |Zeros(1) + []| == 1;
    } else {
      var z, n := LeadingZeros(data), Value(data, 256);
      var ds := Zeros(z) + Digits(n, 58);
      IndicesOfSymbols(ds);
      LeadingZerosOfPadded(z, Digits(n, 58));
      LeadingZerosDoNotCount(z, Digits(n, 58), 58);
      ValueOfDigits(n, 58);
      Canonical(data, 256);
    }
  }

  // Encoding inverts decoding on every text over the alphabet but the empty one.
  lemma {:induction false} EncodeDecode(s: string)
    requires AllInAlphabet(s)
    ensures Encoded(Decoded(s).value) == s <==> s != ""
  {
    var ds := Indices(s);
    var z, n := LeadingZeros(ds), Value(ds, 58);
    var bytes := Zeros(z) + Digits(n, 256);
    Canonical(ds, 58);
    if s != "" {
      LeadingZerosOfPadded(z, Digits(n, 256));
      LeadingZerosDoNotCount(z, Digits(n, 256), 256);
      ValueOfDigits(n, 256);
      assert bytes != [];
      SymbolsOfIndices(s);
    }
  }

  // ---- did:key ----

  const PREFIX: string := "did:key:z"

  function DidFromPublicKey(key: seq<Byte>): (r: Result<string, string>) {
    if |key| != 32 then Err("Ed25519 public key must be 32 bytes")
    else Ok(PREFIX + Encoded([0xED, 0x01] + key))
  }

  function PublicKeyFromDid(did: string): (r: Result<seq<Byte>, string>) {
    if !(PREFIX <= did) then Err("unsupported DID")
    else match Decoded(did[|PREFIX|..])
      case Err(e) => Err(e)
      case Ok(raw) =>
        if [0xED, 0x01] <= raw && |raw| == 34 then Ok(raw[2..])
        else Err("DID is not an Ed25519 did:key")
  }

  // The shape the production client demands of a DID: did:key:z6Mk and 44 symbols.
  predicate ClientDidShape(did: string) {
    && |did| == 56
    && did[..12] == "did:key:z6Mk"
    && AllInAlphabet(did[12..])
  }

  lemma {:induction false} Pow58()
    ensures Pow(58, 44) == 389790918707373377135528568990913592653094657612049369038476873218241589149696
  {
    assert Pow(58, 5) == 656356768 by {
      assert Pow(58, 2) == 3364;
      assert Pow(58, 4) == 11316496;
    }
    assert Pow(58, 6) == 38068692544;
    PowSum(58, 6, 5);
    PowSum(58, 11, 11);
    PowSum(58, 22, 22);
  }

  lemma {:induction false} Pow256()
    ensures Pow(256, 32) == 0x1_0000000000000000_0000000000000000_0000000000000000_0000000000000000
  {
    assert Pow(256, 2) == 0x1_0000;
    PowSum(256, 2, 2);
    PowSum(256, 4, 4);
    PowSum(256, 8, 8);
    PowSum(256, 16, 16);
  }

  lemma {:induction false} KeyRange(key: seq<Byte>)
    requires |key| == 32
    ensures 18023 * Pow(58, 44) <= Value([0xED, 0x01] + key, 256) < 18024 * Pow(58, 44)
  {
    var head: seq<nat> := [0xED, 0x01];
    ValueOfConcat(head, key, 256);
    ValueBound(key, 256);
    assert Value(head, 256) == 0xED01 by {
      assert head[..1] == [0xED];
      assert Value([0xED], 256) == 0xED;
    }
    Pow58();
    Pow256();
  }

  lemma {:induction false} DigitsOf6Mk()
    ensures Digits(18023, 58) == [5, 20, 43]
  {
    var ds: seq<nat> := [5, 20, 43];
    assert ds[..2] == [5, 20] && ds[..2][..1] == [5];
    assert Value([5], 58) == 5;
    assert Value([5, 20], 58) == 310;
    DigitsOfValue(ds, 58);
  }

  lemma {:induction false} KeyDigits(key: seq<Byte>)
    requires |key| == 32
    ensures var ds := Digits(Value([0xED, 0x01] + key, 256), 58);
            |ds| == 47 && ds[0] == 5 && ds[1] == 20 && ds[2] == 43
  {
    KeyRange(key);
    DigitsOf6Mk();
    LeadingDigits(Value([0xED, 0x01] + key, 256), 44, 18023, 58);
  }

  lemma {:induction false} EncodedKey(key: seq<Byte>)
    requires |key| == 32
    ensures var text := Encoded([0xED, 0x01] + key);
            |text| == 47 && text[0] == '6' && text[1] == 'M' && text[2] == 'k'
  {
    var data: seq<Byte> := [0xED, 0x01] + key;
    KeyDigits(key);
    assert LeadingZeros(data) == 0;
    SymbolsPadded(0, Digits(Value(data, 256), 58));
  }

  // Every Ed25519 key has a DID of exactly the client's shape, and the DID gives the key back.
  lemma {:induction false} DidShapeAndRoundTrip(key: seq<Byte>)
    requires |key| == 32
    ensures DidFromPublicKey(key).Ok?
    ensures ClientDidShape(DidFromPublicKey(key).value)
    ensures PublicKeyFromDid(DidFromPublicKey(key).value) == Ok(key)
  {
    var data: seq<Byte> := [0xED, 0x01] + key;
    var text := Encoded(data);
    var did := PREFIX + text;
    EncodedKey(key);
    assert did[..12] == PREFIX + [text[0], text[1], text[2]];
    assert did[12..] == text[3..];
    assert did[|PREFIX|..] == text;
    DecodeEncode(data);
    assert data[2..] == key;
  }

  // A key has only one DID: whatever text is accepted is the text the key is written as.
  lemma {:induction false} DidIsUnique(did: string)
    requires PublicKeyFromDid(did).Ok?
    ensures DidFromPublicKey(PublicKeyFromDid(did).value) == Ok(did)
  {
    var text := did[|PREFIX|..];
    var raw := Decoded(text).value;
    assert |raw| == 34;
    assert text != "";
    EncodeDecode(text);
    assert [0xED, 0x01] + raw[2..] == raw;
    assert PREFIX + text == did;
  }
}
