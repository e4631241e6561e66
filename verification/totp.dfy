/** Base32 secrets, HOTP codes and the TOTP check. The HMAC is a parameter; bit operations are written as arithmetic. */
module Totp {
  import opened Wrappers
  import opened Text

  type Byte = b: int | 0 <= b < 256

  const B32 := "ABCDEFGHIJKLMNOPQRSTUVWXYZ234567"

  /** The letter of the alphabet at an index, and the index of a letter (32 when it is not in the alphabet). */
  function Letter(v: nat): char
    requires v < 32
  {
    if v < 26 then 'A' + v as char else '2' + (v - 26) as char
  }

  function LetterIndex(c: char): (i: nat)
    ensures i <= 32
    ensures i < 32 ==> Letter(i) == c
  {
    if 'A' <= c <= 'Z' then (c - 'A') as int else if '2' <= c <= '7' then (c - '2') as int + 26 else 32
  }

  /** They are the lookups B32[v] and B32.indexOf(c). */
  lemma AlphabetIsB32(v: nat)
    requires v < 32
    ensures |B32| == 32 && B32[v] == Letter(v) && LetterIndex(Letter(v)) == v
  {
  }

  lemma IndexInB32(c: char)
    ensures |B32| == 32 && IndexOf(B32, c) == LetterIndex(c)
  {
    var found := IndexOf(B32, c);
    if found < 32 { AlphabetIsB32(found); }
    if LetterIndex(c) < 32 { AlphabetIsB32(LetterIndex(c)); }
  }

  // ---------- Bits ----------

  /** The low `width` bits of a number, most significant first, and the number a string of bits spells. */
  function Bits(value: nat, width: nat): (r: seq<bool>)
    ensures |r| == width
  {
    if width == 0 then [] else Bits(value / 2, width - 1) + [value % 2 == 1]
  }

  function Value(bits: seq<bool>): nat {
    if bits == [] then 0 else 2 * Value(bits[..|bits| - 1]) + if bits[|bits| - 1] then 1 else 0
  }

  function Pow2(n: nat): (p: nat)
    ensures p > 0
  {
    if n == 0 then 1 else 2 * Pow2(n - 1)
  }

  lemma {:induction false} ValueOfBits(value: nat, width: nat)
    requires value < Pow2(width)
    ensures Value(Bits(value, width)) == value
    decreases width
  {
    if width > 0 {
      ValueOfBits(value / 2, width - 1);
      assert Bits(value, width)[..width - 1] == Bits(value / 2, width - 1);
    }
  }

  lemma {:induction false} BitsOfValue(bits: seq<bool>)
    ensures Value(bits) < Pow2(|bits|) && Bits(Value(bits), |bits|) == bits
    decreases |bits|
  {
    if bits != [] {
      BitsOfValue(bits[..|bits| - 1]);
      assert bits == bits[..|bits| - 1] + [bits[|bits| - 1]];
    }
  }

  // ---------- Base32 ----------

  function BitsOfBytes(buf: seq<Byte>): (r: seq<bool>)
    ensures |r| == 8 * |buf|
  {
    if buf == [] then [] else Bits(buf[0], 8) + BitsOfBytes(buf[1..])
  }

  /** The letter that five bits spell, and the byte that eight bits make. */
  function LetterOf(bits: seq<bool>): char
    requires |bits| == 5
  {
    BitsOfValue(bits);
    PowersOfTwo();
    Letter(Value(bits))
  }

  function ByteOf(bits: seq<bool>): Byte
    requires |bits| == 8
  {
    BitsOfValue(bits);
    PowersOfTwo();
    Value(bits)
  }

  lemma PowersOfTwo()
    ensures Pow2(5) == 32 && Pow2(8) == 256
  {
    assert Pow2(5) == 32;
  }

  /** One letter for every five bits; fewer than five left over are dropped. */
  function Spell(bits: seq<bool>): string
    decreases |bits|
  {
    if |bits| < 5 then "" else [LetterOf(bits[..5])] + Spell(bits[5..])
  }

  /** One byte for every eight bits; fewer than eight left over are dropped. */
  function Pack(bits: seq<bool>): seq<Byte>
    decreases |bits|
  {
    if |bits| < 8 then [] else [ByteOf(bits[..8])] + Pack(bits[8..])
  }

  /** Five bits for every letter of the alphabet; other characters are passed over. */
  function BitsOfLetter(c: char): seq<bool> {
    if LetterIndex(c) < 32 then Bits(LetterIndex(c), 5) else []
  }

  function Unspell(s: string): seq<bool> {
    if s == "" then [] else BitsOfLetter(s[0]) + Unspell(s[1..])
  }

  lemma Assoc<T>(a: seq<T>, b: seq<T>, c: seq<T>)
    ensures a + b + c == a + (b + c)
  {
  }

  function DropPadding(s: string): string {
    if s != "" && s[|s| - 1] == '=' then DropPadding(s[..|s| - 1]) else s
  }

  function RemoveSpaces(s: string): string {
    if s == "" then "" else (if IsSpace(s[0]) then "" else [s[0]]) + RemoveSpaces(s[1..])
  }

  function Clean(secret: string): string {
    Upper(RemoveSpaces(DropPadding(secret)))
  }

  function Encode(buf: seq<Byte>): string {
    Spell(BitsOfBytes(buf))
  }

  function Decode(secret: string): seq<Byte> {
    Pack(Unspell(Clean(secret)))
  }

  method GenerateSecret(buf: seq<Byte>) returns (out: string)
    ensures out == Encode(buf)
  {
    var bits := [];
    for k := 0 to |buf|
      invariant bits + BitsOfBytes(buf[k..]) == BitsOfBytes(buf)
    {
      assert buf[k..][0] == buf[k] && buf[k..][1..] == buf[k + 1..];
      bits := bits + Bits(buf[k], 8);
    }
    assert bits == BitsOfBytes(buf);
    out := LettersOf(bits);
  }

  method LettersOf(bits: seq<bool>) returns (out: string)
    ensures out == Spell(bits)
  {
    out := "";
    var i := 0;
    while i + 5 <= |bits|
      invariant i <= |bits| && out + Spell(bits[i..]) == Spell(bits)
    {
      SpellNext(bits, i, out);
      var value := Value(bits[i..i + 5]);
      LetterBack(bits[i..i + 5]);
      AlphabetIsB32(value);
      out := out + [B32[value]];
      i := i + 5;
    }
  }

  lemma SpellNext(bits: seq<bool>, i: nat, out: string)
    requires i + 5 <= |bits|
    ensures out + Spell(bits[i..]) == out + [LetterOf(bits[i..i + 5])] + Spell(bits[i + 5..])
  {
    assert bits[i..][..5] == bits[i..i + 5] && bits[i..][5..] == bits[i + 5..];
    Assoc(out, [LetterOf(bits[i..i + 5])], Spell(bits[i + 5..]));
  }

  method Base32Decode(secret: string) returns (bytes: seq<Byte>)
    ensures bytes == Decode(secret)
  {
    var bits := BitsOf(Clean(secret));
    bytes := BytesOf(bits);
  }

  method BitsOf(clean: string) returns (bits: seq<bool>)
    ensures bits == Unspell(clean)
  {
    bits := [];
    for k := 0 to |clean|
      invariant bits + Unspell(clean[k..]) == Unspell(clean)
    {
      UnspellNext(clean, k, bits);
      IndexInB32(clean[k]);
      var index := IndexOf(B32, clean[k]);
      if index == |B32| { continue; }
      bits := bits + Bits(index, 5);
    }
  }

  lemma UnspellNext(clean: string, k: nat, bits: seq<bool>)
    requires k < |clean|
    ensures bits + Unspell(clean[k..])
            == (if LetterIndex(clean[k]) < 32 then bits + Bits(LetterIndex(clean[k]), 5) else bits)
               + Unspell(clean[k + 1..])
  {
    assert clean[k..][0] == clean[k] && clean[k..][1..] == clean[k + 1..];
    Assoc(bits, BitsOfLetter(clean[k]), Unspell(clean[k + 1..]));
    assert LetterIndex(clean[k]) == 32 ==> bits + BitsOfLetter(clean[k]) == bits;
  }

  method BytesOf(bits: seq<bool>) returns (bytes: seq<Byte>)
    ensures bytes == Pack(bits)
  {
    bytes := [];
    var i := 0;
    while i + 8 <= |bits|
      invariant i <= |bits| && bytes + Pack(bits[i..]) == Pack(bits)
    {
      PackNext(bits, i, bytes);
      BitsOfValue(bits[i..i + 8]);
      PowersOfTwo();
      bytes := bytes + [Value(bits[i..i + 8])];
      i := i + 8;
    }
  }

  lemma PackNext(bits: seq<bool>, i: nat, bytes: seq<Byte>)
    requires i + 8 <= |bits|
    ensures bytes + Pack(bits[i..]) == bytes + [ByteOf(bits[i..i + 8])] + Pack(bits[i + 8..])
  {
    assert bits[i..][..8] == bits[i..i + 8] && bits[i..][8..] == bits[i + 8..];
    Assoc(bytes, [ByteOf(bits[i..i + 8])], Pack(bits[i + 8..]));
  }

  // ---------- Decoding an encoded secret ----------

  lemma LetterClean(v: nat)
    requires v < 32
    ensures LetterIndex(Letter(v)) == v && UpperChar(Letter(v)) == Letter(v)
    ensures !IsSpace(Letter(v)) && Letter(v) != '='
  {
  }

  lemma {:induction false} RemoveSpacesNone(s: string)
    requires forall i :: 0 <= i < |s| ==> !IsSpace(s[i])
    ensures RemoveSpaces(s) == s
    decreases |s|
  {
    if s != "" { RemoveSpacesNone(s[1..]); }
  }

  ghost predicate AllLetters(s: string) {
    forall i :: 0 <= i < |s| ==> LetterIndex(s[i]) < 32
  }

  lemma CleanLetters(s: string)
    requires AllLetters(s)
    ensures Clean(s) == s
  {
    forall i | 0 <= i < |s| ensures UpperChar(s[i]) == s[i] && !IsSpace(s[i]) && s[i] != '=' {
      LetterClean(LetterIndex(s[i]));
    }
    assert DropPadding(s) == s;
    RemoveSpacesNone(s);
    assert Upper(s) == s;
  }

  lemma LetterBack(bits: seq<bool>)
    requires |bits| == 5
    ensures LetterIndex(LetterOf(bits)) == Value(bits) < 32 && LetterOf(bits) == Letter(Value(bits))
    ensures BitsOfLetter(LetterOf(bits)) == bits
  {
    BitsOfValue(bits);
    PowersOfTwo();
    LetterClean(Value(bits));
  }

  function Whole(bits: seq<bool>): seq<bool> {
    bits[..|bits| - |bits| % 5]
  }

  lemma WholeNext(bits: seq<bool>)
    requires |bits| >= 5
    ensures bits[..5] + Whole(bits[5..]) == Whole(bits)
  {
    assert |bits[5..]| % 5 == |bits| % 5;
  }

  lemma UnspellCons(c: char, rest: string)
    ensures Unspell([c] + rest) == BitsOfLetter(c) + Unspell(rest)
  {
    assert ([c] + rest)[1..] == rest;
  }

  /** The letters spell the bits again, but for fewer than five at the end. */
  lemma {:induction false} UnspellSpell(bits: seq<bool>)
    ensures AllLetters(Spell(bits)) && Unspell(Spell(bits)) == Whole(bits)
    decreases |bits|
  {
    if |bits| >= 5 {
      LetterBack(bits[..5]);
      UnspellSpell(bits[5..]);
      UnspellCons(LetterOf(bits[..5]), Spell(bits[5..]));
      WholeNext(bits);
    }
  }

  lemma ByteBack(b: Byte)
    ensures ByteOf(Bits(b, 8)) == b
  {
    PowersOfTwo();
    ValueOfBits(b, 8);
  }

  /** Packing the first bits of some bytes gives the first of the bytes. */
  lemma {:induction false} PackPrefix(buf: seq<Byte>, kept: seq<bool>)
    requires kept <= BitsOfBytes(buf)
    ensures |kept| / 8 <= |buf| && Pack(kept) == buf[..|kept| / 8]
    decreases |buf|
  {
    if |kept| >= 8 {
      var rest := kept[8..];
      assert kept[..8] == BitsOfBytes(buf)[..8] == Bits(buf[0], 8);
      assert rest <= BitsOfBytes(buf[1..]) by { assert BitsOfBytes(buf)[8..] == BitsOfBytes(buf[1..]); }
      ByteBack(buf[0]);
      PackPrefix(buf[1..], rest);
      assert |kept| / 8 == 1 + |rest| / 8;
      assert [buf[0]] + buf[1..][..|rest| / 8] == buf[..|kept| / 8];
    }
  }

  /** Decoding an encoded secret gives back its bytes from the first on, losing at most the last one,
      and all of them exactly when their number is a multiple of five. */
  lemma DecodeEncode(buf: seq<Byte>)
    ensures
      var back := Decode(Encode(buf));
      && back <= buf && |back| >= |buf| - 1
      && (back == buf <==> |buf| % 5 == 0)
  {
    var bits := BitsOfBytes(buf);
    UnspellSpell(bits);
    CleanLetters(Spell(bits));
    PackPrefix(buf, Whole(bits));
    KeptBytes(|buf|);
  }

  lemma KeptBytes(n: nat)
    ensures n - 1 <= (8 * n - 8 * n % 5) / 8 <= n
    ensures (8 * n - 8 * n % 5) / 8 == n <==> n % 5 == 0
  {
  }

  // ---------- Decoding any string ----------

  /** What counts in a secret: the letters of the alphabet in it, in upper case. */
  function LetterIn(c: char): string {
    if LetterIndex(UpperChar(c)) < 32 then [UpperChar(c)] else ""
  }

  function Letters(s: string): string {
    if s == "" then "" else LetterIn(s[0]) + Letters(s[1..])
  }

  lemma {:induction false} LettersAppend(a: string, b: string)
    ensures Letters(a + b) == Letters(a) + Letters(b)
    decreases |a|
  {
    if a == "" {
      assert a + b == b;
    } else {
      assert (a + b)[1..] == a[1..] + b;
      LettersAppend(a[1..], b);
      Assoc(LetterIn(a[0]), Letters(a[1..]), Letters(b));
    }
  }

  lemma {:induction false} LettersOfPadded(s: string)
    ensures Letters(DropPadding(s)) == Letters(s)
    decreases |s|
  {
    if s != "" && s[|s| - 1] == '=' {
      LettersOfPadded(s[..|s| - 1]);
      assert s == s[..|s| - 1] + "=";
      LettersAppend(s[..|s| - 1], "=");
      assert Letters("=") == "";
    }
  }

  lemma UpperCons(c: char, rest: string)
    ensures Upper([c] + rest) == [UpperChar(c)] + Upper(rest)
  {
  }

  lemma {:induction false} OnlyLettersCount(s: string)
    ensures AllLetters(Letters(s)) && Unspell(Upper(RemoveSpaces(s))) == Unspell(Letters(s))
    decreases |s|
  {
    if s != "" {
      OnlyLettersCount(s[1..]);
      var (c, rest) := (UpperChar(s[0]), RemoveSpaces(s[1..]));
      if IsSpace(s[0]) {
        assert RemoveSpaces(s) == rest && Letters(s) == Letters(s[1..]);
      } else {
        UpperCons(s[0], rest);
        UnspellCons(c, Upper(rest));
        UnspellCons(c, Letters(s[1..]));
        assert LetterIndex(c) == 32 ==> Letters(s) == Letters(s[1..]);
      }
    }
  }

  lemma EightsNext(bits: seq<bool>)
    requires |bits| >= 8
    ensures |bits[8..]| / 8 == |bits| / 8 - 1
    ensures bits[..8] + bits[8..][..|bits[8..]| - |bits[8..]| % 8] == bits[..|bits| - |bits| % 8]
  {
    assert |bits[8..]| % 8 == |bits| % 8;
  }

  lemma BytesCons(b: Byte, rest: seq<Byte>)
    ensures BitsOfBytes([b] + rest) == Bits(b, 8) + BitsOfBytes(rest)
  {
    assert ([b] + rest)[1..] == rest;
  }

  lemma {:induction false} BitsOfPacked(bits: seq<bool>)
    ensures |Pack(bits)| == |bits| / 8 && BitsOfBytes(Pack(bits)) == bits[..|bits| - |bits| % 8]
    decreases |bits|
  {
    if |bits| >= 8 {
      var rest := bits[8..];
      BitsOfPacked(rest);
      BitsOfValue(bits[..8]);
      BytesCons(ByteOf(bits[..8]), Pack(rest));
      EightsNext(bits);
    }
  }

  // ---------- The numbers they spell ----------

  /** The number that bytes spell, and the number that letters spell, most significant first. */
  function FromBytes(bytes: seq<Byte>): nat {
    if bytes == [] then 0 else 256 * FromBytes(bytes[..|bytes| - 1]) + bytes[|bytes| - 1]
  }

  function FromLetters(s: string): nat
    requires AllLetters(s)
  {
    if s == "" then 0 else 32 * FromLetters(s[..|s| - 1]) + LetterIndex(s[|s| - 1])
  }

  lemma {:induction false} ValueAppend(a: seq<bool>, b: seq<bool>, p: nat)
    requires p == Pow2(|b|)
    ensures Value(a + b) == Value(a) * p + Value(b)
    decreases |b|
  {
    if b == [] {
      assert a + b == a;
    } else {
      var b0 := b[..|b| - 1];
      assert (a + b)[..|a + b| - 1] == a + b0 && (a + b)[|a + b| - 1] == b[|b| - 1];
      ValueAppend(a, b0, Pow2(|b0|));
      TimesTwice(Value(a), Pow2(|b0|));
    }
  }

  lemma TimesTwice(x: nat, y: nat)
    ensures x * (2 * y) == 2 * (x * y)
  {
  }

  /** Five bits more, and eight bits more. */
  lemma ValueOfFive(bits: seq<bool>, five: seq<bool>)
    requires |five| == 5
    ensures Value(bits + five) == 32 * Value(bits) + Value(five)
  {
    PowersOfTwo();
    ValueAppend(bits, five, 32);
  }

  lemma ValueOfEight(bits: seq<bool>, eight: seq<bool>)
    requires |eight| == 8
    ensures Value(bits + eight) == 256 * Value(bits) + Value(eight)
  {
    PowersOfTwo();
    ValueAppend(bits, eight, 256);
  }

  /** A number without its lowest bits. */
  function Shifted(value: nat, low: nat): nat {
    if low == 0 then value else Shifted(value / 2, low - 1)
  }

  lemma {:induction false} HighBits(bits: seq<bool>, low: nat)
    requires low <= |bits|
    ensures Value(bits[..|bits| - low]) == Shifted(Value(bits), low)
    decreases low
  {
    if low == 0 {
      assert bits[..|bits|] == bits;
    } else {
      var init := bits[..|bits| - 1];
      assert Value(bits) / 2 == Value(init);
      HighBits(init, low - 1);
      assert init[..|init| - (low - 1)] == bits[..|bits| - low];
    }
  }

  lemma {:induction false} BytesAppend(a: seq<Byte>, b: Byte)
    ensures BitsOfBytes(a + [b]) == BitsOfBytes(a) + Bits(b, 8)
    decreases |a|
  {
    if a == [] {
      assert [b][1..] == [];
    } else {
      assert (a + [b])[1..] == a[1..] + [b];
      BytesAppend(a[1..], b);
    }
  }

  lemma ValueOfByte(b: Byte)
    ensures Value(Bits(b, 8)) == b
  {
    PowersOfTwo();
    ValueOfBits(b, 8);
  }

  lemma {:induction false} ValueOfBytes(buf: seq<Byte>)
    ensures Value(BitsOfBytes(buf)) == FromBytes(buf)
    decreases |buf|
  {
    if buf != [] {
      var (front, last) := (buf[..|buf| - 1], buf[|buf| - 1]);
      assert buf == front + [last];
      ValueOfBytes(front);
      BytesAppend(front, last);
      ValueOfEight(BitsOfBytes(front), Bits(last, 8));
      ValueOfByte(last);
    }
  }

  lemma {:induction false} UnspellAppend(a: string, c: char)
    ensures Unspell(a + [c]) == Unspell(a) + BitsOfLetter(c)
    decreases |a|
  {
    if a == "" {
      assert [c][1..] == "";
    } else {
      assert (a + [c])[1..] == a[1..] + [c];
      UnspellAppend(a[1..], c);
    }
  }

  lemma ValueOfLetter(c: char)
    requires LetterIndex(c) < 32
    ensures |BitsOfLetter(c)| == 5 && Value(BitsOfLetter(c)) == LetterIndex(c)
  {
    PowersOfTwo();
    ValueOfBits(LetterIndex(c), 5);
  }

  lemma {:induction false} ValueOfLetters(s: string)
    requires AllLetters(s)
    ensures |Unspell(s)| == 5 * |s| && Value(Unspell(s)) == FromLetters(s)
    decreases |s|
  {
    if s != "" {
      var (front, last) := (s[..|s| - 1], s[|s| - 1]);
      assert s == front + [last];
      ValueOfLetters(front);
      UnspellAppend(front, last);
      ValueOfLetter(last);
      ValueOfFive(Unspell(front), BitsOfLetter(last));
    }
  }

  lemma FifthOf(n: nat, length: nat)
    requires 5 * n == length - length % 5
    ensures n == length / 5
  {
  }

  lemma LettersNumber(s: string, bits: seq<bool>, low: nat)
    requires AllLetters(s) && low <= |bits| && Unspell(s) == bits[..|bits| - low]
    ensures 5 * |s| == |bits| - low && FromLetters(s) == Shifted(Value(bits), low)
  {
    ValueOfLetters(s);
    HighBits(bits, low);
  }

  lemma SpelledNumber(bits: seq<bool>, low: nat)
    requires low == |bits| % 5
    ensures AllLetters(Spell(bits)) && 5 * |Spell(bits)| == |bits| - low
    ensures FromLetters(Spell(bits)) == Shifted(Value(bits), low)
  {
    UnspellSpell(bits);
    LettersNumber(Spell(bits), bits, low);
  }

  /** A secret's letters spell the number its bytes spell, without the fewer than five bits left over. */
  lemma EncodeExact(buf: seq<Byte>)
    ensures
      var letters := Encode(buf);
      && AllLetters(letters) && |letters| == 8 * |buf| / 5
      && FromLetters(letters) == Shifted(FromBytes(buf), 8 * |buf| % 5)
  {
    var bits := BitsOfBytes(buf);
    SpelledNumber(bits, |bits| % 5);
    FifthOf(|Encode(buf)|, |bits|);
    ValueOfBytes(buf);
  }

  /** Decoding any string: only the letters in it count, in either case, and the bytes spell the number that the
      letters spell, without the fewer than eight bits left over. */
  lemma DecodeExact(secret: string)
    ensures
      var (letters, bytes) := (Letters(secret), Decode(secret));
      && AllLetters(letters) && |bytes| == 5 * |letters| / 8
      && FromBytes(bytes) == Shifted(FromLetters(letters), 5 * |letters| % 8)
  {
    var letters := Letters(secret);
    var bits := Unspell(letters);
    LettersOfPadded(secret);
    OnlyLettersCount(DropPadding(secret));
    ValueOfLetters(letters);
    BitsOfPacked(bits);
    HighBits(bits, |bits| % 8);
    ValueOfBytes(Pack(bits));
  }

  // ---------- HOTP ----------

  /** HMAC-SHA-1: some function to 20 bytes. */
  type Hmac = h: ((seq<Byte>, seq<Byte>) -> seq<Byte>) | forall k, m ::
      |h(k, m)| == 20 witness (k, m) => seq(20, _ => 0)

  datatype TotpError = CounterOutOfRange

  const COUNTER_LIMIT: nat := 0x1_0000_0000_0000_0000

  function BigEndian(value: nat, width: nat): seq<Byte> {
    if width == 0 then [] else BigEndian(value / 256, width - 1) + [value % 256]
  }

  /** Dynamic truncation: four bytes from the offset in the low half of the last byte, without the sign bit. */
  function Truncated(mac: seq<Byte>): nat
    requires |mac| == 20
  {
    var offset := mac[19] % 16;
    var (b0: int, b1: int, b2: int, b3: int) := (mac[offset] % 128, mac[offset + 1], mac[offset + 2], mac[offset + 3]);
    b0 * 0x100_0000 + b1 * 0x1_0000 + b2 * 0x100 + b3
  }

  function Digits(n: nat, width: nat): (r: string)
    ensures |r| == width
    ensures forall i :: 0 <= i < width ==> '0' <= r[i] <= '9'
  {
    if width == 0 then "" else Digits(n / 10, width - 1) + ['0' + (n % 10) as char]
  }

  function Hotp(hmac: Hmac, secret: string, counter: int): Result<string, TotpError> {
    if counter < 0 || counter >= COUNTER_LIMIT then Err(CounterOutOfRange)
    else Ok(Digits(Truncated(hmac(Decode(secret), BigEndian(counter, 8))) % 1_000_000, 6))
  }

  /** The number six digits spell, counting from the left. */
  function Number(s: string): int {
    if s == "" then 0 else 10 * Number(s[..|s| - 1]) + (s[|s| - 1] as int - '0' as int)
  }

  function Pow10(n: nat): (p: nat)
    ensures p > 0
  {
    if n == 0 then 1 else 10 * Pow10(n - 1)
  }

  lemma {:induction false} NumberOfDigits(n: nat, width: nat)
    requires n < Pow10(width)
    ensures Number(Digits(n, width)) == n
    decreases width
  {
    if width > 0 {
      NumberOfDigits(n / 10, width - 1);
      assert Digits(n, width)[..width - 1] == Digits(n / 10, width - 1);
    }
  }

  function Pow256(n: nat): nat {
    if n == 0 then 1 else 256 * Pow256(n - 1)
  }

  lemma {:induction false} BigEndianBack(value: nat, width: nat)
    requires value < Pow256(width)
    ensures |BigEndian(value, width)| == width && FromBytes(BigEndian(value, width)) == value
    decreases width
  {
    if width > 0 {
      BigEndianBack(value / 256, width - 1);
      assert BigEndian(value, width)[..width - 1] == BigEndian(value / 256, width - 1);
    }
  }

  lemma {:induction false} FromBytesInjective(a: seq<Byte>, b: seq<Byte>)
    requires |a| == |b| && FromBytes(a) == FromBytes(b)
    ensures a == b
    decreases |a|
  {
    if a != [] {
      FromBytesInjective(a[..|a| - 1], b[..|b| - 1]);
      assert a == a[..|a| - 1] + [a[|a| - 1]] && b == b[..|b| - 1] + [b[|b| - 1]];
    }
  }

  /** The message for a counter is the one string of eight bytes that spells it, the highest byte first. */
  lemma MessageExact(counter: nat, message: seq<Byte>)
    requires counter < COUNTER_LIMIT
    ensures message == BigEndian(counter, 8) <==> |message| == 8 && FromBytes(message) == counter
  {
    assert Pow256(8) == COUNTER_LIMIT by { assert Pow256(4) == 0x1_0000_0000; }
    BigEndianBack(counter, 8);
    if |message| == 8 && FromBytes(message) == counter {
      FromBytesInjective(message, BigEndian(counter, 8));
    }
  }

  lemma FourBytes(bytes: seq<Byte>)
    requires |bytes| == 4
    ensures
      var (b0: int, b1: int, b2: int, b3: int) := (bytes[0], bytes[1], bytes[2], bytes[3]);
      FromBytes(bytes) == 0x100_0000 * b0 + 0x1_0000 * b1 + 0x100 * b2 + b3
  {
    var (b0: int, b1: int) := (bytes[0], bytes[1]);
    assert bytes[..3][..2] == bytes[..2] && bytes[..2][..1] == bytes[..1] && bytes[..1][..0] == [];
    assert FromBytes(bytes[..1]) == b0;
    assert FromBytes(bytes[..2]) == 256 * b0 + b1;
    assert FromBytes(bytes[..3]) == 256 * FromBytes(bytes[..2]) + bytes[2];
  }

  lemma LowBits(a: nat, rest: nat)
    requires rest < 0x100_0000
    ensures (0x100_0000 * a + rest) % 0x8000_0000 == 0x100_0000 * (a % 128) + rest
  {
    assert 0x100_0000 * a + rest == 0x8000_0000 * (a / 128) + (0x100_0000 * (a % 128) + rest);
  }

  lemma TruncatedExact(mac: seq<Byte>)
    requires |mac| == 20
    ensures var offset := mac[19] % 16; Truncated(mac) == FromBytes(mac[offset..offset + 4]) % 0x8000_0000
  {
    var offset := mac[19] % 16;
    var (b0: int, b1: int, b2: int, b3: int) := (mac[offset], mac[offset + 1], mac[offset + 2], mac[offset + 3]);
    FourBytes(mac[offset..offset + 4]);
    LowBits(b0, 0x1_0000 * b1 + 0x100 * b2 + b3);
  }

  /** The code of a counter is six digits: the number spelled by the four bytes of the MAC from the offset on, most
      significant first, without its top bit, modulo a million. */
  lemma HotpExact(hmac: Hmac, secret: string, counter: int, message: seq<Byte>)
    requires 0 <= counter < COUNTER_LIMIT && |message| == 8 && FromBytes(message) == counter
    ensures
      var (r, mac) := (Hotp(hmac, secret, counter), hmac(Decode(secret), message));
      var offset := mac[19] % 16;
      && r.Ok? && SixDigits(r.value)
      && Number(r.value) == FromBytes(mac[offset..offset + 4]) % 0x8000_0000 % 1_000_000
  {
    MessageExact(counter, message);
    var mac := hmac(Decode(secret), message);
    TruncatedExact(mac);
    assert Pow10(6) == 1_000_000 by { assert Pow10(3) == 1000; }
    NumberOfDigits(Truncated(mac) % 1_000_000, 6);
  }

  predicate SixDigits(t: string) {
    |t| == 6 && forall i :: 0 <= i < 6 ==> '0' <= t[i] <= '9'
  }

  // ---------- TOTP ----------

  /** The code at each counter, or the error. */
  type Codes = int -> Result<string, TotpError>

  function CodesOf(hmac: Hmac, secret: string): Codes {
    counter => Hotp(hmac, secret, counter)
  }

  /** The search of the counters from `first` to `last`, in order. */
  function Search(codes: Codes, t: string, first: int, last: int): Result<bool, TotpError>
    decreases last - first
  {
    if first > last then Ok(false)
    else match codes(first)
      case Err(e) => Err(e)
      case Ok(expected) => if expected == t then Ok(true) else Search(codes, t, first + 1, last)
  }

  function Verify(codes: Codes, token: string, counter: int, window: int): Result<bool, TotpError> {
    var t := RemoveSpaces(token);
    if !SixDigits(t) then Ok(false) else Search(codes, t, counter - window, counter + window)
  }

  method VerifyTotp(hmac: Hmac, secret: string, token: string, nowMs: nat, window: int := 1, step: nat := 30)
    returns (r: Result<bool, TotpError>)
    requires step > 0
    ensures r == Verify(CodesOf(hmac, secret), token, nowMs / (1000 * step), window)
  {
    var codes := CodesOf(hmac, secret);
    var counter := nowMs / (1000 * step);
    r := CheckToken(codes, token, counter, window);
  }

  method CheckToken(codes: Codes, token: string, counter: int, window: int) returns (r: Result<bool, TotpError>)
    ensures r == Verify(codes, token, counter, window)
  {
    var t := RemoveSpaces(token);
    if !SixDigits(t) { return Ok(false); }
    r := SearchWindow(codes, t, counter, window);
  }

  method SearchWindow(codes: Codes, t: string, counter: int, window: int) returns (r: Result<bool, TotpError>)
    ensures r == Search(codes, t, counter - window, counter + window)
  {
    var w := -window;
    while w <= window
      invariant Search(codes, t, counter - window, counter + window) == Search(codes, t, counter + w, counter + window)
      decreases window - w
    {
      var code := codes(counter + w);
      if code.Err? { return Err(code.error); }
      if code.value == t { return Ok(true); }
      w := w + 1;
    }
    return Ok(false);
  }

  /** Some counter from `first` to `last` gives the code. */
  predicate Gives(codes: Codes, t: string, first: int, last: int) {
    exists c :: first <= c <= last && codes(c) == Ok(t)
  }

  lemma {:induction false} SearchExact(codes: Codes, t: string, first: int, last: int)
    requires forall c :: first <= c <= last ==> codes(c).Ok?
    ensures Search(codes, t, first, last) == Ok(Gives(codes, t, first, last))
    decreases last - first
  {
    if first <= last && codes(first) != Ok(t) {
      SearchExact(codes, t, first + 1, last);
      assert Gives(codes, t, first, last) <==> Gives(codes, t, first + 1, last);
    }
  }

  lemma CodesInRange(hmac: Hmac, secret: string, first: int, last: int)
    requires 0 <= first && last < COUNTER_LIMIT
    ensures forall c :: first <= c <= last ==> CodesOf(hmac, secret)(c).Ok?
  {
  }

  lemma {:induction false} RemoveSpacesAppend(a: string, b: string)
    ensures RemoveSpaces(a + b) == RemoveSpaces(a) + RemoveSpaces(b)
    decreases |a|
  {
    if a == "" {
      assert a + b == b;
    } else {
      assert (a + b)[1..] == a[1..] + b;
      RemoveSpacesAppend(a[1..], b);
    }
  }

  lemma SpaceGoes(before: string, space: char, after: string)
    requires IsSpace(space)
    ensures RemoveSpaces(before + ([space] + after)) == RemoveSpaces(before + after)
  {
    RemoveSpacesAppend(before, [space] + after);
    RemoveSpacesAppend(before, after);
    assert ([space] + after)[1..] == after;
    assert RemoveSpaces([space] + after) == RemoveSpaces(after);
  }

  /** White space anywhere in a code, also between the digits, makes no difference. */
  lemma SpacesIgnored(codes: Codes, before: string, space: char, after: string, counter: int, window: int)
    requires IsSpace(space)
    ensures Verify(codes, before + ([space] + after), counter, window) == Verify(codes, before + after, counter, window)
  {
    SpaceGoes(before, space, after);
  }

  lemma SixDigitsOnly(t: string)
    ensures SixDigits(t) <==> |t| == 6 && forall c :: c in t ==> '0' <= c <= '9'
  {
    assert forall i :: 0 <= i < |t| ==> t[i] in t;
  }

  /** The check throws exactly when the code is six digits and the window reaches below counter 0;
      otherwise it accepts exactly the codes of the counters in the window. */
  lemma VerifyExact(hmac: Hmac, secret: string, token: string, counter: int, window: int)
    requires 0 <= counter && 0 <= window && counter + window < COUNTER_LIMIT
    ensures
      var (r, t) := (Verify(CodesOf(hmac, secret), token, counter, window), RemoveSpaces(token));
      && (r.Err? <==> |t| == 6 && (forall c :: c in t ==> '0' <= c <= '9') && counter < window)
      && (r == Ok(true) <==>
            counter >= window && Gives(CodesOf(hmac, secret), t, counter - window, counter + window))
  {
    SixDigitsOnly(RemoveSpaces(token));
    var (codes, first, last) := (CodesOf(hmac, secret), counter - window, counter + window);
    if counter >= window {
      CodesInRange(hmac, secret, first, last);
      SearchExact(codes, RemoveSpaces(token), first, last);
    } else {
      assert codes(first) == Err(CounterOutOfRange);
      assert Search(codes, RemoveSpaces(token), first, last).Err?;
    }
  }

  /** A code minted at one time is accepted at every time within 30 seconds of it, from 30 seconds after the epoch
      on. */
  lemma MintedCodeAccepted(hmac: Hmac, secret: string, mintedMs: nat, nowMs: nat)
    requires mintedMs - 30_000 <= nowMs <= mintedMs + 30_000
    requires 30_000 <= nowMs && nowMs / 30_000 + 1 < COUNTER_LIMIT
    ensures Hotp(hmac, secret, mintedMs / 30_000).Ok?
    ensures Verify(CodesOf(hmac, secret), Hotp(hmac, secret, mintedMs / 30_000).value, nowMs / 30_000, 1) == Ok(true)
  {
    var minted, now := mintedMs / 30_000, nowMs / 30_000;
    MessageExact(minted, BigEndian(minted, 8));
    HotpExact(hmac, secret, minted, BigEndian(minted, 8));
    NearCodeAccepted(hmac, secret, Hotp(hmac, secret, minted).value, minted, now);
  }

  lemma NearCodeAccepted(hmac: Hmac, secret: string, code: string, minted: nat, now: nat)
    requires 1 <= now && now + 1 < COUNTER_LIMIT && now - 1 <= minted <= now + 1
    requires SixDigits(code) && CodesOf(hmac, secret)(minted) == Ok(code)
    ensures Verify(CodesOf(hmac, secret), code, now, 1) == Ok(true)
  {
    RemoveSpacesNone(code);
    VerifyExact(hmac, secret, code, now, 1);
  }
}
