/** base58btc in both directions (tools/checks/verify_fixture_vectors.py), the
    encoding of sections 3 and 4 of draft-msporny-base58-03. Both loops are
    proved against one relation between bytes and text, `Spells`, which names
    neither of them; that the relation is one to one gives the round trips. */
module Base58 {
  import opened Common
  import opened Bytes
  import opened Positional

  /** The 58 characters, as their six runs of consecutive codes. */
  const ALPHABET: string :=
    "123456789" + "ABCDEFGH" + "JKLMN" + "PQRSTUVWXYZ" + "abcdefghijk" + "mnopqrstuvwxyz"

  // -----------------------------------------------------------------
  // Characters and digits

  /** Where `c` first stands in `s`, or -1. */
  function Find(s: string, c: char): (i: int)
    ensures i == -1 <==> c !in s
    ensures i != -1 ==> 0 <= i < |s| && s[i] == c && c !in s[..i]
  {
    if s == [] then -1
    else if s[0] == c then 0
    else
      var rest := Find(s[1..], c);
      assert rest != -1 ==> s[..rest + 1] == [s[0]] + s[1..][..rest];
      if rest == -1 then -1 else rest + 1
  }

  /** 58 different characters, '1' the zero digit. */
  ghost predicate IsAlphabet(letters: string) {
    && |letters| == 58
    && letters[0] == '1'
    && forall d :: 0 <= d < 58 ==> Find(letters, letters[d]) == d
  }

  ghost predicate Written(letters: string, text: string) {
    forall i :: 0 <= i < |text| ==> text[i] in letters
  }

  ghost function Digits(letters: string, text: string): (digits: seq<nat>)
    requires |letters| == 58 && Written(letters, text)
    ensures |digits| == |text| && InBase(58, digits)
    ensures forall i :: 0 <= i < |text| ==> digits[i] == Find(letters, text[i])
  {
    seq(|text|, i requires 0 <= i < |text| => Find(letters, text[i]))
  }

  /** The bytes, as digits of base 256. */
  ghost function Octets(data: seq<Byte>): (digits: seq<nat>)
    ensures |digits| == |data| && InBase(256, digits)
    ensures forall i :: 0 <= i < |data| ==> digits[i] == data[i]
  {
    seq(|data|, i requires 0 <= i < |data| => data[i])
  }

  // -----------------------------------------------------------------
  // The relation

  /** `text` and `data` begin with as many zero digits, '1' being the zero
      digit of text, and write the same number. */
  ghost predicate Spells(letters: string, data: seq<Byte>, text: string)
    requires |letters| == 58
  {
    && Written(letters, text)
    && LeadingZeros(Octets(data)) == LeadingZeros(Digits(letters, text))
    && ValueIn(256, Octets(data)) == ValueIn(58, Digits(letters, text))
  }

  lemma SameNumeral(base: nat, a: seq<nat>, b: seq<nat>)
    requires base >= 2 && InBase(base, a) && InBase(base, b)
    requires LeadingZeros(a) == LeadingZeros(b) && ValueIn(base, a) == ValueIn(base, b)
    ensures a == b
  {
    var k := LeadingZeros(a);
    DigitsBelowZeros(base, a);
    DigitsBelowZeros(base, b);
    assert a == a[..k] + a[k..] && b == b[..k] + b[k..];
    assert a[..k] == b[..k];
  }

  /** One text for each byte string. */
  lemma TextIsUnique(letters: string, data: seq<Byte>, a: string, b: string)
    requires IsAlphabet(letters) && Spells(letters, data, a) && Spells(letters, data, b)
    ensures a == b
  {
    SameNumeral(58, Digits(letters, a), Digits(letters, b));
    forall i | 0 <= i < |a|
      ensures a[i] == b[i]
    {
      assert Digits(letters, a)[i] == Digits(letters, b)[i];
    }
  }

  /** One byte string for each text. */
  lemma DataIsUnique(letters: string, a: seq<Byte>, b: seq<Byte>, text: string)
    requires IsAlphabet(letters) && Spells(letters, a, text) && Spells(letters, b, text)
    ensures a == b
  {
    SameNumeral(256, Octets(a), Octets(b));
    forall i | 0 <= i < |a|
      ensures a[i] == b[i]
    {
      assert Octets(a)[i] == Octets(b)[i];
    }
  }

  // -----------------------------------------------------------------
  // Encoding

  lemma {:induction false} ValueOfOctets(data: seq<Byte>)
    ensures Value(data) == ValueIn(256, Octets(data))
  {
    if data != [] {
      var init := data[..|data| - 1];
      ValueOfOctets(init);
      assert Octets(data) == Octets(init) + [data[|data| - 1]];
      ValueSnoc(256, Octets(init), data[|data| - 1]);
    }
  }

  /** A run of zeros before digits that begin with none. */
  lemma Padded(base: nat, k: nat, n: nat, digits: seq<nat>)
    requires base >= 2
    requires digits == seq(k, _ => 0) + DigitsOf(base, n)
    ensures LeadingZeros(digits) == k && ValueIn(base, digits) == n
  {
    var zeros := seq(k, _ => 0);
    LeadingZerosOf(zeros, DigitsOf(base, n));
    ZerosAddNothing(base, zeros, DigitsOf(base, n));
    ValueOfDigits(base, n);
  }

  function Repeat<T>(x: T, k: nat): (s: seq<T>)
    ensures |s| == k && forall i :: 0 <= i < k ==> s[i] == x
  {
    seq(k, _ => x)
  }

  /** How many elements the left strip of `x` takes off. */
  function Stripped<T(==)>(s: seq<T>, x: T): nat {
    if s != [] && s[0] == x then 1 + Stripped(s[1..], x) else 0
  }

  lemma {:induction false} StrippedBytes(data: seq<Byte>)
    ensures Stripped(data, 0) == LeadingZeros(Octets(data))
  {
    if data != [] && data[0] == 0 {
      StrippedBytes(data[1..]);
      assert Octets(data)[1..] == Octets(data[1..]);
    }
  }

  lemma {:induction false} StrippedText(letters: string, text: string)
    requires IsAlphabet(letters) && Written(letters, text)
    ensures Stripped(text, '1') == LeadingZeros(Digits(letters, text))
  {
    if text != [] && text[0] == '1' {
      StrippedText(letters, text[1..]);
      assert Digits(letters, text)[1..] == Digits(letters, text[1..]);
    }
  }

  /** The digits still to be taken off `n`, then those already written, are
      those of the number `whole` was written from. */
  ghost predicate Encoding(letters: string, n: nat, out: string, whole: seq<nat>)
    requires IsAlphabet(letters)
  {
    Written(letters, out) && DigitsOf(58, n) + Digits(letters, out) == whole
  }

  lemma EncodingStep(letters: string, n: nat, out: string, whole: seq<nat>)
    requires IsAlphabet(letters) && n != 0 && Encoding(letters, n, out, whole)
    ensures Encoding(letters, n / 58, [letters[n % 58]] + out, whole)
    ensures n / 58 < n
  {
    Shrinks(58, n);
    var r := n % 58;
    var more := [letters[r]] + out;
    assert Digits(letters, more) == [r] + Digits(letters, out);
    Regroup(DigitsOf(58, n / 58), r, Digits(letters, out));
  }

  lemma OnesAreZeros(letters: string, ones: nat, out: string)
    requires IsAlphabet(letters) && Written(letters, out)
    ensures Written(letters, Repeat('1', ones) + out)
    ensures Digits(letters, Repeat('1', ones) + out) == seq(ones, _ => 0) + Digits(letters, out)
  {
    assert Find(letters, letters[0]) == 0;
  }

  lemma EncodingEnds(letters: string, data: seq<Byte>, out: string, text: string)
    requires IsAlphabet(letters) && Encoding(letters, 0, out, DigitsOf(58, Value(data)))
    requires text == Repeat('1', Stripped(data, 0)) + out
    ensures Spells(letters, data, text)
  {
    var ones := Stripped(data, 0);
    assert [] + Digits(letters, out) == Digits(letters, out);
    OnesAreZeros(letters, ones, out);
    StrippedBytes(data);
    ValueOfOctets(data);
    Padded(58, ones, Value(data), Digits(letters, text));
  }

  method Encode(letters: string, data: seq<Byte>) returns (text: string)
    requires IsAlphabet(letters)
    ensures Spells(letters, data, text)
  {
    var n, out := Value(data), "";
    while n != 0
      invariant Encoding(letters, n, out, DigitsOf(58, Value(data)))
    {
      EncodingStep(letters, n, out, DigitsOf(58, Value(data)));
      n, out := n / 58, [letters[n % 58]] + out;
    }
    text := Repeat('1', Stripped(data, 0)) + out;
    EncodingEnds(letters, data, out, text);
  }

  // -----------------------------------------------------------------
  // Decoding

  function BitLength(n: nat): nat {
    if n == 0 then 0 else 1 + BitLength(n / 2)
  }

  lemma Halved(n: nat, m: nat)
    requires n > 0 && m == n / 2
    ensures BitLength(n) == 1 + BitLength(m)
  {
  }

  lemma EightBits(n: nat)
    requires n >= 256
    ensures BitLength(n) == 8 + BitLength(n / 256)
  {
    Halved(n, n / 2);
    Halved(n / 2, n / 4);
    Halved(n / 4, n / 8);
    Halved(n / 8, n / 16);
    Halved(n / 16, n / 32);
    Halved(n / 32, n / 64);
    Halved(n / 64, n / 128);
    Halved(n / 128, n / 256);
  }

  lemma {:induction false} BitsWithin(n: nat, m: nat)
    requires n <= m
    ensures BitLength(n) <= BitLength(m)
  {
    if n > 0 {
      BitsWithin(n / 2, m / 2);
    }
  }

  lemma OneByte(n: nat)
    requires 0 < n < 256
    ensures 1 <= BitLength(n) <= 8
  {
    BitsWithin(n, 255);
    EightOnes();
  }

  lemma EightOnes()
    ensures BitLength(255) == 8
  {
    assert BitLength(3) == 2;
    assert BitLength(15) == 4;
    assert BitLength(63) == 6;
  }

  /** The width computed from the bit length holds the number and no more. */
  lemma {:induction false} WidthIsExact(n: nat)
    ensures (BitLength(n) + 7) / 8 == |DigitsOf(256, n)|
  {
    if n == 0 {
    } else if n < 256 {
      OneByte(n);
      Shrinks(256, n);
    } else {
      EightBits(n);
      WidthIsExact(n / 256);
    }
  }

  lemma {:induction false} BytesAreDigits(n: nat, width: nat)
    requires width == |DigitsOf(256, n)|
    ensures n < Pow256(width)
    ensures Octets(BigEndian(n, width)) == DigitsOf(256, n)
  {
    if n > 0 {
      Shrinks(256, n);
      BytesAreDigits(n / 256, width - 1);
      assert Octets(BigEndian(n, width)) == Octets(BigEndian(n / 256, width - 1)) + [n % 256];
    }
  }

  lemma DecodingStep(letters: string, text: string, k: nat, i: nat)
    requires |letters| == 58 && k < |text| && Written(letters, text[..k])
    requires text[k] in letters && i == Find(letters, text[k])
    ensures Written(letters, text[..k + 1])
    ensures ValueIn(58, Digits(letters, text[..k + 1]))
         == ValueIn(58, Digits(letters, text[..k])) * 58 + i
  {
    assert text[..k + 1] == text[..k] + [text[k]];
    assert Digits(letters, text[..k + 1]) == Digits(letters, text[..k]) + [i];
    ValueSnoc(58, Digits(letters, text[..k]), i);
  }

  lemma ZerosAreZeros(zeros: nat, body: seq<Byte>)
    ensures Octets(Repeat(0, zeros) + body) == seq(zeros, _ => 0) + Octets(body)
  {
  }

  lemma DecodingEnds(letters: string, text: string, n: nat, body: seq<Byte>, data: seq<Byte>)
    requires IsAlphabet(letters) && Written(letters, text)
    requires n == ValueIn(58, Digits(letters, text)) && Octets(body) == DigitsOf(256, n)
    requires data == Repeat(0, Stripped(text, '1')) + body
    ensures Spells(letters, data, text)
  {
    var zeros := Stripped(text, '1');
    StrippedText(letters, text);
    ZerosAreZeros(zeros, body);
    Padded(256, zeros, n, Octets(data));
  }

  /** Refused exactly when a character is outside the alphabet, and then it is
      the first such character that is named. */
  method Decode(letters: string, text: string) returns (r: Result<seq<Byte>, char>)
    requires IsAlphabet(letters)
    ensures r.Ok? <==> Written(letters, text)
    ensures r.Ok? ==> Spells(letters, r.value, text)
    ensures r.Err? ==> exists i :: 0 <= i < |text| && text[i] == r.error
                                && r.error !in letters && Written(letters, text[..i])
  {
    var n := 0;
    for k := 0 to |text|
      invariant Written(letters, text[..k])
      invariant n == ValueIn(58, Digits(letters, text[..k]))
    {
      var i := Find(letters, text[k]);
      if i < 0 {
        return Err(text[k]);
      }
      DecodingStep(letters, text, k, i);
      n := n * 58 + i;
    }
    assert text[..|text|] == text;
    var width := (BitLength(n) + 7) / 8;
    WidthIsExact(n);
    BytesAreDigits(n, width);
    var body := BigEndian(n, width);
    var data := Repeat(0, Stripped(text, '1')) + body;
    DecodingEnds(letters, text, n, body, data);
    r := Ok(data);
  }

  // -----------------------------------------------------------------
  // Round trips

  function Code(d: nat): nat
    requires d < 58
  {
    if d < 9 then 49 + d
    else if d < 17 then 56 + d
    else if d < 22 then 57 + d
    else if d < 33 then 58 + d
    else if d < 44 then 64 + d
    else 65 + d
  }

  lemma FirstRuns(d: nat)
    requires d < 22
    ensures |ALPHABET| == 58 && ALPHABET[d] as int == Code(d)
  {
    assert ALPHABET[d] == ("123456789" + "ABCDEFGH" + "JKLMN")[d];
  }

  lemma MiddleRuns(d: nat)
    requires 22 <= d < 44
    ensures |ALPHABET| == 58 && ALPHABET[d] as int == Code(d)
  {
    assert ALPHABET[d] == ("PQRSTUVWXYZ" + "abcdefghijk")[d - 22];
  }

  lemma LastRun(d: nat)
    requires 44 <= d < 58
    ensures |ALPHABET| == 58 && ALPHABET[d] as int == Code(d)
  {
    assert ALPHABET[d] == "mnopqrstuvwxyz"[d - 44];
  }

  lemma HasItsCode(d: nat, letters: string)
    requires letters == ALPHABET && d < 58
    ensures |letters| == 58 && letters[d] as int == Code(d)
  {
    if d < 22 {
      FirstRuns(d);
    } else if d < 44 {
      MiddleRuns(d);
    } else {
      LastRun(d);
    }
  }

  /** Codes ascend along the alphabet, so no character stands in it twice. */
  lemma CodesDiffer(d: nat, letters: string)
    requires letters == ALPHABET && d < 58
    ensures |letters| == 58 && Find(letters, letters[d]) == d
  {
    HasItsCode(d, letters);
    HasItsCode(Find(letters, letters[d]), letters);
  }

  /** Digits and letters but those that read alike. */
  ghost predicate Legible(c: char) {
    ('1' <= c <= '9' || 'A' <= c <= 'Z' || 'a' <= c <= 'z') && c != 'O' && c != 'I' && c != 'l'
  }

  /** Where a legible character stands. */
  ghost function Place(c: char): int {
    var x := c as int;
    if x < 65 then x - 49
    else if x < 73 then x - 56
    else if x < 79 then x - 57
    else if x < 97 then x - 58
    else if x < 108 then x - 64
    else x - 65
  }

  /** The alphabet is the digits, the capitals and the small letters, in the order
      of their codes, without 0, O, I and l; its first is the zero digit. */
  lemma AlphabetIsLegible(c: char, letters: string)
    requires letters == ALPHABET
    ensures |letters| == 58
    ensures c in letters <==> Legible(c)
    ensures forall i, j :: 0 <= i < j < 58 ==> letters[i] < letters[j]
  {
    FirstRuns(0);
    forall d | 0 <= d < 58
      ensures letters[d] as int == Code(d)
    {
      HasItsCode(d, letters);
    }
    if Legible(c) {
      assert letters[Place(c)] == c;
    }
  }

  lemma AlphabetIsOne()
    ensures IsAlphabet(ALPHABET)
  {
    FirstRuns(0);
    forall d | 0 <= d < 58
      ensures Find(ALPHABET, ALPHABET[d]) == d
    {
      CodesDiffer(d, ALPHABET);
    }
  }

  /** What encoding wrote, decoding gives back, whatever the bytes begin with. */
  method DecodeOfEncode(data: seq<Byte>) returns (text: string, r: Result<seq<Byte>, char>)
    ensures |ALPHABET| == 58 && Spells(ALPHABET, data, text)
    ensures r == Ok(data)
  {
    AlphabetIsOne();
    text := Encode(ALPHABET, data);
    r := Decode(ALPHABET, text);
    DataIsUnique(ALPHABET, data, r.value, text);
  }

  /** Every text over the alphabet is the encoding of what it decodes to. */
  method EncodeOfDecode(text: string) returns (r: Result<seq<Byte>, char>, again: string)
    ensures Written(ALPHABET, text) ==> r.Ok? && again == text
    ensures !Written(ALPHABET, text) ==> r.Err? && again == ""
  {
    AlphabetIsOne();
    r := Decode(ALPHABET, text);
    again := "";
    if r.Ok? {
      again := Encode(ALPHABET, r.value);
      TextIsUnique(ALPHABET, r.value, again, text);
    }
  }
}
