/** The Base58 codec for backup codes: a big-endian number between base 256 and base 58, with one '1' for each
leading zero byte. */
module Base58 {
  import opened Prelude

  const BASE58_ALPHABET: string :=
    "123456789" + "ABCDEFGH" + "JKLMN" + "PQRSTUVWXYZ" + "abcdefghijk" + "mnopqrstuvwxyz"

  type Digit = d: nat | d < 58

  // ---------------------------------------------------------------- Positional notation

  /** The codec's two bases. */
  predicate IsBase(base: nat) {
    base == 58 || base == 256
  }

  /** The number a digit string denotes, most significant digit first. */
  function Value(base: nat, ds: seq<nat>): nat {
    if ds == [] then 0 else Value(base, ds[..|ds| - 1]) * base + ds[|ds| - 1]
  }

  /** All digits of `ds` are digits in this base. */
  predicate Below(ds: seq<nat>, base: nat) {
    forall i :: 0 <= i < |ds| ==> ds[i] < base
  }

  /** The digits of a number without leading zeros. */
  function Digits(base: nat, n: nat): (ds: seq<nat>)
    requires IsBase(base)
    ensures Below(ds, base)
    ensures ds != [] ==> ds[0] != 0
  {
    if n == 0 then [] else Digits(base, n / base) + [n % base]
  }

  function LeadingZeros(ds: seq<nat>): (k: nat)
    ensures k <= |ds|
  {
    if ds == [] || ds[0] != 0 then 0 else 1 + LeadingZeros(ds[1..])
  }

  function Zeros(k: nat): (ds: seq<nat>)
    ensures |ds| == k && forall i :: 0 <= i < k ==> ds[i] == 0
  {
    seq(k, i => 0)
  }

  lemma {:induction false} DigitsDenote(base: nat, n: nat)
    requires IsBase(base)
    ensures Value(base, Digits(base, n)) == n
  {
    if n > 0 {
      DigitsDenote(base, n / base);
      var ds := Digits(base, n);
      assert ds[..|ds| - 1] == Digits(base, n / base);
      QuotientRemainder(base, n);
    }
  }

  lemma QuotientRemainder(base: nat, n: nat)
    requires IsBase(base)
    ensures n / base * base + n % base == n
  {
    if base == 58 { assert n / 58 * 58 + n % 58 == n; } else { assert n / 256 * 256 + n % 256 == n; }
  }

  lemma {:induction false} ValueOfZeros(base: nat, k: nat)
    ensures Value(base, Zeros(k)) == 0
  {
    if k > 0 {
      ValueOfZeros(base, k - 1);
      assert Zeros(k)[..k - 1] == Zeros(k - 1);
    }
  }

  lemma {:induction false} LeadingZerosSplit(ds: seq<nat>)
    ensures
      var k := LeadingZeros(ds);
      ds[..k] == Zeros(k) && (k < |ds| ==> ds[k] != 0)
  {
    if ds != [] && ds[0] == 0 { LeadingZerosSplit(ds[1..]); }
  }

  lemma {:induction false} LeadingZerosOf(k: nat, ds: seq<nat>)
    requires ds != [] ==> ds[0] != 0
    ensures LeadingZeros(Zeros(k) + ds) == k
  {
    var all := Zeros(k) + ds;
    if k == 0 {
      assert all == ds;
    } else {
      assert all[1..] == Zeros(k - 1) + ds;
      LeadingZerosOf(k - 1, ds);
    }
  }

  lemma {:induction false} ValueSkipsZeros(base: nat, k: nat, ds: seq<nat>)
    ensures Value(base, Zeros(k) + ds) == Value(base, ds)
  {
    var all := Zeros(k) + ds;
    if ds == [] {
      assert all == Zeros(k);
      ValueOfZeros(base, k);
    } else {
      assert all[..|all| - 1] == Zeros(k) + ds[..|ds| - 1];
      ValueSkipsZeros(base, k, ds[..|ds| - 1]);
    }
  }

  lemma {:induction false} DigitsOfValue(base: nat, ds: seq<nat>)
    requires IsBase(base) && Below(ds, base)
    requires ds != [] ==> ds[0] != 0
    ensures Digits(base, Value(base, ds)) == ds
    ensures ds != [] ==> Value(base, ds) > 0
  {
    if ds != [] {
      var rest, d := ds[..|ds| - 1], ds[|ds| - 1];
      assert ds == rest + [d];
      DigitsOfValue(base, rest);
      LastDigit(base, Value(base, rest), d);
    }
  }

  lemma LastDigit(base: nat, q: nat, d: nat)
    requires IsBase(base) && d < base
    ensures (q * base + d) / base == q && (q * base + d) % base == d
  {
    if base == 58 {
      assert (q * 58 + d) / 58 == q;
    } else {
      assert (q * 256 + d) / 256 == q;
    }
  }

  /** A digit string is its leading zeros followed by the digits of its value. */
  lemma StripZeros(base: nat, ds: seq<nat>)
    requires IsBase(base) && Below(ds, base)
    ensures ds == Zeros(LeadingZeros(ds)) + Digits(base, Value(base, ds))
  {
    var k := LeadingZeros(ds);
    LeadingZerosSplit(ds);
    var rest := ds[k..];
    assert ds == Zeros(k) + rest;
    ValueSkipsZeros(base, k, rest);
    DigitsOfValue(base, rest);
  }

  /** Leading zeros and value determine a digit string, and are carried by the digits built from them. */
  lemma RebuildZeros(base: nat, k: nat, n: nat)
    requires IsBase(base)
    ensures
      var ds := Zeros(k) + Digits(base, n);
      LeadingZeros(ds) == k && Value(base, ds) == n
  {
    LeadingZerosOf(k, Digits(base, n));
    ValueSkipsZeros(base, k, Digits(base, n));
    DigitsDenote(base, n);
  }

  // ---------------------------------------------------------------- The alphabet

  /** `indexOf`: the first position of the character, or none. */
  function IndexFrom(s: string, c: char, from: nat): Option<nat>
    requires from <= |s|
    decreases |s| - from
  {
    if from == |s| then None
    else if s[from] == c then Some(from)
    else IndexFrom(s, c, from + 1)
  }

  lemma {:induction false} IndexFromFinds(s: string, c: char, from: nat)
    requires from <= |s|
    ensures
      match IndexFrom(s, c, from)
      case Some(i) => from <= i < |s| && s[i] == c && (forall j :: from <= j < i ==> s[j] != c)
      case None => forall j :: from <= j < |s| ==> s[j] != c
    decreases |s| - from
  {
    if from < |s| && s[from] != c { IndexFromFinds(s, c, from + 1); }
  }

  /** The alphabet by its ranges: digits without '0', capitals without 'I' and 'O', small letters without 'l'. */
  function CharOf(d: Digit): char {
    if d < 9 then '1' + d as char
    else if d < 17 then 'A' + (d - 9) as char
    else if d < 22 then 'J' + (d - 17) as char
    else if d < 33 then 'P' + (d - 22) as char
    else if d < 44 then 'a' + (d - 33) as char
    else 'm' + (d - 44) as char
  }

  function DigitOf(c: char): Option<Digit> {
    if '1' <= c <= '9' then Some(c as int - '1' as int)
    else if 'A' <= c <= 'H' then Some(c as int - 'A' as int + 9)
    else if 'J' <= c <= 'N' then Some(c as int - 'J' as int + 17)
    else if 'P' <= c <= 'Z' then Some(c as int - 'P' as int + 22)
    else if 'a' <= c <= 'k' then Some(c as int - 'a' as int + 33)
    else if 'm' <= c <= 'z' then Some(c as int - 'm' as int + 44)
    else None
  }

  /** Digits and characters determine each other. */
  lemma CharsInvert(d: Digit, c: char)
    ensures DigitOf(CharOf(d)) == Some(d)
    ensures DigitOf(c).Some? ==> CharOf(DigitOf(c).value) == c
  {}

  lemma AlphabetIsRanges()
    ensures |BASE58_ALPHABET| == 58
    ensures forall d :: 0 <= d < 58 ==> BASE58_ALPHABET[d] == CharOf(d)
  {
    assert BASE58_ALPHABET[0] == CharOf(0); assert BASE58_ALPHABET[1] == CharOf(1);
    assert BASE58_ALPHABET[2] == CharOf(2); assert BASE58_ALPHABET[3] == CharOf(3);
    assert BASE58_ALPHABET[4] == CharOf(4); assert BASE58_ALPHABET[5] == CharOf(5);
    assert BASE58_ALPHABET[6] == CharOf(6); assert BASE58_ALPHABET[7] == CharOf(7);
    assert BASE58_ALPHABET[8] == CharOf(8); assert BASE58_ALPHABET[9] == CharOf(9);
    assert BASE58_ALPHABET[10] == CharOf(10); assert BASE58_ALPHABET[11] == CharOf(11);
    assert BASE58_ALPHABET[12] == CharOf(12); assert BASE58_ALPHABET[13] == CharOf(13);
    assert BASE58_ALPHABET[14] == CharOf(14); assert BASE58_ALPHABET[15] == CharOf(15);
    assert BASE58_ALPHABET[16] == CharOf(16); assert BASE58_ALPHABET[17] == CharOf(17);
    assert BASE58_ALPHABET[18] == CharOf(18); assert BASE58_ALPHABET[19] == CharOf(19);
    assert BASE58_ALPHABET[20] == CharOf(20); assert BASE58_ALPHABET[21] == CharOf(21);
    assert BASE58_ALPHABET[22] == CharOf(22); assert BASE58_ALPHABET[23] == CharOf(23);
    assert BASE58_ALPHABET[24] == CharOf(24); assert BASE58_ALPHABET[25] == CharOf(25);
    assert BASE58_ALPHABET[26] == CharOf(26); assert BASE58_ALPHABET[27] == CharOf(27);
    assert BASE58_ALPHABET[28] == CharOf(28); assert BASE58_ALPHABET[29] == CharOf(29);
    assert BASE58_ALPHABET[30] == CharOf(30); assert BASE58_ALPHABET[31] == CharOf(31);
    assert BASE58_ALPHABET[32] == CharOf(32); assert BASE58_ALPHABET[33] == CharOf(33);
    assert BASE58_ALPHABET[34] == CharOf(34); assert BASE58_ALPHABET[35] == CharOf(35);
    assert BASE58_ALPHABET[36] == CharOf(36); assert BASE58_ALPHABET[37] == CharOf(37);
    assert BASE58_ALPHABET[38] == CharOf(38); assert BASE58_ALPHABET[39] == CharOf(39);
    assert BASE58_ALPHABET[40] == CharOf(40); assert BASE58_ALPHABET[41] == CharOf(41);
    assert BASE58_ALPHABET[42] == CharOf(42); assert BASE58_ALPHABET[43] == CharOf(43);
    assert BASE58_ALPHABET[44] == CharOf(44); assert BASE58_ALPHABET[45] == CharOf(45);
    assert BASE58_ALPHABET[46] == CharOf(46); assert BASE58_ALPHABET[47] == CharOf(47);
    assert BASE58_ALPHABET[48] == CharOf(48); assert BASE58_ALPHABET[49] == CharOf(49);
    assert BASE58_ALPHABET[50] == CharOf(50); assert BASE58_ALPHABET[51] == CharOf(51);
    assert BASE58_ALPHABET[52] == CharOf(52); assert BASE58_ALPHABET[53] == CharOf(53);
    assert BASE58_ALPHABET[54] == CharOf(54); assert BASE58_ALPHABET[55] == CharOf(55);
    assert BASE58_ALPHABET[56] == CharOf(56); assert BASE58_ALPHABET[57] == CharOf(57);
  }

  /** Looking a character up in the alphabet finds its digit. */
  lemma IndexIsDigit(c: char)
    ensures IndexFrom(BASE58_ALPHABET, c, 0) == DigitOf(c)
    ensures c in BASE58_ALPHABET <==> DigitOf(c).Some?
  {
    AlphabetIsRanges();
    var s := BASE58_ALPHABET;
    IndexFromFinds(s, c, 0);
    if DigitOf(c).Some? {
      var d := DigitOf(c).value;
      CharsInvert(d, c);
      assert s[d] == c;
      var i := IndexFrom(s, c, 0).value;
      assert s[i] == CharOf(i);
      CharsInvert(i, c);
    } else if c in s {
      var i :| 0 <= i < |s| && s[i] == c;
      CharsInvert(i, c);
    }
  }

  predicate InAlphabet(c: char) {
    DigitOf(c).Some?
  }

  function Chars(ds: seq<nat>): (s: string)
    requires Below(ds, 58)
    ensures |s| == |ds|
  {
    seq(|ds|, i requires 0 <= i < |ds| => CharOf(ds[i]))
  }

  /** The digits a string spells; `None` when a character is outside the alphabet. */
  function Indices(s: string): (ds: Option<seq<nat>>)
    ensures ds.Some? ==> |ds.value| == |s| && Below(ds.value, 58)
  {
    if s == [] then Some([])
    else
      var rest, last := Indices(s[..|s| - 1]), DigitOf(s[|s| - 1]);
      if rest.None? || last.None? then None else Some(rest.value + [last.value])
  }

  lemma {:induction false} IndicesDefined(s: string)
    ensures Indices(s).Some? <==> forall c :: c in s ==> InAlphabet(c)
  {
    if s != [] {
      var rest, last := s[..|s| - 1], s[|s| - 1];
      assert s == rest + [last];
      IndicesDefined(rest);
      assert last in s;
    }
  }

  lemma {:induction false} IndicesOfChars(ds: seq<nat>)
    requires Below(ds, 58)
    ensures Indices(Chars(ds)) == Some(ds)
  {
    if ds != [] {
      var rest, d := ds[..|ds| - 1], ds[|ds| - 1];
      assert ds == rest + [d];
      IndicesOfChars(rest);
      assert Chars(ds)[..|ds| - 1] == Chars(rest);
      CharsInvert(d, CharOf(d));
    }
  }

  lemma {:induction false} CharsOfIndices(s: string)
    requires Indices(s).Some?
    ensures Chars(Indices(s).value) == s
  {
    if s != [] {
      var rest := s[..|s| - 1];
      CharsOfIndices(rest);
      CharsInvert(0, s[|s| - 1]);
      assert Indices(s).value[..|s| - 1] == Indices(rest).value;
      assert Chars(Indices(s).value)[..|s| - 1] == Chars(Indices(rest).value);
    }
  }

  // ---------------------------------------------------------------- The codec

  function Encoded(bytes: seq<Byte>): string {
    Chars(Zeros(LeadingZeros(bytes)) + Digits(58, Value(256, bytes)))
  }

  function Decoded(s: string): Option<seq<Byte>> {
    if Indices(s).None? then None
    else
      var ds := Indices(s).value;
      Some(Zeros(LeadingZeros(ds)) + Digits(256, Value(58, ds)))
  }

  /** Every byte sequence survives encoding, leading and all zeros included. */
  lemma DecodeInvertsEncode(bytes: seq<Byte>)
    ensures Decoded(Encoded(bytes)) == Some(bytes)
  {
    var k, n := LeadingZeros(bytes), Value(256, bytes);
    IndicesOfChars(Zeros(k) + Digits(58, n));
    RebuildZeros(58, k, n);
    StripZeros(256, bytes);
  }

  /** Every string over the alphabet survives decoding, and the strings outside it are exactly those refused. */
  lemma EncodeInvertsDecode(s: string)
    ensures Decoded(s).Some? <==> forall c :: c in s ==> InAlphabet(c)
    ensures Decoded(s).Some? ==> Encoded(Decoded(s).value) == s
  {
    IndicesDefined(s);
    if Indices(s).Some? {
      var ds := Indices(s).value;
      RebuildZeros(256, LeadingZeros(ds), Value(58, ds));
      StripZeros(58, ds);
      CharsOfIndices(s);
    }
  }

  // ---------------------------------------------------------------- The loops

  /** Accumulate a number from its bytes. */
  method BytesToNumber(bytes: seq<Byte>) returns (num: nat)
    ensures num == Value(256, bytes)
  {
    num := 0;
    for i := 0 to |bytes|
      invariant num == Value(256, bytes[..i])
    {
      assert bytes[..i + 1][..i] == bytes[..i];
      num := num * 256 + bytes[i];
    }
    assert bytes[..|bytes|] == bytes;
  }

  /** Peel base-58 digits off a number, least significant first. */
  method NumberToChars(n: nat) returns (result: string)
    ensures result == Chars(Digits(58, n))
  {
    var num := n;
    result := "";
    while num > 0
      invariant Chars(Digits(58, n)) == Chars(Digits(58, num)) + result
    {
      assert Chars(Digits(58, num)) == Chars(Digits(58, num / 58)) + [CharOf(num % 58)];
      AlphabetIsRanges();
      result := [BASE58_ALPHABET[num % 58]] + result;
      num := num / 58;
    }
  }

  lemma ZerosGrow(k: nat)
    ensures Zeros(k + 1) == [0] + Zeros(k) == Zeros(k) + [0]
    ensures Chars(Zeros(k + 1)) == [CharOf(0)] + Chars(Zeros(k))
  {}

  /** The loop that counts zero bytes stops at `LeadingZeros`. */
  lemma CountedZeros(ds: seq<nat>, k: nat)
    requires k <= |ds| && ds[..k] == Zeros(k) && (k < |ds| ==> ds[k] != 0)
    ensures k == LeadingZeros(ds)
  {
    assert ds == Zeros(k) + ds[k..];
    LeadingZerosOf(k, ds[k..]);
  }

  /** One '1' for each leading zero byte. */
  method PrependOnes(bytes: seq<Byte>, body: string) returns (result: string)
    ensures result == Chars(Zeros(LeadingZeros(bytes))) + body
  {
    result := body;
    var k := 0;
    while k < |bytes| && bytes[k] == 0
      invariant k <= |bytes| && bytes[..k] == Zeros(k)
      invariant result == Chars(Zeros(k)) + body
    {
      ZerosGrow(k);
      result := ['1'] + result;
      k := k + 1;
    }
    CountedZeros(bytes, k);
  }

  method Base58Encode(bytes: seq<Byte>) returns (result: string)
    ensures result == Encoded(bytes)
  {
    var num := BytesToNumber(bytes);
    result := NumberToChars(num);
    result := PrependOnes(bytes, result);
    CharsJoin(Zeros(LeadingZeros(bytes)), Digits(58, num));
  }

  lemma CharsJoin(ds: seq<nat>, es: seq<nat>)
    requires Below(ds, 58) && Below(es, 58)
    ensures Below(ds + es, 58) && Chars(ds + es) == Chars(ds) + Chars(es)
  {}

  /** Accumulate a number from its characters; stop at one outside the alphabet. */
  method CharsToNumber(s: string) returns (num: Option<nat>)
    ensures num.Some? <==> Indices(s).Some?
    ensures num.Some? ==> num.value == Value(58, Indices(s).value)
  {
    var n: nat := 0;
    for i := 0 to |s|
      invariant Indices(s[..i]).Some? && n == Value(58, Indices(s[..i]).value)
    {
      IndexIsDigit(s[i]);
      var idx := IndexFrom(BASE58_ALPHABET, s[i], 0);
      if idx.None? {
        assert s[i] in s && !InAlphabet(s[i]);
        IndicesDefined(s);
        return None;
      }
      assert s[..i + 1][..i] == s[..i];
      assert Indices(s[..i + 1]).value[..i] == Indices(s[..i]).value;
      n := n * 58 + idx.value;
    }
    assert s[..|s|] == s;
    return Some(n);
  }

  /** Peel bytes off a number, least significant first. */
  method NumberToBytes(n: nat) returns (bytes: seq<Byte>)
    ensures bytes == Digits(256, n)
  {
    var num := n;
    bytes := [];
    while num > 0
      invariant Digits(256, n) == Digits(256, num) + bytes
    {
      bytes := [num % 256] + bytes;
      num := num / 256;
    }
  }

  lemma OnesAreZeros(s: string, i: nat)
    requires Indices(s).Some? && i < |s|
    ensures s[i] == '1' <==> Indices(s).value[i] == 0
  {
    var d := Indices(s).value[i];
    CharsOfIndices(s);
    assert s[i] == Chars(Indices(s).value)[i] == CharOf(d);
    CharsInvert(d, s[i]);
    CharsInvert(0, '1');
  }

  /** One zero byte for each leading '1'. */
  method PrependZeros(s: string, body: seq<Byte>) returns (bytes: seq<Byte>)
    requires Indices(s).Some?
    ensures bytes == Zeros(LeadingZeros(Indices(s).value)) + body
  {
    ghost var ds := Indices(s).value;
    bytes := body;
    var k := 0;
    while k < |s| && s[k] == '1'
      invariant k <= |s| && ds[..k] == Zeros(k)
      invariant bytes == Zeros(k) + body
    {
      OnesAreZeros(s, k);
      ZerosGrow(k);
      bytes := [0] + bytes;
      k := k + 1;
    }
    if k < |s| { OnesAreZeros(s, k); }
    CountedZeros(ds, k);
  }

  method Base58Decode(s: string) returns (res: Result<seq<Byte>>)
    ensures res.Ok? <==> Decoded(s).Some?
    ensures res.Ok? ==> res.value == Decoded(s).value
  {
    var num := CharsToNumber(s);
    if num.None? { return Error("Invalid Base58 character"); }
    var bytes := NumberToBytes(num.value);
    bytes := PrependZeros(s, bytes);
    return Ok(bytes);
  }
}
