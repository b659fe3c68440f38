/** Invite codes (internal/registar/auth/key.go): a key of five bytes, written as eight
    Crockford base32 symbols with a dash in the middle. */
module Base32 {
  import opened Wrappers
  import opened Bytes

  const ALPHABET := "0123456789ABCDEFGHJKMNPQRSTVWXYZ"
  const PAD: Byte := '=' as int

  type Quintet = v: int | 0 <= v < 32

  function SymbolOf(v: Quintet): Byte {
    if v < 10 then '0' as int + v
    else if v < 18 then 'A' as int + (v - 10)
    else if v < 20 then 'J' as int + (v - 18)
    else if v < 22 then 'M' as int + (v - 20)
    else if v < 27 then 'P' as int + (v - 22)
    else 'V' as int + (v - 27)
  }

  function ValueOf(b: Byte): Option<Quintet> {
    if '0' as int <= b <= '9' as int then Some(b - '0' as int)
    else if 'A' as int <= b <= 'H' as int then Some(b - 'A' as int + 10)
    else if 'J' as int <= b <= 'K' as int then Some(b - 'J' as int + 18)
    else if 'M' as int <= b <= 'N' as int then Some(b - 'M' as int + 20)
    else if 'P' as int <= b <= 'T' as int then Some(b - 'P' as int + 22)
    else if 'V' as int <= b <= 'Z' as int then Some(b - 'V' as int + 27)
    else None
  }

  /** The two functions are the alphabet, read one way and the other. */
  lemma SymbolsAndValues(v: Quintet, b: Byte)
    ensures |ALPHABET| == 32 && SymbolOf(v) == ALPHABET[v] as int
    ensures ValueOf(b) == Some(v) <==> b == SymbolOf(v)
  {
  }

  predicate IsSymbol(b: Byte) {
    ValueOf(b).Some?
  }

  type Quintets = qs: seq<Quintet> | |qs| == 8 witness [0, 0, 0, 0, 0, 0, 0, 0]

  type Group = bs: seq<Byte> | |bs| == 5 witness [0, 0, 0, 0, 0]

  /** The grouping of section 6 of RFC 4648: five bytes as eight times five bits. */
  function Split(b: Group): Quintets {
    [b[0] / 8, b[0] % 8 * 4 + b[1] / 64, b[1] / 2 % 32, b[1] % 2 * 16 + b[2] / 16,
     b[2] % 16 * 2 + b[3] / 128, b[3] / 4 % 32, b[3] % 4 * 8 + b[4] / 32, b[4] % 32]
  }

  function Pack(q: Quintets): Group {
    var d: seq<int> := q;
    [d[0] * 8 + d[1] / 4, d[1] % 4 * 64 + d[2] * 2 + d[3] / 16, d[3] % 16 * 16 + d[4] / 2,
     d[4] % 2 * 128 + d[5] * 4 + d[6] / 8, d[6] % 8 * 32 + d[7]]
  }

  /** The number that digits stand for, the most significant one first. */
  function Number(digits: seq<int>, base: int): int {
    if digits == [] then 0 else Number(digits[..|digits| - 1], base) * base + digits[|digits| - 1]
  }

  lemma Fields(hi: nat, lo: nat, n: nat)
    requires lo < n && n in {2, 4, 8, 16, 32, 64, 128}
    ensures (hi * n + lo) / n == hi && (hi * n + lo) % n == lo
  {
    if n == 2 {} else if n == 4 {} else if n == 8 {} else if n == 16 {} else if n == 32 {} else if n == 64 {} else {}
  }

  /** A byte cut in three, as the second and the fourth are. */
  lemma ThreeFields(b: Byte, n: nat, m: nat)
    requires (n == 2 && m == 64) || (n == 4 && m == 128)
    ensures b == b / m * m + b / n % 32 * n + b % n && b / n % 32 < 32 && b / m < 256 / m && b % n < n
  {
    if n == 2 { } else { }
  }

  lemma {:induction false} PackInvertsSplit(b: Group)
    ensures Pack(Split(b)) == b
  {
    Fields(b[0] % 8, b[1] / 64, 4);
    ThreeFields(b[1], 2, 64);
    Fields(b[1] % 2, b[2] / 16, 16);
    Fields(b[2] % 16, b[3] / 128, 2);
    ThreeFields(b[3], 4, 128);
    Fields(b[3] % 4, b[4] / 32, 8);
  }

  lemma {:induction false} SplitInvertsPack(q: Quintets)
    ensures Split(Pack(q)) == q
  {
    var b, d: seq<int> := Pack(q), q;
    Fields(d[0], d[1] / 4, 8);
    Fields(d[1] % 4, d[2] * 2 + d[3] / 16, 64);
    Fields(d[1] % 4 * 32 + d[2], d[3] / 16, 2);
    Fields(d[1] % 4, d[2], 32);
    Fields(d[3] % 16, d[4] / 2, 16);
    Fields(d[4] % 2, d[5] * 4 + d[6] / 8, 128);
    Fields(d[4] % 2 * 32 + d[5], d[6] / 8, 4);
    Fields(d[4] % 2, d[5], 32);
    Fields(d[6] % 8, d[7], 32);
    assert Split(b)[0] == d[0] && Split(b)[1] == d[1];
    assert Split(b)[2] == d[2] && Split(b)[3] == d[3];
    assert Split(b)[4] == d[4] && Split(b)[5] == d[5];
    assert Split(b)[6] == d[6] && Split(b)[7] == d[7];
  }

  lemma NumberOf5(b: seq<int>, base: int)
    requires |b| == 5
    ensures Number(b, base) == (((b[0] * base + b[1]) * base + b[2]) * base + b[3]) * base + b[4]
  {
    assert b[..4][..3] == b[..3] && b[..3][..2] == b[..2] && b[..2][..1] == b[..1] && b[..1][..0] == [];
    assert Number(b[..1], base) == b[0];
    assert Number(b[..2], base) == Number(b[..1], base) * base + b[1];
    assert Number(b[..3], base) == Number(b[..2], base) * base + b[2];
    assert Number(b[..4], base) == Number(b[..3], base) * base + b[3];
  }

  lemma NumberOf8(q: seq<int>, base: int)
    requires |q| == 8
    ensures Number(q, base) == ((Number(q[..5], base) * base + q[5]) * base + q[6]) * base + q[7]
  {
    assert q[..7][..6] == q[..6] && q[..6][..5] == q[..5];
    assert Number(q[..6], base) == Number(q[..5], base) * base + q[5];
    assert Number(q[..7], base) == Number(q[..6], base) * base + q[6];
  }

  /** What the grouping means: the symbols are the digits to base 32 of the number whose
      digits to base 256 are the bytes. */
  lemma PackKeepsTheNumber(q: Quintets)
    ensures Number(Pack(q), 256) == Number(q, 32)
  {
    NumberOf5(Pack(q), 256);
    NumberOf8(q, 32);
    NumberOf5(q[..5], 32);
    assert q[1] == q[1] / 4 * 4 + q[1] % 4 && q[3] == q[3] / 16 * 16 + q[3] % 16;
    assert q[4] == q[4] / 2 * 2 + q[4] % 2 && q[6] == q[6] / 8 * 8 + q[6] % 8;
  }

  // ------------------------------------------------------------------ text

  function Symbols(q: seq<Quintet>): (text: seq<Byte>)
    ensures |text| == |q|
  {
    seq(|q|, i requires 0 <= i < |q| => SymbolOf(q[i]))
  }

  function Encode(b: Group): (text: seq<Byte>)
    ensures |text| == 8
  {
    Symbols(Split(b))
  }

  predicate AllSymbols(text: seq<Byte>) {
    forall i :: 0 <= i < |text| ==> IsSymbol(text[i])
  }

  function Values(text: seq<Byte>): (q: seq<Quintet>)
    requires AllSymbols(text)
    ensures |q| == |text|
  {
    seq(|text|, i requires 0 <= i < |text| => ValueOf(text[i]).value)
  }

  lemma ValuesOfSymbols(q: seq<Quintet>)
    ensures AllSymbols(Symbols(q)) && Values(Symbols(q)) == q
  {
    forall i | 0 <= i < |q| ensures ValueOf(Symbols(q)[i]) == Some(q[i]) {
      SymbolsAndValues(q[i], SymbolOf(q[i]));
    }
  }

  lemma SymbolsOfValues(text: seq<Byte>)
    requires AllSymbols(text)
    ensures Symbols(Values(text)) == text
  {
    forall i | 0 <= i < |text| ensures SymbolOf(Values(text)[i]) == text[i] {
      SymbolsAndValues(ValueOf(text[i]).value, text[i]);
    }
  }

  /** What the decoder collects for one group: the values, the text behind them, and
      whether padding ended it. */
  datatype Collected = Collected(values: seq<Quintet>, rest: seq<Byte>, padded: bool)

  function Collect(text: seq<Byte>, sofar: seq<Quintet>): (r: Option<Collected>)
    requires |sofar| <= 8
    ensures r.Some? ==> |r.value.rest| + |r.value.values| <= |text| + |sofar|
    ensures r.Some? && !r.value.padded ==> |r.value.values| == 8
    ensures r.Some? && r.value.padded ==> |r.value.values| in {2, 4, 5, 7}
    decreases text
  {
    if |sofar| == 8 then Some(Collected(sofar, text, false))
    else if text == [] then None
    else
      var b, rest := text[0], text[1..];
      if b == PAD && 2 <= |sofar| && |rest| < 8 then
        if |rest| + |sofar| < 7 then None
        else if exists k :: 0 <= k < 7 - |sofar| && k < |rest| && rest[k] != PAD then None
        else if |sofar| in {3, 6} then None
        else Some(Collected(sofar, rest, true))
      else if !IsSymbol(b) then None
      else Collect(rest, sofar + [ValueOf(b).value])
  }

  /** How many bytes a group of so many symbols holds. */
  function BytesIn(symbols: nat): (n: nat)
    ensures n <= 5
  {
    if symbols >= 8 then 5 else if symbols == 7 then 4 else if symbols == 5 then 3 else if symbols == 4 then 2 else 1
  }

  function GroupOf(values: seq<Quintet>): Group
    requires |values| <= 8
  {
    Pack(values + seq(8 - |values|, _ => 0))
  }

  /** Decodes with the standard padding. */
  function DecodeGroups(text: seq<Byte>): Option<seq<Byte>>
    decreases |text|
  {
    if text == [] then Some([])
    else
      match Collect(text, [])
      case None => None
      case Some(c) =>
        var bytes := GroupOf(c.values)[..BytesIn(|c.values|)];
        if c.padded then Some(bytes)
        else
          match DecodeGroups(c.rest)
          case None => None
          case Some(more) => Some(bytes + more)
  }

  function StripNewlines(text: seq<Byte>): (r: seq<Byte>)
    ensures |r| <= |text|
    ensures forall b :: b in r ==> b in text
  {
    if text == [] then []
    else (if text[0] == 10 || text[0] == 13 then [] else [text[0]]) + StripNewlines(text[1..])
  }

  function Decode(text: seq<Byte>): Option<seq<Byte>> {
    DecodeGroups(StripNewlines(text))
  }

  /** A group without padding is eight symbols, and they are its values. */
  lemma {:induction false} CollectsSymbols(text: seq<Byte>, sofar: seq<Quintet>)
    requires |sofar| <= 8
    ensures (Collect(text, sofar).Some? && !Collect(text, sofar).value.padded)
      <==> (|text| + |sofar| >= 8 && AllSymbols(text[..8 - |sofar|]))
    ensures Collect(text, sofar).Some? && !Collect(text, sofar).value.padded ==>
      Collect(text, sofar).value == Collected(sofar + Values(text[..8 - |sofar|]), text[8 - |sofar|..], false)
    decreases text
  {
    if |sofar| < 8 && text != [] {
      var n := 8 - |sofar|;
      if |text| >= n { assert text[..n] == [text[0]] + text[1..][..n - 1]; }
      if IsSymbol(text[0]) {
        CollectsSymbols(text[1..], sofar + [ValueOf(text[0]).value]);
        if |text| >= n && AllSymbols(text[..n]) {
          var whole, tail := text[..n], text[1..][..n - 1];
          forall i | 0 <= i < n - 1 ensures IsSymbol(tail[i]) {
            assert tail[i] == whole[i + 1];
          }
          assert Values(text[..n]) == [ValueOf(text[0]).value] + Values(text[1..][..n - 1]);
          assert text[1..][n - 1..] == text[n..];
        }
      } else if |text| >= n {
        assert text[..n][0] == text[0];
      }
    }
  }

  lemma EightSymbols(text: seq<Byte>)
    requires |text| == 8 && AllSymbols(text)
    ensures DecodeGroups(text) == Some(Pack(Values(text)))
  {
    CollectsSymbols(text, []);
    assert text[..8] == text && text[8..] == [];
    var values := Values(text);
    assert [] + values == values;
    assert Collect(text, []) == Some(Collected(values, [], false));
    assert values + seq(8 - |values|, _ => 0) == values;
    assert GroupOf(values)[..5] == Pack(values);
    var none: seq<Byte> := [];
    assert DecodeGroups(none) == Some(none);
    assert Pack(values) + none == Pack(values);
  }

  lemma FiveMeansSymbols(text: seq<Byte>)
    requires DecodeGroups(text).Some? && |DecodeGroups(text).value| == 5
    ensures |text| == 8 && AllSymbols(text)
  {
    CollectsSymbols(text, []);
    var c := Collect(text, []).value;
    assert !c.padded;
    assert c.rest == text[8..];
    if c.rest != [] {
      MoreIsMore(c.rest);
      assert false;
    }
    assert text[..8] == text;
  }

  /** A text decodes to five bytes exactly if it is eight symbols. */
  lemma DecodesToFive(text: seq<Byte>)
    ensures (DecodeGroups(text).Some? && |DecodeGroups(text).value| == 5) <==> |text| == 8 && AllSymbols(text)
    ensures |text| == 8 && AllSymbols(text) ==> DecodeGroups(text) == Some(Pack(Values(text)))
  {
    if |text| == 8 && AllSymbols(text) {
      EightSymbols(text);
    } else if DecodeGroups(text).Some? && |DecodeGroups(text).value| == 5 {
      FiveMeansSymbols(text);
    }
  }

  lemma PaddedIsShort(text: seq<Byte>)
    requires text != [] && Collect(text, []).Some? && Collect(text, []).value.padded
    ensures DecodeGroups(text).Some? && |DecodeGroups(text).value| < 5
  {
  }

  /** A group of `k` symbols that padding ends. */
  predicate Padded(text: seq<Byte>, k: nat) {
    && k in {2, 4, 5, 7} && 8 <= |text| < k + 9
    && AllSymbols(text[..k]) && forall i :: k <= i < 8 ==> text[i] == PAD
  }

  /** The same behind `done` symbols. */
  predicate PaddedAfter(text: seq<Byte>, done: nat, k: nat) {
    && k in {2, 4, 5, 7} && done <= k && 8 <= |text| + done && |text| + done < k + 9
    && AllSymbols(text[..k - done]) && forall i :: k - done <= i < 8 - done ==> text[i] == PAD
  }

  lemma PaddedOne(text: seq<Byte>, done: nat, k: nat)
    requires text != [] && done < k
    ensures PaddedAfter(text, done, k) <==> IsSymbol(text[0]) && PaddedAfter(text[1..], done + 1, k)
  {
    if |text| >= k - done && k - done >= 1 {
      var rest := text[1..];
      var whole, tail := text[..k - done], rest[..k - done - 1];
      assert AllSymbols(whole) <==> IsSymbol(text[0]) && AllSymbols(tail) by {
        assert whole == [text[0]] + tail;
        assert forall i :: 0 < i < k - done ==> whole[i] == tail[i - 1];
        assert forall i :: 0 <= i < k - done - 1 ==> tail[i] == whole[i + 1];
      }
      assert forall i :: k - done - 1 <= i < 8 - done - 1 && i < |rest| ==> rest[i] == text[i + 1];
      assert forall i :: k - done <= i < 8 - done && i < |text| ==> text[i] == rest[i - 1];
    }
  }

  /** What the decoder takes for a padded group, exactly. */
  lemma {:induction false} CollectsPadding(text: seq<Byte>, sofar: seq<Quintet>, k: nat)
    requires |sofar| <= 8
    ensures var r := Collect(text, sofar);
      r.Some? && r.value.padded && |r.value.values| == k <==> PaddedAfter(text, |sofar|, k)
    decreases text
  {
    if |sofar| < 8 && text != [] {
      var b, rest := text[0], text[1..];
      if b == PAD && 2 <= |sofar| && |rest| < 8 {
        PadEnds(text, rest, |sofar|, k);
      } else if IsSymbol(b) {
        CollectsPadding(rest, sofar + [ValueOf(b).value], k);
        if |sofar| < k {
          PaddedOne(text, |sofar|, k);
        }
      } else if |sofar| < k {
        PaddedOne(text, |sofar|, k);
      }
    }
  }

  lemma PadEnds(text: seq<Byte>, rest: seq<Byte>, done: nat, k: nat)
    requires text == [PAD] + rest && 2 <= done < 8 && |rest| < 8
    ensures PaddedAfter(text, done, k) <==>
      k == done && done !in {3, 6} && |rest| + done >= 7 && forall i :: 0 <= i < 7 - done && i < |rest| ==> rest[i] == PAD
  {
    if done < k {
      PaddedOne(text, done, k);
    } else if done == k && |rest| + done >= 7 {
      assert text[..0] == [];
      assert forall i :: 0 <= i < 7 - done ==> rest[i] == text[i + 1];
      assert forall i :: 1 <= i < 8 - done ==> text[i] == rest[i - 1];
    }
  }

  /** Nothing, or so many symbols and padding that they hold `n` bytes. */
  predicate IsShort(text: seq<Byte>, n: nat) {
    (text == [] && n == 0)
    || (Padded(text, 2) && n == 1) || (Padded(text, 4) && n == 2) || (Padded(text, 5) && n == 3) || (Padded(text, 7) && n == 4)
  }

  /** A text decodes to fewer than five bytes exactly if it is empty or a padded group. */
  lemma DecodesToFewer(text: seq<Byte>, n: nat)
    requires n < 5
    ensures DecodeGroups(text).Some? && |DecodeGroups(text).value| == n <==> IsShort(text, n)
  {
    CollectsPadding(text, [], 2);
    CollectsPadding(text, [], 4);
    CollectsPadding(text, [], 5);
    CollectsPadding(text, [], 7);
    assert Padded(text, 2) == PaddedAfter(text, 0, 2) && Padded(text, 4) == PaddedAfter(text, 0, 4);
    assert Padded(text, 5) == PaddedAfter(text, 0, 5) && Padded(text, 7) == PaddedAfter(text, 0, 7);
  }

  lemma MoreIsMore(text: seq<Byte>)
    requires text != [] && DecodeGroups(text).Some?
    ensures DecodeGroups(text).value != []
  {
  }
}

/** bytes.Map over UTF-8 text. */
module Utf8 {
  import opened Bytes

  const REPLACEMENT: nat := 0xFFFD

  predicate Continues(b: Byte) {
    0x80 <= b < 0xC0
  }

  /** The six bits of a continuation byte. */
  function Six(b: Byte): nat
    requires Continues(b)
  {
    b - 0x80
  }

  predicate SecondFits(first: Byte, second: Byte) {
    && Continues(second)
    && (first == 0xE0 ==> 0xA0 <= second) && (first == 0xED ==> second < 0xA0)
    && (first == 0xF0 ==> 0x90 <= second) && (first == 0xF4 ==> second < 0x90)
  }

  /** The first rune of a text and its width; a byte that starts no rune counts as the
      replacement character. */
  function FirstRune(s: seq<Byte>): (r: (nat, nat))
    requires s != []
    ensures 1 <= r.1 <= |s|
    ensures s[0] < 128 ==> r == (s[0], 1)
    ensures s[0] >= 128 ==> r.0 >= 128 && (r.1 == 1 ==> r.0 == REPLACEMENT)
    ensures forall i :: 0 < i < r.1 ==> s[i] >= 128
  {
    var b: int := s[0];
    if b < 0x80 then (b, 1)
    else if 0xC2 <= b < 0xE0 && 2 <= |s| && Continues(s[1]) then
      ((b - 0xC0) * 64 + Six(s[1]), 2)
    else if 0xE0 <= b < 0xF0 && 3 <= |s| && SecondFits(b, s[1]) && Continues(s[2]) then
      ((b - 0xE0) * 4096 + Six(s[1]) * 64 + Six(s[2]), 3)
    else if 0xF0 <= b < 0xF5 && 4 <= |s| && SecondFits(b, s[1]) && Continues(s[2]) && Continues(s[3]) then
      ((b - 0xF0) * 262144 + Six(s[1]) * 4096 + Six(s[2]) * 64 + Six(s[3]), 4)
    else (REPLACEMENT, 1)
  }

  function RuneBytes(r: nat): (s: seq<Byte>)
    ensures r < 128 ==> s == [r]
    ensures r >= 128 ==> forall i :: 0 <= i < |s| ==> s[i] >= 128
  {
    if r < 0x80 then [r]
    else if r < 0x800 then [0xC0 + r / 64, 0x80 + r % 64]
    else if 0xD800 <= r < 0xE000 || r >= 0x110000 then [0xEF, 0xBF, 0xBD]
    else if r < 0x10000 then [0xE0 + r / 4096, 0x80 + r / 64 % 64, 0x80 + r % 64]
    else [0xF0 + r / 262144, 0x80 + r / 4096 % 64, 0x80 + r / 64 % 64, 0x80 + r % 64]
  }

  lemma SixBits(r: nat)
    ensures r == r / 64 * 64 + r % 64 && r % 64 < 64
    ensures r / 64 / 64 == r / 4096 && r / 4096 / 64 == r / 262144
  {
  }

  /** Whatever a valid rune is encoded as decodes to it. */
  lemma {:induction false} RunesRoundTrip(r: nat, rest: seq<Byte>)
    requires r < 0x110000 && !(0xD800 <= r < 0xE000)
    ensures FirstRune(RuneBytes(r) + rest) == (r, |RuneBytes(r)|)
  {
    var s := RuneBytes(r) + rest;
    SixBits(r);
    SixBits(r / 64);
    SixBits(r / 4096);
    if r < 0x80 {
    } else if r < 0x800 {
      assert s[0] == 0xC0 + r / 64 && s[1] == 0x80 + r % 64;
    } else if r < 0x10000 {
      assert s[0] == 0xE0 + r / 4096 && s[1] == 0x80 + r / 64 % 64 && s[2] == 0x80 + r % 64;
      assert FirstRune(s).1 == 3;
    } else {
      assert s[0] == 0xF0 + r / 262144 && s[1] == 0x80 + r / 4096 % 64;
      assert s[2] == 0x80 + r / 64 % 64 && s[3] == 0x80 + r % 64;
      assert FirstRune(s).1 == 4;
    }
  }
}

module InviteCodes {
  import opened Wrappers
  import opened Bytes
  import opened Base32
  import opened Utf8

  type Key = Group

  const ZERO_KEY: Key := [0, 0, 0, 0, 0]
  const DASH: Byte := '-' as int

  datatype KeyError = InvalidFormat | InvalidLength(length: nat) | CorruptInput | UnsupportedType

  datatype Parsed = Ok(key: Key) | Err(error: KeyError)

  /** Upper case beyond ASCII, whatever the tables say, as long as the replacement character
      has no case. */
  type UpperTable = f: nat -> nat | f(REPLACEMENT) == REPLACEMENT witness (r: nat) => r

  // ------------------------------------------------------------------ the mapping

  function AsciiUpper(b: Byte): Byte {
    if 'a' as int <= b <= 'z' as int then b - 32 else b
  }

  predicate Skipped(r: nat) {
    r == '-' as int || r == '_' as int
  }

  function MapAscii(b: Byte): Byte {
    if b == '0' as int || b == 'o' as int || b == 'O' as int then '0' as int
    else if b == '1' as int || b == 'l' as int || b == 'L' as int then '1' as int
    else AsciiUpper(b)
  }

  /** The rune that replaces `r`, unless `r` is skipped. */
  function MapRune(upper: UpperTable, r: nat): nat {
    if r < 128 then MapAscii(r) else upper(r)
  }

  function Normalise(upper: UpperTable, s: seq<Byte>): seq<Byte>
    decreases |s|
  {
    if s == [] then []
    else
      var (r, width) := FirstRune(s);
      (if Skipped(r) then [] else RuneBytes(MapRune(upper, r))) + Normalise(upper, s[width..])
  }

  // ------------------------------------------------------------------ parse and print

  predicate WellShaped(text: seq<Byte>) {
    |text| == 8 || (|text| == 9 && text[4] == DASH)
  }

  function FromBinary(data: seq<Byte>): Parsed {
    if |data| != 5 then Err(InvalidLength(|data|)) else Ok(data)
  }

  function ToBinary(k: Key): seq<Byte> {
    if k == ZERO_KEY then [] else k
  }

  function Parse(upper: UpperTable, text: seq<Byte>): Parsed {
    if |text| == 9 && text[4] != DASH then Err(InvalidFormat)
    else if |text| != 8 && |text| != 9 then Err(InvalidLength(|text|))
    else
      match Decode(Normalise(upper, text))
      case None => Err(CorruptInput)
      case Some(data) => FromBinary(data)
  }

  function WithDash(symbols: seq<Byte>): seq<Byte>
    requires |symbols| == 8
  {
    symbols[..4] + [DASH] + symbols[4..]
  }

  function Print(k: Key): seq<Byte> {
    WithDash(Encode(k))
  }

  // ------------------------------------------------------------------ normalising

  function AsciiBytes(s: seq<Byte>): nat {
    if s == [] then 0 else (if s[0] < 128 then 1 else 0) + AsciiBytes(s[1..])
  }

  function Skips(s: seq<Byte>): nat {
    if s == [] then 0 else (if Skipped(s[0]) then 1 else 0) + Skips(s[1..])
  }

  predicate IsAscii(s: seq<Byte>) {
    forall i :: 0 <= i < |s| ==> s[i] < 128
  }

  lemma {:induction false} AsciiBytesAdd(s: seq<Byte>, t: seq<Byte>)
    ensures AsciiBytes(s + t) == AsciiBytes(s) + AsciiBytes(t)
  {
    if s == [] {
      assert s + t == t;
    } else {
      assert (s + t)[1..] == s[1..] + t;
      AsciiBytesAdd(s[1..], t);
    }
  }

  lemma {:induction false} SkipsAdd(s: seq<Byte>, t: seq<Byte>)
    ensures Skips(s + t) == Skips(s) + Skips(t)
  {
    if s == [] {
      assert s + t == t;
    } else {
      assert (s + t)[1..] == s[1..] + t;
      SkipsAdd(s[1..], t);
    }
  }

  lemma {:induction false} NoneAscii(s: seq<Byte>)
    requires forall i :: 0 <= i < |s| ==> s[i] >= 128
    ensures AsciiBytes(s) == 0 && Skips(s) == 0
  {
    if s != [] { NoneAscii(s[1..]); }
  }

  lemma {:induction false} AsciiBytesAtMost(s: seq<Byte>)
    ensures AsciiBytes(s) <= |s|
    ensures AsciiBytes(s) == |s| <==> IsAscii(s)
  {
    if s != [] {
      AsciiBytesAtMost(s[1..]);
      assert IsAscii(s) <==> s[0] < 128 && IsAscii(s[1..]);
    }
  }

  /** Each ASCII byte of the result costs a byte of the text that is not skipped, and a rune
      beyond ASCII costs more than it gives. */
  lemma {:induction false} NormaliseCost(upper: UpperTable, s: seq<Byte>)
    ensures AsciiBytes(Normalise(upper, s)) + Skips(s) <= |s|
    ensures AsciiBytes(Normalise(upper, s)) + Skips(s) == |s| ==> IsAscii(s)
    decreases |s|
  {
    if s != [] {
      var (r, w) := FirstRune(s);
      var head := if Skipped(r) then [] else RuneBytes(MapRune(upper, r));
      NormaliseCost(upper, s[w..]);
      AsciiBytesAdd(head, Normalise(upper, s[w..]));
      assert s == s[..w] + s[w..];
      SkipsAdd(s[..w], s[w..]);
      RuneCost(upper, s, head);
      if s[0] < 128 {
        assert IsAscii(s[1..]) ==> IsAscii(s);
      }
    }
  }

  lemma RuneCost(upper: UpperTable, s: seq<Byte>, head: seq<Byte>)
    requires s != [] && head == if Skipped(FirstRune(s).0) then [] else RuneBytes(MapRune(upper, FirstRune(s).0))
    ensures var w := FirstRune(s).1;
      AsciiBytes(head) + Skips(s[..w]) <= w && (AsciiBytes(head) + Skips(s[..w]) == w ==> s[0] < 128 && w == 1)
  {
    if s[0] < 128 {
      PlainCost(upper, s);
    } else {
      HeadCost(upper, s, FirstRune(s).0, FirstRune(s).1);
    }
  }

  lemma PlainCost(upper: UpperTable, s: seq<Byte>)
    requires s != [] && s[0] < 128
    ensures AsciiBytes(if Skipped(s[0]) then [] else RuneBytes(MapRune(upper, s[0]))) + Skips(s[..1]) == 1
  {
    assert s[..1][1..] == [];
    var b := RuneBytes(MapRune(upper, s[0]));
    assert b[1..] == [];
  }

  lemma HeadCost(upper: UpperTable, s: seq<Byte>, r: nat, w: nat)
    requires s != [] && s[0] >= 128 && (r, w) == FirstRune(s)
    ensures AsciiBytes(RuneBytes(MapRune(upper, r))) < w && Skips(s[..w]) == 0 && !Skipped(r)
  {
    NoneAscii(s[..w]);
    var m := MapRune(upper, r);
    if m < 128 {
      assert w > 1;
    } else {
      NoneAscii(RuneBytes(m));
    }
  }

  /** Of ASCII text the mapping goes byte by byte. */
  lemma {:induction false} NormaliseAdds(upper: UpperTable, s: seq<Byte>, t: seq<Byte>)
    requires IsAscii(s)
    ensures Normalise(upper, s + t) == Normalise(upper, s) + Normalise(upper, t)
    decreases |s|
  {
    if s == [] {
      assert s + t == t;
    } else {
      assert (s + t)[1..] == s[1..] + t;
      NormaliseAdds(upper, s[1..], t);
    }
  }

  // ------------------------------------------------------------------ which texts are accepted

  /** The text without its dash. */
  function Bare(text: seq<Byte>): (r: seq<Byte>)
    requires WellShaped(text)
    ensures |r| == 8
  {
    if |text| == 8 then text else text[..4] + text[5..]
  }

  function Mapped(s: seq<Byte>): (r: seq<Byte>)
    ensures |r| == |s|
  {
    seq(|s|, i requires 0 <= i < |s| => MapAscii(s[i]))
  }

  /** Eight characters that each stand for a symbol: digits, letters of either case but I
      and U, an O standing for 0 and an L for 1. */
  predicate WellFormed(text: seq<Byte>) {
    && WellShaped(text)
    && forall i :: 0 <= i < 8 ==> Bare(text)[i] < 128 && IsSymbol(MapAscii(Bare(text)[i]))
  }

  function Canonical(text: seq<Byte>): seq<Byte>
    requires WellFormed(text)
  {
    WithDash(Mapped(Bare(text)))
  }

  predicate NoneSkipped(s: seq<Byte>) {
    forall i :: 0 <= i < |s| ==> !Skipped(s[i])
  }

  lemma {:induction false} SkipsNone(s: seq<Byte>)
    ensures Skips(s) == 0 <==> NoneSkipped(s)
  {
    if s != [] {
      SkipsNone(s[1..]);
      assert NoneSkipped(s) <==> !Skipped(s[0]) && NoneSkipped(s[1..]);
    }
  }

  lemma {:induction false} NormalisesToMapped(upper: UpperTable, s: seq<Byte>)
    requires IsAscii(s) && NoneSkipped(s)
    ensures Normalise(upper, s) == Mapped(s)
    decreases |s|
  {
    if s != [] {
      NormalisesToMapped(upper, s[1..]);
      assert Mapped(s) == [MapAscii(s[0])] + Mapped(s[1..]);
    }
  }

  lemma SkipsOfBare(text: seq<Byte>)
    requires WellShaped(text)
    ensures Skips(text) == Skips(Bare(text)) + |text| - 8
    ensures IsAscii(text) ==> IsAscii(Bare(text))
  {
    if |text| == 9 {
      assert text == text[..4] + ([DASH] + text[5..]);
      SkipsAdd(text[..4], [DASH] + text[5..]);
      SkipsAdd([DASH], text[5..]);
      SkipsAdd(text[..4], text[5..]);
    }
  }

  /** The dash does not matter. */
  lemma NormalisesBare(upper: UpperTable, text: seq<Byte>)
    requires WellShaped(text) && IsAscii(Bare(text))
    ensures Normalise(upper, text) == Normalise(upper, Bare(text))
  {
    if |text| == 9 {
      var a, b := text[..4], text[5..];
      assert text == a + ([DASH] + b);
      assert IsAscii(a) by {
        forall i | 0 <= i < 4 ensures a[i] < 128 { assert Bare(text)[i] == a[i]; }
      }
      SkippedBetween(upper, a, b);
    }
  }

  lemma SkippedBetween(upper: UpperTable, a: seq<Byte>, b: seq<Byte>)
    requires IsAscii(a)
    ensures Normalise(upper, a + ([DASH] + b)) == Normalise(upper, a + b)
  {
    NormaliseAdds(upper, a, [DASH] + b);
    NormaliseAdds(upper, a, b);
    assert ([DASH] + b)[1..] == b;
  }

  /** Normalising gives at most eight ASCII bytes, and only eight plain characters give
      eight of them. */
  lemma EightAtMost(upper: UpperTable, text: seq<Byte>)
    requires WellShaped(text)
    ensures AsciiBytes(Normalise(upper, text)) <= 8
    ensures AsciiBytes(Normalise(upper, text)) == 8 ==> IsAscii(Bare(text)) && NoneSkipped(Bare(text))
    ensures IsAscii(Bare(text)) && NoneSkipped(Bare(text)) ==> Normalise(upper, text) == Mapped(Bare(text))
  {
    NormaliseCost(upper, text);
    SkipsNone(Bare(text));
    SkipsOfBare(text);
    if IsAscii(Bare(text)) && NoneSkipped(Bare(text)) {
      NormalisesBare(upper, text);
      NormalisesToMapped(upper, Bare(text));
    }
  }

  lemma {:induction false} StripCost(s: seq<Byte>)
    ensures AsciiBytes(StripNewlines(s)) <= AsciiBytes(s)
    ensures |StripNewlines(s)| == |s| ==> StripNewlines(s) == s
    ensures AllSymbols(s) ==> StripNewlines(s) == s
  {
    if s != [] {
      var head := if s[0] == 10 || s[0] == 13 then [] else [s[0]];
      StripCost(s[1..]);
      AsciiBytesAdd(head, StripNewlines(s[1..]));
      if AllSymbols(s) {
        assert IsSymbol(s[0]);
        assert AllSymbols(s[1..]);
      }
    }
  }

  lemma SymbolsAreAscii(s: seq<Byte>)
    requires AllSymbols(s)
    ensures AsciiBytes(s) == |s|
  {
    forall i | 0 <= i < |s| ensures s[i] < 128 { assert IsSymbol(s[i]); }
    AsciiBytesAtMost(s);
  }

  /** The decoder's buffer of five bytes is enough: a complete group is the whole text. */
  lemma DecodesWithinTheBuffer(upper: UpperTable, text: seq<Byte>)
    requires WellShaped(text)
    requires Collect(StripNewlines(Normalise(upper, text)), []).Some?
    requires !Collect(StripNewlines(Normalise(upper, text)), []).value.padded
    ensures Collect(StripNewlines(Normalise(upper, text)), []).value.rest == []
    ensures StripNewlines(Normalise(upper, text)) == Normalise(upper, text) == Mapped(Bare(text))
    ensures AllSymbols(Mapped(Bare(text)))
  {
    var n := Normalise(upper, text);
    var m := StripNewlines(n);
    CollectsSymbols(m, []);
    SymbolsAreAscii(m[..8]);
    assert m == m[..8] + m[8..];
    AsciiBytesAdd(m[..8], m[8..]);
    StripCost(n);
    EightAtMost(upper, text);
    assert m == n == Mapped(Bare(text)) == m[..8];
  }

  lemma MappedSymbols(upper: UpperTable, text: seq<Byte>)
    requires WellFormed(text)
    ensures Normalise(upper, text) == Mapped(Bare(text)) && AllSymbols(Mapped(Bare(text)))
  {
    EightAtMost(upper, text);
    forall i | 0 <= i < 8 ensures Bare(text)[i] < 128 && !Skipped(Bare(text)[i]) && IsSymbol(Mapped(Bare(text))[i]) {
      SymbolsAreKept(Bare(text)[i]);
    }
  }

  lemma SymbolsAreKept(b: Byte)
    ensures IsSymbol(MapAscii(b)) ==> !Skipped(b)
  {
  }

  lemma ParsesWellFormed(upper: UpperTable, text: seq<Byte>)
    requires WellFormed(text)
    ensures AllSymbols(Mapped(Bare(text)))
    ensures Parse(upper, text) == Ok(Pack(Values(Mapped(Bare(text)))))
  {
    MappedSymbols(upper, text);
    StripCost(Mapped(Bare(text)));
    DecodesToFive(Mapped(Bare(text)));
  }

  lemma NormalMeansWellFormed(upper: UpperTable, text: seq<Byte>)
    requires WellShaped(text) && |Normalise(upper, text)| == 8 && AllSymbols(Normalise(upper, text))
    ensures WellFormed(text)
  {
    var n := Normalise(upper, text);
    SymbolsAreAscii(n);
    EightAtMost(upper, text);
    forall i | 0 <= i < 8 ensures Bare(text)[i] < 128 && IsSymbol(MapAscii(Bare(text)[i])) {
      assert n[i] == Mapped(Bare(text))[i];
    }
  }

  /** Over all byte texts: exactly those are accepted that pass the length and dash check
      and normalise to eight symbols of the alphabet; and these are the texts of eight plain
      characters that each stand for a symbol, whatever upper case is beyond ASCII. */
  lemma AcceptedExactlyWhen(upper: UpperTable, text: seq<Byte>)
    ensures Parse(upper, text).Ok? <==>
            WellShaped(text) && |Normalise(upper, text)| == 8 && AllSymbols(Normalise(upper, text))
    ensures Parse(upper, text).Ok? <==> WellFormed(text)
  {
    if WellFormed(text) {
      ParsesWellFormed(upper, text);
      MappedSymbols(upper, text);
    } else if WellShaped(text) {
      if |Normalise(upper, text)| == 8 && AllSymbols(Normalise(upper, text)) {
        NormalMeansWellFormed(upper, text);
        assert false;
      }
      if Parse(upper, text).Ok? {
        DecodesToFive(StripNewlines(Normalise(upper, text)));
        CollectsSymbols(StripNewlines(Normalise(upper, text)), []);
        DecodesWithinTheBuffer(upper, text);
        assert false;
      }
    }
  }

  // ------------------------------------------------------------------ which key a text stands for

  predicate IsLetter(b: Byte, upper: char, lower: char) {
    b == upper as int || b == lower as int
  }

  /** The value of a character: its place in the alphabet, for letters of either case, and an
      O is a 0 and an L a 1. */
  predicate StandsFor(b: Byte, v: Quintet)
    requires |ALPHABET| == 32
  {
    || b == ALPHABET[v] as int
    || ('a' as int <= b <= 'z' as int && b - 32 == ALPHABET[v] as int)
    || (IsLetter(b, 'O', 'o') && v == 0)
    || (IsLetter(b, 'L', 'l') && v == 1)
  }

  lemma CharacterValue(b: Byte, v: Quintet)
    ensures |ALPHABET| == 32
    ensures b < 128 && ValueOf(MapAscii(b)) == Some(v) <==> StandsFor(b, v)
  {
    SymbolsAndValues(v, MapAscii(b));
  }

  /** Eight characters, perhaps with a dash in the middle, each standing for a value. */
  predicate Spells(text: seq<Byte>, q: Quintets)
    requires |ALPHABET| == 32
  {
    WellShaped(text) && forall i :: 0 <= i < 8 ==> StandsFor(Bare(text)[i], q[i])
  }

  lemma SpellsItsValues(text: seq<Byte>)
    requires WellFormed(text) && AllSymbols(Mapped(Bare(text)))
    ensures |ALPHABET| == 32 && Spells(text, Values(Mapped(Bare(text))))
  {
    CharacterValue(0, 0);
    forall i | 0 <= i < 8 ensures StandsFor(Bare(text)[i], Values(Mapped(Bare(text)))[i]) {
      CharacterValue(Bare(text)[i], Values(Mapped(Bare(text)))[i]);
    }
  }

  lemma SpellsOneValue(text: seq<Byte>, q: Quintets)
    requires |ALPHABET| == 32 && Spells(text, q)
    ensures WellFormed(text) && AllSymbols(Mapped(Bare(text))) && Values(Mapped(Bare(text))) == q
  {
    forall i | 0 <= i < 8 ensures Bare(text)[i] < 128 && ValueOf(MapAscii(Bare(text)[i])) == Some(q[i]) {
      CharacterValue(Bare(text)[i], q[i]);
    }
  }

  /** The key that a text stands for, over all byte texts and all keys: each character stands
      for five bits of it. */
  lemma ParsesExactlyTo(upper: UpperTable, text: seq<Byte>, key: Key)
    ensures |ALPHABET| == 32
    ensures Parse(upper, text) == Ok(key) <==> Spells(text, Split(key))
  {
    CharacterValue(0, 0);
    if Spells(text, Split(key)) {
      SpellsOneValue(text, Split(key));
      ParsesWellFormed(upper, text);
      PackInvertsSplit(key);
    }
    if Parse(upper, text) == Ok(key) {
      AcceptedExactlyWhen(upper, text);
      ParsesWellFormed(upper, text);
      SpellsItsValues(text);
      SplitInvertsPack(Values(Mapped(Bare(text))));
    }
  }

  /** What is printed: the symbols of the alphabet for the key, and a dash in the middle. */
  lemma PrintsExactly(k: Key)
    ensures |ALPHABET| == 32 && |Print(k)| == 9 && Print(k)[4] == '-' as int
    ensures forall i :: 0 <= i < 8 ==> Print(k)[if i < 4 then i else i + 1] == ALPHABET[Split(k)[i]] as int
  {
    forall i | 0 <= i < 8 ensures Encode(k)[i] == ALPHABET[Split(k)[i]] as int {
      SymbolsAndValues(Split(k)[i], 0);
    }
  }

  /** Which error a refused text gets. */
  lemma Refusals(upper: UpperTable, text: seq<Byte>)
    ensures Parse(upper, text) == Err(InvalidFormat) <==> |text| == 9 && text[4] != DASH
    ensures !WellShaped(text) && !(|text| == 9 && text[4] != DASH) ==> Parse(upper, text) == Err(InvalidLength(|text|))
    ensures WellShaped(text) && Parse(upper, text).Err? && Parse(upper, text).error.InvalidLength? ==> Parse(upper, text).error.length < 5
  {
    if WellShaped(text) {
      FiveAtMost(upper, text);
    }
  }

  lemma RefusedForItsLength(upper: UpperTable, text: seq<Byte>, n: nat)
    requires WellShaped(text)
    ensures Parse(upper, text) == Err(InvalidLength(n)) <==> IsShort(StripNewlines(Normalise(upper, text)), n)
  {
    FiveAtMost(upper, text);
    if n < 5 {
      DecodesToFewer(StripNewlines(Normalise(upper, text)), n);
    }
  }

  /** Which error a text of the right shape gets: the length of what it decodes to when its
      symbols are padded or there are none, and else that it is corrupt. */
  lemma RefusedExactlyAs(upper: UpperTable, text: seq<Byte>)
    requires WellShaped(text)
    ensures var m := StripNewlines(Normalise(upper, text));
      && (forall n: nat :: Parse(upper, text) == Err(InvalidLength(n)) <==> IsShort(m, n))
      && (Parse(upper, text) == Err(CorruptInput) <==> !WellFormed(text) && forall n: nat :: !IsShort(m, n))
  {
    AcceptedExactlyWhen(upper, text);
    forall n: nat
      ensures Parse(upper, text) == Err(InvalidLength(n)) <==> IsShort(StripNewlines(Normalise(upper, text)), n)
    {
      RefusedForItsLength(upper, text, n);
    }
    var p := Parse(upper, text);
    if p.Err? && p.error.InvalidLength? {
      assert IsShort(StripNewlines(Normalise(upper, text)), p.error.length);
    }
  }

  lemma FiveAtMost(upper: UpperTable, text: seq<Byte>)
    requires WellShaped(text)
    ensures Decode(Normalise(upper, text)).Some? ==> |Decode(Normalise(upper, text)).value| <= 5
  {
    var m := StripNewlines(Normalise(upper, text));
    if m != [] && Collect(m, []).Some? {
      if Collect(m, []).value.padded {
        PaddedIsShort(m);
      } else {
        DecodesWithinTheBuffer(upper, text);
        DecodesToFive(m);
      }
    }
  }

  // ------------------------------------------------------------------ round trips

  /** Parsing what was printed gives the key back, for every key. */
  lemma {:induction false} ParseAfterPrint(upper: UpperTable, k: Key)
    ensures Parse(upper, Print(k)) == Ok(k)
    ensures WellFormed(Print(k)) && Canonical(Print(k)) == Print(k)
  {
    var text := Print(k);
    assert Bare(text) == Encode(k);
    ValuesOfSymbols(Split(k));
    forall i | 0 <= i < 8 ensures Encode(k)[i] < 128 && MapAscii(Encode(k)[i]) == Encode(k)[i] && IsSymbol(Encode(k)[i]) {
      SymbolsStay(Split(k)[i]);
    }
    assert Mapped(Bare(text)) == Encode(k);
    ParsesWellFormed(upper, text);
    PackInvertsSplit(k);
  }

  /** The symbols are fixed points of the mapping. */
  lemma SymbolsStay(v: Quintet)
    ensures SymbolOf(v) < 128 && MapAscii(SymbolOf(v)) == SymbolOf(v) && IsSymbol(SymbolOf(v))
  {
  }

  /** Printing what was parsed gives the canonical form of the text, which does not depend
      on the upper case beyond ASCII and is printed and parsed to itself. */
  lemma PrintAfterParse(upper: UpperTable, text: seq<Byte>)
    requires Parse(upper, text).Ok?
    ensures WellFormed(text) && Print(Parse(upper, text).key) == Canonical(text)
    ensures Parse(upper, Canonical(text)) == Parse(upper, text)
    ensures WellFormed(Canonical(text)) && Canonical(Canonical(text)) == Canonical(text)
  {
    AcceptedExactlyWhen(upper, text);
    ParsesWellFormed(upper, text);
    var symbols := Mapped(Bare(text));
    SplitInvertsPack(Values(symbols));
    SymbolsOfValues(symbols);
    ParseAfterPrint(upper, Parse(upper, text).key);
  }

  /** Two accepted texts give the same key exactly if they normalise alike. */
  lemma SameKeyExactlyWhen(upper: UpperTable, t: seq<Byte>, u: seq<Byte>)
    requires Parse(upper, t).Ok? && Parse(upper, u).Ok?
    ensures Parse(upper, t) == Parse(upper, u) <==> Normalise(upper, t) == Normalise(upper, u)
  {
    forall x | x in {t, u} ensures
      Parse(upper, x).Ok? && WellFormed(x) && Normalise(upper, x) == Mapped(Bare(x))
      && Print(Parse(upper, x).key) == WithDash(Mapped(Bare(x)))
      && Parse(upper, WithDash(Mapped(Bare(x)))) == Parse(upper, x)
    {
      PrintAfterParse(upper, x);
      MappedSymbols(upper, x);
    }
    if Parse(upper, t) == Parse(upper, u) {
      assert WithDash(Mapped(Bare(t))) == WithDash(Mapped(Bare(u)));
      DashInjective(Mapped(Bare(t)), Mapped(Bare(u)));
    }
  }

  lemma DashInjective(a: seq<Byte>, b: seq<Byte>)
    requires |a| == 8 && |b| == 8 && WithDash(a) == WithDash(b)
    ensures a == b
  {
    assert WithDash(a)[..4] == a[..4] && WithDash(b)[..4] == b[..4];
    assert WithDash(a)[5..] == a[4..] && WithDash(b)[5..] == b[4..];
    assert a == a[..4] + a[4..] && b == b[..4] + b[4..];
  }

  /** Different keys print differently. */
  lemma PrintInjective(upper: UpperTable, j: Key, k: Key)
    ensures Print(j) == Print(k) <==> j == k
  {
    ParseAfterPrint(upper, j);
    ParseAfterPrint(upper, k);
  }

  /** The binary form round-trips for every key but the zero one, which is written as
      nothing and then refused. */
  lemma BinaryRoundTripExactlyWhen(k: Key)
    ensures FromBinary(ToBinary(k)) == Ok(k) <==> k != ZERO_KEY
    ensures k == ZERO_KEY ==> FromBinary(ToBinary(k)) == Err(InvalidLength(0))
  {
  }

  // ------------------------------------------------------------------ the receiver

  /** What a database hands to Scan. */
  datatype Value = Null | Text(text: seq<Byte>) | Blob(data: seq<Byte>) | Other

  /** A key variable.  Unmarshalling writes through it, and only on success. */
  class KeyVar {
    var k: Key

    constructor (k: Key)
      ensures this.k == k
    {
      this.k := k;
    }

    method UnmarshalBinary(data: seq<Byte>) returns (error: Option<KeyError>)
      modifies this
      ensures error.None? <==> |data| == 5
      ensures error.None? ==> k == data
      ensures error.Some? ==> k == old(k) && error.value == InvalidLength(|data|)
    {
      if |data| != 5 {
        return Some(InvalidLength(|data|));
      }
      k := data;
      return None;
    }

    method UnmarshalText(upper: UpperTable, text: seq<Byte>) returns (error: Option<KeyError>)
      modifies this
      ensures error.None? <==> WellFormed(text)
      ensures Parse(upper, text) == if error.None? then Ok(k) else Err(error.value)
      ensures error.None? ==> Print(k) == Canonical(text)
      ensures error.Some? ==> k == old(k)
    {
      AcceptedExactlyWhen(upper, text);
      if Parse(upper, text).Ok? { PrintAfterParse(upper, text); }
      if |text| == 9 {
        if text[4] != DASH {
          return Some(InvalidFormat);
        }
      } else if |text| != 8 {
        return Some(InvalidLength(|text|));
      }
      var decoded := Decode(Normalise(upper, text));
      if decoded.None? {
        return Some(CorruptInput);
      }
      error := UnmarshalBinary(decoded.value);
    }

    /** Reading a column: what Value wrote comes back, and null leaves the key alone. */
    method Scan(upper: UpperTable, value: Value) returns (error: Option<KeyError>)
      modifies this
      ensures error.Some? || value.Null? ==> k == old(k)
      ensures error.None? <==> value.Null? || (value.Text? && WellFormed(value.text)) || (value.Blob? && |value.data| == 5)
      ensures forall stored :: value == Text(Print(stored)) ==> error.None? && k == stored
      ensures value.Blob? && error.None? ==> k == value.data
    {
      match value {
        case Null => error := None;
        case Text(text) =>
          error := UnmarshalText(upper, text);
          forall stored | text == Print(stored) ensures error.None? && k == stored {
            ParseAfterPrint(upper, stored);
          }
        case Blob(data) => error := UnmarshalBinary(data);
        case Other => error := Some(UnsupportedType);
      }
    }
  }
}
