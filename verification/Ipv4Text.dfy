// Textual IPv4 addresses in the inet_aton style: one to four parts, each decimal, hexadecimal or octal
// (crates/gate-server/src/connect_proxy.rs).

module Ipv4Text {
  import opened Common
  import opened Text
  import opened Residues

  const U32: nat := 0x1_0000_0000

  // ---- numbers ----

  function DigitOf(c: char, base: nat): Option<nat> {
    var d :=
      if '0' <= c <= '9' then c as nat - '0' as nat
      else if 'a' <= c <= 'z' then c as nat - 'a' as nat + 10
      else if 'A' <= c <= 'Z' then c as nat - 'A' as nat + 10
      else base;
    if d < base then Some(d) else None
  }

  function Value(s: string, base: nat): Option<nat> {
    if s == [] then Some(0)
    else Append(Value(s[..|s| - 1], base), DigitOf(s[|s| - 1], base), base)
  }

  function Append(v: Option<nat>, d: Option<nat>, base: nat): Option<nat> {
    if v.Some? && d.Some? then Some(v.value * base + d.value) else None
  }

  /** The number a digit text denotes, whatever its size; one leading plus sign is allowed. */
  function Radix(s: string, base: nat): Option<nat> {
    var body := if |s| > 1 && s[0] == '+' then s[1..] else s;
    if body == [] then None else Value(body, base)
  }

  /** The number a part denotes, whatever its size. */
  function NumberOf(p: string): Option<nat> {
    if p == [] then None
    else if StartsWith(p, "0x") || StartsWith(p, "0X") then
      if |p| == 2 then None else Radix(p[2..], 16)
    else if |p| > 1 && p[0] == '0' then Radix(p[1..], 8)
    else Radix(p, 10)
  }

  function ParseU32Auto(p: string): Option<nat> {
    var r := NumberOf(p);
    if r.Some? && r.value < U32 then r else None
  }

  // ---- what a part may look like ----

  function DigitChar(d: nat): char
    requires d < 16
  {
    if d < 10 then ('0' as nat + d) as char else ('a' as nat + d - 10) as char
  }

  function Digits(v: nat, base: nat): string
    requires 2 <= base <= 16
  {
    if v < base then [DigitChar(v)] else Digits(v / base, base) + [DigitChar(v % base)]
  }

  function Zeros(k: nat): string { if k == 0 then [] else Zeros(k - 1) + ['0'] }

  function Sign(plus: bool): string { if plus then "+" else "" }

  datatype Notation = Decimal | Hexadecimal | Octal {
    function Base(): nat { match this case Decimal => 10 case Hexadecimal => 16 case Octal => 8 }
    function Prefix(): string { match this case Decimal => "" case Hexadecimal => "0x" case Octal => "0" }
  }

  predicate Written(p: string, v: nat, n: Notation, plus: bool, zeros: nat) {
    Lower(p) == n.Prefix() + (Sign(plus) + (Zeros(zeros) + Digits(v, n.Base())))
    && (n.Decimal? && !plus ==> zeros == 0)
  }

  /**
   * The part is, letter case aside, a prefix, perhaps a plus sign, padding zeros and the digits of the
   * number; an unsigned decimal has no padding, because a leading zero means octal.
   */
  ghost predicate Denotes(p: string, v: nat) {
    exists n, plus, zeros: nat :: Written(p, v, n, plus, zeros)
  }

  lemma LowerDigit(c: char, base: nat)
    requires base <= 16
    ensures DigitOf(LowerChar(c), base) == DigitOf(c, base)
    ensures base >= 2 && DigitOf(c, base).Some? ==> LowerChar(c) == DigitChar(DigitOf(c, base).value)
  {
  }

  lemma LowerSlices(s: string, i: nat)
    requires i <= |s|
    ensures Lower(s[..i]) == Lower(s)[..i] && Lower(s[i..]) == Lower(s)[i..]
  {
  }

  lemma {:induction false} LowerValue(s: string, base: nat)
    requires base <= 16
    ensures Value(Lower(s), base) == Value(s, base)
  {
    if s != [] {
      LowerValue(s[..|s| - 1], base);
      LowerSlices(s, |s| - 1);
      LowerDigit(s[|s| - 1], base);
    }
  }

  lemma ValueSnoc(s: string, c: char, base: nat)
    ensures Value(s + [c], base) == Append(Value(s, base), DigitOf(c, base), base)
  {
    assert (s + [c])[..|s|] == s;
  }

  lemma {:induction false} ZerosValue(k: nat, base: nat)
    requires 2 <= base
    ensures Value(Zeros(k), base) == Some(0) && |Zeros(k)| == k
    ensures forall c :: c in Zeros(k) ==> c == '0'
  {
    if k > 0 {
      ZerosValue(k - 1, base);
      ValueSnoc(Zeros(k - 1), '0', base);
    }
  }

  /** Reading back padded digits gives the number. */
  lemma {:induction false} PaddedValue(k: nat, v: nat, base: nat)
    requires 2 <= base <= 16
    ensures Value(Zeros(k) + Digits(v, base), base) == Some(v)
    decreases v
  {
    if v < base {
      ZerosValue(k, base);
      DigitRead(Zeros(k), 0, v, base);
    } else {
      var q, d := LastDigit(v, base);
      PaddedValue(k, q, base);
      DigitRead(Zeros(k) + Digits(q, base), q, d, base);
      assert Zeros(k) + Digits(v, base) == Zeros(k) + Digits(q, base) + [DigitChar(d)];
    }
  }

  lemma LastDigit(v: nat, base: nat) returns (q: nat, d: nat)
    requires 2 <= base <= 16 && v >= base
    ensures q < v && d < base && v == q * base + d && Digits(v, base) == Digits(q, base) + [DigitChar(d)]
  {
    q, d := v / base, v % base;
  }

  lemma DigitRead(s: string, q: nat, d: nat, base: nat)
    requires 2 <= base <= 16 && d < base && Value(s, base) == Some(q)
    ensures Value(s + [DigitChar(d)], base) == Some(q * base + d)
  {
    ValueSnoc(s, DigitChar(d), base);
  }

  /** Every non-empty digit text is padded digits of its value. */
  lemma {:induction false} ValuePadded(s: string, base: nat) returns (k: nat)
    requires 2 <= base <= 16 && s != [] && Value(s, base).Some?
    ensures Lower(s) == Zeros(k) + Digits(Value(s, base).value, base)
  {
    var init, c := s[..|s| - 1], s[|s| - 1];
    var d := DigitOf(c, base).value;
    LowerSlices(s, |s| - 1);
    LowerDigit(c, base);
    assert Lower(s) == Lower(init) + [DigitChar(d)];
    if init == [] {
      k := 0;
    } else {
      k := ValuePadded(init, base);
      k := PaddedSnoc(k, Value(init, base).value, d, base);
    }
  }

  lemma PaddedSnoc(k: nat, v: nat, d: nat, base: nat) returns (k': nat)
    requires 2 <= base <= 16 && d < base
    ensures Zeros(k) + Digits(v, base) + [DigitChar(d)] == Zeros(k') + Digits(v * base + d, base)
  {
    if v == 0 {
      k' := k + 1;
      assert 0 * base == 0;
    } else {
      k' := k;
      SnocDigits(v, d, base);
    }
  }

  lemma SnocDigits(v: nat, d: nat, base: nat)
    requires 2 <= base <= 16 && d < base && v > 0
    ensures Digits(v * base + d, base) == Digits(v, base) + [DigitChar(d)]
  {
    assert v * base >= base;
    assert (v * base + d) / base == v && (v * base + d) % base == d;
  }

  lemma {:induction false} DigitsShape(v: nat, base: nat)
    requires 2 <= base <= 16
    ensures Digits(v, base) != [] && (Digits(v, base)[0] == '0' <==> v == 0)
    ensures v == 0 ==> |Digits(v, base)| == 1
    ensures DigitOf(Digits(v, base)[0], base).Some?
  {
    if v >= base {
      DigitsShape(v / base, base);
    }
  }

  lemma RadixWritten(s: string, base: nat) returns (plus: bool, k: nat)
    requires 2 <= base <= 16 && Radix(s, base).Some?
    ensures Lower(s) == Sign(plus) + (Zeros(k) + Digits(Radix(s, base).value, base))
    ensures !plus && k > 0 ==> |s| > 1 && s[0] == '0'
  {
    plus := |s| > 1 && s[0] == '+';
    var body := if plus then s[1..] else s;
    k := ValuePadded(body, base);
    ZerosValue(k, base);
    DigitsShape(Radix(s, base).value, base);
    LowerSlices(s, 1);
    if plus {
      assert Lower(s) == [Lower(s)[0]] + Lower(body);
    } else if k > 0 {
      assert Zeros(k)[0] in Zeros(k);
      assert Lower(s)[0] == '0';
    }
  }

  lemma WrittenRadix(s: string, base: nat, v: nat, plus: bool, k: nat)
    requires 2 <= base <= 16 && Lower(s) == Sign(plus) + (Zeros(k) + Digits(v, base))
    ensures Radix(s, base) == Some(v)
    ensures if plus then s[0] == '+' else s != [] && DigitOf(s[0], base).Some?
    ensures !plus && k == 0 && |s| > 1 ==> s[0] != '0'
  {
    var text := Zeros(k) + Digits(v, base);
    PaddedStart(k, v, base);
    if plus {
      LowerSlices(s, 1);
      assert Lower(s)[0] == '+' && Lower(s[1..]) == text;
      PaddedRead(s[1..], k, v, base);
    } else {
      assert Lower(s) == text;
      PaddedRead(s, k, v, base);
    }
  }

  lemma PaddedStart(k: nat, v: nat, base: nat)
    requires 2 <= base <= 16
    ensures var text := Zeros(k) + Digits(v, base);
      text != [] && DigitOf(text[0], base).Some? && (k == 0 && |text| > 1 ==> text[0] != '0')
  {
    ZerosValue(k, base);
    DigitsShape(v, base);
    if k > 0 {
      assert Zeros(k)[0] in Zeros(k);
    }
  }

  lemma PaddedRead(s: string, k: nat, v: nat, base: nat)
    requires 2 <= base <= 16 && Lower(s) == Zeros(k) + Digits(v, base)
    ensures s != [] && Value(s, base) == Some(v)
    ensures LowerChar(s[0]) == Lower(s)[0] && DigitOf(s[0], base) == DigitOf(Lower(s)[0], base)
  {
    PaddedValue(k, v, base);
    LowerValue(s, base);
    DigitsShape(v, base);
    LowerDigit(s[0], base);
  }

  /**
   * A part is read as v if and only if it denotes v, in one of the three notations; the 32-bit reading
   * refuses exactly the values that do not fit.
   */
  lemma NumberIffDenotes(p: string, v: nat)
    ensures NumberOf(p) == Some(v) <==> Denotes(p, v)
    ensures ParseU32Auto(p) == Some(v) <==> Denotes(p, v) && v <= 4294967295
  {
    if NumberOf(p) == Some(v) {
      NumberWritten(p, v);
    }
    if Denotes(p, v) {
      var n, plus, zeros: nat :| Written(p, v, n, plus, zeros);
      WrittenNumber(p, v, n, plus, zeros);
    }
  }

  lemma NumberWritten(p: string, v: nat)
    requires NumberOf(p) == Some(v)
    ensures Denotes(p, v)
  {
    var n :=
      if StartsWith(p, "0x") || StartsWith(p, "0X") then Hexadecimal
      else if |p| > 1 && p[0] == '0' then Octal
      else Decimal;
    var cut := |n.Prefix()|;
    var plus, k := RadixWritten(p[cut..], n.Base());
    LowerSlices(p, cut);
    assert Lower(p)[..cut] == n.Prefix();
    assert Lower(p) == n.Prefix() + Lower(p)[cut..];
    assert Written(p, v, n, plus, k);
  }

  lemma WrittenNumber(p: string, v: nat, n: Notation, plus: bool, k: nat)
    requires Written(p, v, n, plus, k)
    ensures NumberOf(p) == Some(v)
  {
    var cut := |n.Prefix()|;
    var text := Sign(plus) + (Zeros(k) + Digits(v, n.Base()));
    assert Lower(p)[..cut] == n.Prefix() && Lower(p)[cut..] == text;
    LowerSlices(p, cut);
    WrittenRadix(p[cut..], n.Base(), v, plus, k);
    match n {
      case Hexadecimal =>
        assert p[0] == LowerChar(p[0]) == '0' by { assert Lower(p)[0] == '0'; }
        assert LowerChar(p[1]) == 'x' by { assert Lower(p)[1] == 'x'; }
        assert p[..2] == "0x" || p[..2] == "0X";
      case Octal =>
        assert p[0] == '0' by { assert Lower(p)[0] == '0'; }
        assert p[1] == p[cut..][0];
      case Decimal =>
        assert p[cut..] == p;
    }
  }

  // ---- addresses ----

  /** The n fields of an address: one byte each, the last one all the remaining bits. */
  function Field(a: nat, n: nat, i: nat): nat
    requires i < n <= 4
  {
    if i < n - 1 then Octet(a, i) else a % LastSpace(n)
  }

  function Octet(a: nat, i: nat): nat
    requires i < 4
  {
    match i case 0 => a / 0x100_0000 case 1 => a / 0x1_0000 % 256 case 2 => a / 256 % 256 case _ => a % 256
  }

  function LastSpace(n: nat): (r: nat)
    requires 1 <= n <= 4
    ensures r > 0
  {
    match n case 1 => U32 case 2 => 0x100_0000 case 3 => 0x1_0000 case _ => 256
  }

  /** The text is a spelling of the address: each part denotes its field. */
  ghost predicate Spells(s: string, a: nat) {
    var parts := Split(s, '.');
    |parts| <= 4 && a < U32 &&
    forall i :: 0 <= i < |parts| ==> Denotes(parts[i], Field(a, |parts|, i))
  }

  /** The numbers of the parts, if every one is a 32-bit number. */
  function ParseParts(parts: seq<string>): (r: Option<seq<nat>>)
    ensures r.Some? <==> forall i :: 0 <= i < |parts| ==> ParseU32Auto(parts[i]).Some?
    ensures r.Some? ==> |r.value| == |parts| && forall i :: 0 <= i < |parts| ==> ParseU32Auto(parts[i]) == Some(r.value[i])
  {
    if parts == [] then Some([])
    else
      var first, rest := ParseU32Auto(parts[0]), ParseParts(parts[1..]);
      if first.Some? && rest.Some? then Some([first.value] + rest.value) else None
  }

  /** The bytes of the first i parts, as the accumulator holds them. */
  function Shifted(nums: seq<nat>, i: nat): nat
    requires i <= |nums|
  {
    if i == 0 then 0 else Shifted(nums, i - 1) * 256 + nums[i - 1]
  }

  predicate InRange(nums: seq<nat>, i: nat)
    requires i <= |nums| <= 4
  {
    forall j :: 0 <= j < i ==> FieldFits(nums, j)
  }

  predicate FieldFits(nums: seq<nat>, j: nat)
    requires j < |nums| <= 4
  {
    nums[j] < if j < |nums| - 1 then 256 else LastSpace(|nums|)
  }

  function Assembled(nums: seq<nat>): nat
    requires 1 <= |nums| <= 4
  {
    var last := |nums| - 1;
    Shifted(nums, last) * LastSpace(|nums|) + nums[last]
  }

  function Fields(a: nat, n: nat): seq<nat>
    requires 1 <= n <= 4
  {
    seq(n, i requires 0 <= i < n => Field(a, n, i))
  }

  lemma ShiftedBytes(nums: seq<nat>)
    requires 1 <= |nums| <= 4
    ensures Shifted(nums, 0) == 0 && Shifted(nums, 1) == nums[0]
    ensures |nums| >= 2 ==> Shifted(nums, 2) == nums[0] * 256 + nums[1]
    ensures |nums| >= 3 ==> Shifted(nums, 3) == (nums[0] * 256 + nums[1]) * 256 + nums[2]
  {
    assert Shifted(nums, 1) == Shifted(nums, 0) * 256 + nums[0];
    assert |nums| >= 2 ==> Shifted(nums, 2) == Shifted(nums, 1) * 256 + nums[1];
    assert |nums| >= 3 ==> Shifted(nums, 3) == Shifted(nums, 2) * 256 + nums[2];
  }

  /** The accumulator never loses a bit: i bytes fit in i bytes. */
  lemma ShiftedFits(nums: seq<nat>, i: nat)
    requires |nums| <= 4 && i < |nums| && InRange(nums, i)
    ensures Shifted(nums, i) * LastSpace(|nums|) + LastSpace(|nums|) <= U32 || i < |nums| - 1
    ensures Shifted(nums, i) < 0x100_0000
  {
    ShiftedBytes(nums);
    assert i > 0 ==> FieldFits(nums, 0);
    assert i > 1 ==> FieldFits(nums, 1);
    assert i > 2 ==> FieldFits(nums, 2);
  }

  lemma Quotient(v: nat, m: nat, q: nat, r: nat)
    requires r < m && v == q * m + r
    ensures v / m == q && v % m == r
  {
    ModOfShift(r, q, m);
    assert (v / m - q) * m == 0;
  }

  /** Bytes are recovered from the word they make up. */
  lemma WordOctets(a: nat, b: nat, c: nat, d: nat)
    requires a < 256 && b < 256 && c < 256 && d < 256
    ensures var v := a * 0x100_0000 + b * 0x1_0000 + c * 256 + d;
      v < U32 && Octet(v, 0) == a && Octet(v, 1) == b && Octet(v, 2) == c && Octet(v, 3) == d
      && v % 0x1_0000 == c * 256 + d && v % 0x100_0000 == b * 0x1_0000 + c * 256 + d
  {
    var v := a * 0x100_0000 + b * 0x1_0000 + c * 256 + d;
    Quotient(v, 0x100_0000, a, b * 0x1_0000 + c * 256 + d);
    Quotient(v, 0x1_0000, a * 256 + b, c * 256 + d);
    Quotient(v, 256, a * 0x1_0000 + b * 256 + c, d);
    Quotient(v / 0x1_0000, 256, a, b);
    Quotient(v / 256, 256, a * 256 + b, c);
  }

  /** Every word is made up of four bytes. */
  lemma WordOf(v: nat) returns (a: nat, b: nat, c: nat, d: nat)
    requires v < U32
    ensures a < 256 && b < 256 && c < 256 && d < 256
    ensures v == a * 0x100_0000 + b * 0x1_0000 + c * 256 + d
  {
    var x, y := v / 256, v / 256 / 256;
    a, b, c, d := y / 256, y % 256, x % 256, v % 256;
    assert v == x * 256 + d && x == y * 256 + c && y == a * 256 + b;
  }

  /** Parts in range assemble to an address with those fields. */
  lemma AssembledFields(nums: seq<nat>)
    requires 1 <= |nums| <= 4 && InRange(nums, |nums|)
    ensures Assembled(nums) < U32 && Fields(Assembled(nums), |nums|) == nums
  {
    var n, last := |nums|, nums[|nums| - 1];
    ShiftedBytes(nums);
    assert FieldFits(nums, n - 1) && FieldFits(nums, 0);
    var a, b, c, d := WordOf(last);
    if n == 1 {
      WordFields(a, b, c, d);
    } else if n == 2 {
      WordFields(nums[0], b, c, d);
    } else {
      assert FieldFits(nums, 1);
      if n == 3 {
        WordFields(nums[0], nums[1], c, d);
      } else {
        assert FieldFits(nums, 2);
        WordFields(nums[0], nums[1], nums[2], d);
      }
    }
  }

  lemma WordFields(a: nat, b: nat, c: nat, d: nat)
    requires a < 256 && b < 256 && c < 256 && d < 256
    ensures var v := a * 0x100_0000 + b * 0x1_0000 + c * 256 + d;
      v < U32
      && Fields(v, 1) == [v]
      && Fields(v, 2) == [a, b * 0x1_0000 + c * 256 + d]
      && Fields(v, 3) == [a, b, c * 256 + d]
      && Fields(v, 4) == [a, b, c, d]
  {
    WordOctets(a, b, c, d);
  }

  /** Every address is assembled from its fields, which are in range. */
  lemma FieldsAssemble(v: nat, n: nat)
    requires 1 <= n <= 4 && v < U32
    ensures InRange(Fields(v, n), n) && Assembled(Fields(v, n)) == v
  {
    var a, b, c, d := WordOf(v);
    WordFields(a, b, c, d);
    ShiftedBytes(Fields(v, n));
  }

  // ---- texts of addresses ----

  predicate Separator(c: char) { c == '.' || c == ':' }

  lemma {:induction false} DigitsOnly(s: string, base: nat)
    requires base <= 16 && Value(s, base).Some?
    ensures forall c :: c in s ==> !Separator(c)
  {
    if s != [] {
      DigitsOnly(s[..|s| - 1], base);
      assert s == s[..|s| - 1] + [s[|s| - 1]];
    }
  }

  lemma NoSeparators(p: string)
    requires NumberOf(p).Some?
    ensures p != [] && forall c :: c in p ==> !Separator(c)
  {
    if StartsWith(p, "0x") || StartsWith(p, "0X") {
      assert p[..2] == ['0', p[1]] && (p[1] == 'x' || p[1] == 'X') by {
        assert p[..2][0] == p[0] && p[..2][1] == p[1];
      }
      PlainAfter(p, 2, 16);
    } else if |p| > 1 && p[0] == '0' {
      PlainAfter(p, 1, 8);
    } else {
      assert p[0..] == p;
      PlainAfter(p, 0, 10);
    }
  }

  lemma PlainAfter(p: string, cut: nat, base: nat)
    requires cut <= |p| && base <= 16 && Radix(p[cut..], base).Some? && forall i :: 0 <= i < cut ==> !Separator(p[i])
    ensures forall c :: c in p ==> !Separator(c)
  {
    var text := p[cut..];
    var body := if |text| > 1 && text[0] == '+' then text[1..] else text;
    DigitsOnly(body, base);
    assert p == p[..|p| - |body|] + body;
  }

  /** The address of a spelling is unique. */
  lemma SpellsUnique(s: string, a: nat, b: nat)
    requires Spells(s, a) && Spells(s, b)
    ensures a == b
  {
    var parts := Split(s, '.');
    var n := |parts|;
    forall i | 0 <= i < n
      ensures Field(a, n, i) == Field(b, n, i)
    {
      NumberIffDenotes(parts[i], Field(a, n, i));
      NumberIffDenotes(parts[i], Field(b, n, i));
    }
    assert Fields(a, n) == Fields(b, n);
    FieldsAssemble(a, n);
    FieldsAssemble(b, n);
  }

  /** One to four parts that denote an address's fields, joined by dots, spell it. */
  lemma JoinSpells(parts: seq<string>, a: nat)
    requires 1 <= |parts| <= 4 && a < U32
    requires forall i :: 0 <= i < |parts| ==> Denotes(parts[i], Field(a, |parts|, i))
    ensures Spells(Join(parts, '.'), a)
  {
    forall i | 0 <= i < |parts|
      ensures '.' !in parts[i]
    {
      NumberIffDenotes(parts[i], Field(a, |parts|, i));
      NoSeparators(parts[i]);
      assert Separator('.');
    }
    SplitJoin(parts, '.');
  }

  /** A spelling is not empty, has no colon, and its parts are read as the fields. */
  lemma SpelledParts(s: string, a: nat)
    requires Spells(s, a)
    ensures s != [] && ':' !in s && |Split(s, '.')| <= 4
    ensures var nums := ParseParts(Split(s, '.')); nums == Some(Fields(a, |Split(s, '.')|))
  {
    var parts := Split(s, '.');
    forall i | 0 <= i < |parts|
      ensures ParseU32Auto(parts[i]) == Some(Field(a, |parts|, i)) && ':' !in parts[i] && parts[i] != []
    {
      SpelledPart(parts[i], Field(a, |parts|, i));
    }
    PartsWithoutColon(s);
    PartsRead(parts, a);
  }

  lemma PartsWithoutColon(s: string)
    requires forall i :: 0 <= i < |Split(s, '.')| ==> ':' !in Split(s, '.')[i] && Split(s, '.')[i] != []
    ensures s != [] && ':' !in s
  {
    JoinSplit(s, '.');
    JoinChars(Split(s, '.'), '.');
  }

  lemma PartsRead(parts: seq<string>, a: nat)
    requires 1 <= |parts| <= 4
    requires forall i :: 0 <= i < |parts| ==> ParseU32Auto(parts[i]) == Some(Field(a, |parts|, i))
    ensures ParseParts(parts) == Some(Fields(a, |parts|))
  {
    var nums := ParseParts(parts).value;
    assert forall i :: 0 <= i < |parts| ==> Some(nums[i]) == Some(Field(a, |parts|, i));
    assert nums == Fields(a, |parts|);
  }

  lemma SpelledPart(p: string, v: nat)
    requires Denotes(p, v) && v < U32
    ensures ParseU32Auto(p) == Some(v) && ':' !in p && p != []
  {
    NumberIffDenotes(p, v);
    NoSeparators(p);
    assert Separator(':');
  }

  lemma {:induction false} JoinChars(parts: seq<string>, sep: char)
    ensures forall c :: c in Join(parts, sep) ==> c == sep || exists i :: 0 <= i < |parts| && c in parts[i]
  {
    if |parts| > 1 {
      JoinChars(parts[1..], sep);
      forall c | c in Join(parts, sep) && c != sep && c !in parts[0]
        ensures exists i :: 0 <= i < |parts| && c in parts[i]
      {
        assert c in Join(parts[1..], sep);
        var i :| 0 <= i < |parts[1..]| && c in parts[1..][i];
        assert c in parts[i + 1];
      }
    }
  }

  /** Parts read as numbers in range spell the assembled address. */
  lemma PartsSpell(s: string, nums: seq<nat>)
    requires |Split(s, '.')| <= 4 && ParseParts(Split(s, '.')) == Some(nums) && InRange(nums, |nums|)
    ensures Spells(s, Assembled(nums))
  {
    var parts := Split(s, '.');
    AssembledFields(nums);
    forall i | 0 <= i < |parts|
      ensures Denotes(parts[i], Field(Assembled(nums), |parts|, i))
    {
      assert ParseU32Auto(parts[i]) == Some(nums[i]);
      assert Fields(Assembled(nums), |parts|)[i] == nums[i];
      NumberIffDenotes(parts[i], nums[i]);
    }
  }

  /** Some part is out of range, so the text spells nothing. */
  lemma OutOfRangeSpellsNothing(s: string, nums: seq<nat>)
    requires |Split(s, '.')| <= 4 && ParseParts(Split(s, '.')) == Some(nums) && !InRange(nums, |nums|)
    ensures forall a :: !Spells(s, a)
  {
    forall a | Spells(s, a)
      ensures false
    {
      SpelledParts(s, a);
      FieldsAssemble(a, |Split(s, '.')|);
    }
  }

  /**
   * The parser accepts exactly the spellings of 32-bit addresses and gives the address spelled. The
   * accumulator is a 32-bit word whose shifts drop the high bits.
   */
  method ParseLegacyIpv4(s: string) returns (r: Option<nat>)
    ensures r.Some? ==> Spells(s, r.value)
    ensures r.None? ==> forall a :: !Spells(s, a)
  {
    var parts := Split(s, '.');
    if s == [] || ':' in s || |parts| > 4 || ParseParts(parts).None? {
      forall a
        ensures !Spells(s, a)
      {
        if Spells(s, a) {
          SpelledParts(s, a);
        }
      }
      return None;
    }
    var nums := ParseParts(parts).value;
    r := Accumulate(nums);
    if r.Some? {
      PartsSpell(s, nums);
    } else {
      OutOfRangeSpellsNothing(s, nums);
    }
  }

  method Accumulate(nums: seq<nat>) returns (r: Option<nat>)
    requires 1 <= |nums| <= 4
    ensures r == if InRange(nums, |nums|) then Some(Assembled(nums)) else None
  {
    var last := |nums| - 1;
    var acc: nat := 0;
    for i := 0 to |nums|
      invariant InRange(nums, i)
      invariant acc == if i <= last then Shifted(nums, i) else Assembled(nums)
    {
      ShiftedFits(nums, i);
      if i == last {
        var space := LastSpace(|nums|);
        if nums[i] >= space {
          assert !FieldFits(nums, i);
          return None;
        }
        acc := (acc * space + nums[i]) % U32;
      } else {
        if nums[i] > 255 {
          assert !FieldFits(nums, i);
          return None;
        }
        acc := acc * 256 % U32 + nums[i];
      }
      assert FieldFits(nums, i);
    }
    r := Some(acc);
  }

  /** Known parts, in the three notations. */
  lemma KnownHex()
    ensures ParseU32Auto("0x7f") == Some(127) && ParseU32Auto("0X7F") == Some(127) && ParseU32Auto("0x") == None
  {
    TwoDigitsRead("7f", 16, 7, 15);
    TwoDigitsRead("7F", 16, 7, 15);
    assert "0x7f"[2..] == "7f" && "0X7F"[2..] == "7F";
  }

  lemma KnownOctal()
    ensures ParseU32Auto("0177") == Some(127) && ParseU32Auto("08") == None
  {
    ThreeDigitsRead("177", 8, 1, 7, 7);
    assert "0177"[1..] == "177";
    assert "08"[1..] == "8" && "8"[..0] == [];
    assert Value("8", 8) == None;
  }

  lemma KnownDecimal()
    ensures ParseU32Auto("127") == Some(127) && ParseU32Auto("0") == Some(0) && ParseU32Auto("+5") == Some(5) && ParseU32Auto("") == None
  {
    ThreeDigitsRead("127", 10, 1, 2, 7);
    OneDigitRead("0", 10, 0);
    OneDigitRead("5", 10, 5);
    assert "+5"[1..] == "5";
  }

  lemma OneDigitRead(s: string, base: nat, a: nat)
    requires |s| == 1 && DigitOf(s[0], base) == Some(a)
    ensures Value(s, base) == Some(a)
  {
    assert s[..0] == [];
    assert Value([], base) == Some(0);
  }

  lemma TwoDigitsRead(s: string, base: nat, a: nat, b: nat)
    requires |s| == 2 && DigitOf(s[0], base) == Some(a) && DigitOf(s[1], base) == Some(b)
    ensures Value(s, base) == Some(a * base + b)
  {
    OneDigitRead(s[..1], base, a);
  }

  lemma ThreeDigitsRead(s: string, base: nat, a: nat, b: nat, c: nat)
    requires |s| == 3 && DigitOf(s[0], base) == Some(a) && DigitOf(s[1], base) == Some(b) && DigitOf(s[2], base) == Some(c)
    ensures Value(s, base) == Some((a * base + b) * base + c)
  {
    TwoDigitsRead(s[..2], base, a, b);
  }
}
