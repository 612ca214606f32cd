/** The strings under which a port's settings are saved, and the numbers they hold. */
module PortKeys {
  import opened Sequences
  import opened Universes

  // ---------- decimal numbers ----------

  function Digit(d: nat): (c: char)
    requires d < 10
    ensures '0' <= c <= '9' && c as int == 48 + d
  {
    (48 + d) as char
  }

  predicate IsDigit(c: char) {
    '0' <= c <= '9'
  }

  /** The decimal digits of `n`, as IntToString prints them. */
  function Dec(n: nat): (s: string)
    ensures s != "" && forall i :: 0 <= i < |s| ==> IsDigit(s[i])
  {
    if n < 10 then [Digit(n)] else Dec(n / 10) + [Digit(n % 10)]
  }

  /** The value of a string of digits. */
  function Value(s: string): nat
    requires forall i :: 0 <= i < |s| ==> IsDigit(s[i])
  {
    if s == "" then 0
    else
      assert IsDigit(s[|s| - 1]);
      10 * Value(s[..|s| - 1]) + (s[|s| - 1] as int - 48)
  }

  lemma {:induction false} ValueOfDec(n: nat)
    ensures Value(Dec(n)) == n
  {
    if n < 10 {
      assert [Digit(n)][..0] == "";
    } else {
      ValueOfDec(n / 10);
      assert Dec(n)[..|Dec(n)| - 1] == Dec(n / 10);
    }
  }

  predicate CSpace(c: char) {
    c == ' ' || 9 <= c as int <= 13
  }

  function SkipSpace(s: string): string {
    if s != "" && CSpace(s[0]) then SkipSpace(s[1..]) else s
  }

  /** The digits a string starts with. */
  function LeadingDigits(s: string): (r: string)
    ensures r <= s && forall i :: 0 <= i < |r| ==> IsDigit(r[i])
    ensures |r| < |s| ==> !IsDigit(s[|r|])
  {
    if s == "" || !IsDigit(s[0]) then "" else [s[0]] + LeadingDigits(s[1..])
  }

  /** What `strtol` makes of a string, before the width of its result is taken into account; None if there is no number. */
  function Number(s: string): Option<int> {
    var t := SkipSpace(s);
    var digits := LeadingDigits(if t != "" && t[0] in {'+', '-'} then t[1..] else t);
    if digits == "" then None else if t[0] == '-' then Some(0 - Value(digits)) else Some(Value(digits))
  }

  /** A printed number is read back, whatever its size. */
  lemma NumberOfDec(n: nat)
    ensures Number(Dec(n)) == Some(n)
  {
    var s := Dec(n);
    assert IsDigit(s[0]);
    AllDigits(s);
    ValueOfDec(n);
  }

  lemma {:induction false} AllDigits(s: string)
    requires forall i :: 0 <= i < |s| ==> IsDigit(s[i])
    ensures LeadingDigits(s) == s
  {
    if s != "" {
      AllDigits(s[1..]);
    }
  }

  ghost predicate White(c: char) {
    c as int in {9, 10, 11, 12, 13, 32}
  }

  /** White space, a sign or none, and then no digit: there is no number. */
  lemma NoNumber(space: string, sign: string, rest: string)
    requires (forall i :: 0 <= i < |space| ==> White(space[i])) && sign in {"", "+", "-"}
    requires rest == "" || rest[0] !in "0123456789"
    requires sign == "" && rest != "" ==> !White(rest[0]) && rest[0] != '+' && rest[0] != '-'
    ensures Number(space + sign + rest) == None
  {
    hide SkipSpace;
    hide LeadingDigits;
    hide Number;
    assert space + sign + rest == space + (sign + rest);
    SkipSpaces(space, sign + rest);
    DigitsEnd("", rest);
    assert "" + rest == rest;
    NumberAfter(space + sign + rest, sign, rest);
  }

  /** White space, a sign or none, and digits, leading zeros among them: a number, whatever comes after it. */
  lemma NumberInText(space: string, sign: string, zeros: nat, n: nat, rest: string)
    requires (forall i :: 0 <= i < |space| ==> White(space[i])) && sign in {"", "+", "-"}
    requires rest == "" || rest[0] !in "0123456789"
    ensures Number(space + sign + Zeros(zeros) + Dec(n) + rest) == Some(if sign == "-" then 0 - n else n)
  {
    hide Value;
    hide Dec;
    hide SkipSpace;
    hide LeadingDigits;
    hide Number;
    var digits := Zeros(zeros) + Dec(n);
    var s := space + sign + Zeros(zeros) + Dec(n) + rest;
    assert s == space + (sign + (digits + rest));
    assert IsDigit((digits + rest)[0]);
    SkipSpaces(space, sign + (digits + rest));
    DigitsEnd(digits, rest);
    ZerosDoNotCount(zeros, n);
    NumberAfter(s, sign, digits + rest);
  }

  lemma NumberAfter(s: string, sign: string, after: string)
    requires SkipSpace(s) == sign + after && sign in {"", "+", "-"}
    requires sign == "" && after != "" ==> after[0] != '+' && after[0] != '-'
    ensures var digits := LeadingDigits(after);
            Number(s) == if digits == "" then None else Some(if sign == "-" then 0 - Value(digits) else Value(digits))
  {
    hide SkipSpace;
    hide LeadingDigits;
    hide Value;
    var t := sign + after;
    if sign == "" {
      assert t == after;
    } else {
      assert t[0] == sign[0] && t[1..] == after;
    }
  }

  function Zeros(k: nat): (s: string)
    ensures |s| == k && forall i :: 0 <= i < k ==> s[i] == '0'
  {
    seq(k, i => '0')
  }

  lemma {:induction false} SkipSpaces(space: string, t: string)
    requires (forall i :: 0 <= i < |space| ==> White(space[i])) && (t == "" || !White(t[0]))
    ensures SkipSpace(space + t) == t
  {
    if space == "" {
      assert space + t == t;
    } else {
      assert (space + t)[0] == space[0] && (space + t)[1..] == space[1..] + t;
      SkipSpaces(space[1..], t);
    }
  }

  lemma {:induction false} DigitsEnd(digits: string, rest: string)
    requires forall i :: 0 <= i < |digits| ==> IsDigit(digits[i])
    requires rest == "" || rest[0] !in "0123456789"
    ensures LeadingDigits(digits + rest) == digits
  {
    if digits == "" {
      assert digits + rest == rest;
      if rest != "" && IsDigit(rest[0]) {
        DigitIsOneOfTen(rest[0]);
        assert false;
      }
    } else {
      assert (digits + rest)[1..] == digits[1..] + rest;
      DigitsEnd(digits[1..], rest);
    }
  }

  lemma DigitIsOneOfTen(c: char)
    requires IsDigit(c)
    ensures c in "0123456789"
  {
    assert "0123456789"[c as int - 48] == c;
  }

  lemma {:induction false} ZerosDoNotCount(k: nat, n: nat)
    ensures Value(Zeros(k) + Dec(n)) == n
    decreases n
  {
    var s, front := Zeros(k) + Dec(n), if n < 10 then "" else Dec(n / 10);
    assert s[..|s| - 1] == Zeros(k) + front;
    if n < 10 {
      OnlyZeros(k);
    } else {
      ZerosDoNotCount(k, n / 10);
    }
  }

  lemma {:induction false} OnlyZeros(k: nat)
    ensures Value(Zeros(k) + "") == 0
  {
    if k > 0 {
      var s := Zeros(k) + "";
      assert s[..|s| - 1] == Zeros(k - 1) + "";
      OnlyZeros(k - 1);
    }
  }

  /** A number is printed without leading zeros. */
  lemma {:induction false} NoLeadingZero(n: nat)
    ensures Dec(n)[0] == '0' ==> n == 0 && Dec(n) == "0"
  {
    if n >= 10 {
      NoLeadingZero(n / 10);
    }
  }

  const INT32: int := 0x8000_0000
  const LONG: int := 0x8000_0000_0000_0000

  /** The low 32 bits as a signed number. */
  function ToInt32(n: int): (r: int)
    ensures 0 <= n < INT32 ==> r == n
    ensures INT32 <= n < 2 * INT32 ==> r < 0
    ensures -INT32 <= r < INT32
  {
    (n + INT32) % (2 * INT32) - INT32
  }

  /**
   * The universe a saved patching names: the `long` that `strtol` gives, cut to an `int`. A string that holds no number
   * names universe 0; a number outside `long`, or one that is negative as an `int`, names none.
   */
  function SavedUniverse(s: string): (r: Option<nat>)
    ensures r.Some? ==> r.value < INT32
  {
    if s == "" then None
    else match Number(s)
      case None => Some(0)
      case Some(n) => if -LONG <= n < LONG && ToInt32(n) >= 0 then Some(ToInt32(n)) else None
  }

  /** Exactly the ids below 2^31 survive being saved. */
  lemma UniverseSurvives(id: UniverseId)
    ensures SavedUniverse(Dec(id)) == if id < INT32 then Some(id) else None
  {
    NumberOfDec(id);
    hide Number;
    hide Dec;
    hide ToInt32;
  }

  /**
   * What names a universe: an empty text none, one without a number universe 0, and a number in the range of `long` the
   * universe given by its low 32 bits, unless these are a negative `int`.
   */
  lemma SavedUniverseOf(s: string, q: int, low: nat)
    requires low < 0x1_0000_0000
    ensures SavedUniverse("") == None
    ensures s != "" && Number(s) == None ==> SavedUniverse(s) == Some(0)
    ensures s != "" && Number(s) == Some(0x1_0000_0000 * q + low) ==>
              SavedUniverse(s) == if -0x8000_0000 <= q < 0x8000_0000 && low < 0x8000_0000 then Some(low) else None
  {
    hide Number;
  }

  /** What is read as an 8-bit number. */
  lemma SavedByteOf(s: string)
    ensures SavedByte(s) == None <==> Number(s) == None || Number(s).value < 0 || Number(s).value > 255
    ensures SavedByte(s).Some? ==> Number(s) == Some(SavedByte(s).value)
  {
  }

  /** A saved 8-bit number: StringToInt to `uint8_t` fails without digits and out of range. */
  function SavedByte(s: string): Option<nat> {
    match Number(s)
    case None => None
    case Some(n) => if 0 <= n <= 255 then Some(n) else None
  }

  lemma ByteSurvives(n: nat)
    requires n <= 255
    ensures SavedByte(Dec(n)) == Some(n)
  {
    NumberOfDec(n);
  }

  // ---------- keys ----------

  datatype Suffix = NoSuffix | PriorityValue | PriorityMode

  function SuffixText(suffix: Suffix): string {
    match suffix
    case NoSuffix => ""
    case PriorityValue => "_priority_value"
    case PriorityMode => "_priority_mode"
  }

  function DirectionText(direction: Direction): string {
    if direction.Input? then "-I-" else "-O-"
  }

  /** The key of a port's setting. */
  function Key(device: string, direction: Direction, port: nat, suffix: Suffix): string {
    device + DirectionText(direction) + Dec(port) + SuffixText(suffix)
  }

  /** How many digits a string ends with. */
  function TrailingDigits(s: string): nat {
    if s == "" || !IsDigit(s[|s| - 1]) then 0 else 1 + TrailingDigits(s[..|s| - 1])
  }

  lemma {:induction false} DigitsAfterDash(front: string, digits: string)
    requires front != "" && !IsDigit(front[|front| - 1])
    requires forall i :: 0 <= i < |digits| ==> IsDigit(digits[i])
    ensures TrailingDigits(front + digits) == |digits|
    decreases |digits|
  {
    if digits == "" {
      assert front + digits == front;
    } else {
      assert (front + digits)[..|front + digits| - 1] == front + digits[..|digits| - 1];
      DigitsAfterDash(front, digits[..|digits| - 1]);
    }
  }

  /** A key ends differently for each suffix, so the suffix can be told from it. */
  lemma SuffixIsVisible(a: string, b: string, s: Suffix, t: Suffix)
    requires a != "" && IsDigit(a[|a| - 1]) && b != "" && IsDigit(b[|b| - 1])
    requires a + SuffixText(s) == b + SuffixText(t)
    ensures s == t && a == b
  {
    var k := a + SuffixText(s);
    assert s.NoSuffix? <==> IsDigit(k[|k| - 1]);
    assert t.NoSuffix? <==> IsDigit(k[|k| - 1]);
    assert !s.NoSuffix? ==> (s.PriorityValue? <==> k[|k| - 2] == 'u');
    assert !t.NoSuffix? ==> (t.PriorityValue? <==> k[|k| - 2] == 'u');
    assert a == k[..|k| - |SuffixText(s)|] && b == k[..|k| - |SuffixText(t)|];
  }

  /**
   * Keys never collide: not between devices, directions, ports or settings, whatever the devices are called.
   */
  lemma KeysAreDistinct(d: string, x: Direction, m: nat, s: Suffix, e: string, y: Direction, n: nat, t: Suffix)
    ensures Key(d, x, m, s) == Key(e, y, n, t) <==> d == e && x == y && m == n && s == t
  {
    hide Dec;
    hide Value;
    hide TrailingDigits;
    if Key(d, x, m, s) == Key(e, y, n, t) {
      var f, g := d + DirectionText(x), e + DirectionText(y);
      SuffixIsVisible(f + Dec(m), g + Dec(n), s, t);
      var k := f + Dec(m);
      DigitsAfterDash(f, Dec(m));
      DigitsAfterDash(g, Dec(n));
      assert f == k[..|k| - TrailingDigits(k)] && Dec(m) == k[|k| - TrailingDigits(k)..];
      assert g == k[..|k| - TrailingDigits(k)] && Dec(n) == k[|k| - TrailingDigits(k)..];
      ValueOfDec(m);
      ValueOfDec(n);
      assert f[|f| - 2] == DirectionText(x)[1] && g[|g| - 2] == DirectionText(y)[1];
      assert d == f[..|f| - 3] && e == g[..|g| - 3];
    }
  }

  /** The keys as the preferences file shows them. */
  lemma KeyTexts(device: string, port: nat)
    ensures Key(device, Input, port, NoSuffix) == device + "-I-" + Dec(port)
    ensures Key(device, Output, port, NoSuffix) == device + "-O-" + Dec(port)
    ensures Key(device, Input, port, PriorityValue) == device + "-I-" + Dec(port) + "_priority_value"
    ensures Key(device, Output, port, PriorityValue) == device + "-O-" + Dec(port) + "_priority_value"
    ensures Key(device, Input, port, PriorityMode) == device + "-I-" + Dec(port) + "_priority_mode"
    ensures Key(device, Output, port, PriorityMode) == device + "-O-" + Dec(port) + "_priority_mode"
  {
    var input, output := device + "-I-" + Dec(port), device + "-O-" + Dec(port);
    assert input + "" == input && output + "" == output;
  }
}
