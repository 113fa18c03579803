/** The `u16` parser used for a bare port (`s.parse::<u16>()`), following the
    grammar of Rust's `from_str_radix` for an unsigned type in radix 10: an
    optional leading `+`, then one or more ASCII decimal digits, accumulated
    left to right with checked multiplication and addition, any overflow past
    65535 being an error. The reference meaning of a digit string is the
    usual positional value, defined independently below. */
module Decimal {
  import opened Wrappers
  import opened Net

  const U16_MAX: int := 0xFFFF

  predicate IsDigit(c: char) {
    '0' <= c <= '9'
  }

  function DigitValue(c: char): nat
    requires IsDigit(c)
  {
    (c - '0') as nat
  }

  predicate AllDigits(ds: string) {
    forall i :: 0 <= i < |ds| ==> IsDigit(ds[i])
  }

  /** Positional value of a digit string, read from its last digit. */
  function Value(ds: string): nat
    requires AllDigits(ds)
  {
    if |ds| == 0 then 0 else Value(ds[..|ds| - 1]) * 10 + DigitValue(ds[|ds| - 1])
  }

  /** The digits that follow an optional leading `+`. */
  function Unsigned(s: string): string {
    if |s| > 0 && s[0] == '+' then s[1..] else s
  }

  /** The strings `u16::from_str` accepts. */
  predicate IsU16Literal(s: string) {
    var ds := Unsigned(s);
    |ds| > 0 && AllDigits(ds) && Value(ds) <= U16_MAX
  }

  /** Appending digits never lowers the value: every prefix of a digit
      string is worth at most the whole. */
  lemma {:induction false} ValuePrefixBound(ds: string, i: nat)
    requires AllDigits(ds) && i <= |ds|
    ensures AllDigits(ds[..i]) && Value(ds[..i]) <= Value(ds)
  {
    if i < |ds| {
      var init := ds[..|ds| - 1];
      assert AllDigits(init) by {
        forall k | 0 <= k < |init| ensures IsDigit(init[k]) { assert init[k] == ds[k]; }
      }
      ValuePrefixBound(init, i);
      assert init[..i] == ds[..i];
    } else {
      assert ds[..i] == ds;
    }
  }

  /** Once a prefix is past 65535 no further digits can bring the value
      back: the whole string is out of range (or not all digits). */
  lemma OverflowIsFinal(ds: string, i: nat)
    requires i <= |ds| && AllDigits(ds[..i]) && Value(ds[..i]) > U16_MAX
    ensures !(AllDigits(ds) && Value(ds) <= U16_MAX)
  {
    if AllDigits(ds) {
      ValuePrefixBound(ds, i);
    }
  }

  /** Extending a digit prefix by one digit multiplies its value by ten and
      adds that digit. */
  lemma ValueExtend(ds: string, i: nat)
    requires i < |ds| && AllDigits(ds[..i]) && IsDigit(ds[i])
    ensures AllDigits(ds[..i + 1])
    ensures Value(ds[..i + 1]) == Value(ds[..i]) * 10 + DigitValue(ds[i])
  {
    var pre := ds[..i + 1];
    forall k | 0 <= k < |pre| ensures IsDigit(pre[k]) {
      if k < i { assert pre[k] == ds[..i][k]; }
    }
    assert pre[..i] == ds[..i];
  }

  /** The left-to-right loop of `from_str_radix`, at digit `i` with running
      value `acc` (the value of the digits already read): each step
      multiplies by ten and adds the next digit, failing on a non-digit or as
      soon as the value no longer fits in 16 bits. It yields the value of the
      whole digit string exactly when that string is all digits and fits. */
  function Accumulate(ds: string, i: nat, acc: u16): (r: Option<u16>)
    requires i <= |ds| && AllDigits(ds[..i]) && acc as int == Value(ds[..i])
    ensures r.Some? <==> AllDigits(ds) && Value(ds) <= U16_MAX
    ensures r.Some? ==> r.value as int == Value(ds)
    decreases |ds| - i
  {
    if i == |ds| then
      assert ds[..i] == ds;
      Some(acc)
    else if !IsDigit(ds[i]) then
      None
    else
      var next := acc as int * 10 + DigitValue(ds[i]);
      ValueExtend(ds, i);
      if next > U16_MAX then
        OverflowIsFinal(ds, i + 1);
        None
      else
        Accumulate(ds, i + 1, next as u16)
  }

  /** `s.parse::<u16>()`: `None` stands for any `ParseIntError`. A lone sign
      and the empty string are errors; a leading `-` is not a digit. */
  function ParseU16(s: string): (r: Option<u16>)
    ensures r.Some? <==> IsU16Literal(s)
    ensures r.Some? ==> r.value as int == Value(Unsigned(s))
  {
    if |s| == 0 then None
    else if (s[0] == '+' || s[0] == '-') && |s| == 1 then None
    else
      assert Unsigned(s)[..0] == "";
      Accumulate(Unsigned(s), 0, 0)
  }

  function DigitChar(d: nat): (c: char)
    requires d < 10
    ensures IsDigit(c) && DigitValue(c) == d
  {
    '0' + d as char
  }

  /** The decimal rendering of a number, without leading zeros (what
      `Display` prints for a `u16`). */
  function Show(n: nat): (s: string)
    ensures |s| > 0 && AllDigits(s)
  {
    if n < 10 then [DigitChar(n)] else Show(n / 10) + [DigitChar(n % 10)]
  }

  lemma {:induction false} ValueOfShow(n: nat)
    ensures Value(Show(n)) == n
  {
    if n >= 10 {
      var s := Show(n);
      ValueOfShow(n / 10);
      assert s[..|s| - 1] == Show(n / 10);
    }
  }

  /** Every port prints to a literal that parses back to the same port. */
  lemma ParseShowRoundTrip(port: u16)
    ensures ParseU16(Show(port as nat)) == Some(port)
  {
    var s := Show(port as nat);
    ValueOfShow(port as nat);
    assert s[0] != '+' by { assert IsDigit(s[0]); }
    assert Unsigned(s) == s;
  }
}
