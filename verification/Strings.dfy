/** The text operations of the Rust standard library that the components use. */
module Strings {
  import opened Lists

  /** The characters `str::trim` strips. */
  predicate IsSpace(c: char) {
    || '\t' <= c <= '\r' || c == ' ' || c == '\U{0085}' || c == '\U{00A0}' || c == '\U{1680}'
    || '\U{2000}' <= c <= '\U{200A}' || c == '\U{2028}' || c == '\U{2029}' || c == '\U{202F}'
    || c == '\U{205F}' || c == '\U{3000}'
  }

  /** `s.trim().is_empty()` */
  predicate Blank(s: string) {
    forall k | 0 <= k < |s| :: IsSpace(s[k])
  }

  function TrimStart(s: string): (t: string)
    ensures t == [] || !IsSpace(t[0])
  {
    if s != [] && IsSpace(s[0]) then TrimStart(s[1..]) else s
  }

  function TrimEnd(s: string): (t: string)
    ensures t == [] || !IsSpace(t[|t| - 1])
    ensures t <= s
  {
    if s != [] && IsSpace(s[|s| - 1]) then TrimEnd(s[..|s| - 1]) else s
  }

  function Trim(s: string): string {
    TrimEnd(TrimStart(s))
  }

  /** Text without surrounding space stays as it is. */
  lemma TrimOfTight(s: string)
    requires s != [] && !IsSpace(s[0]) && !IsSpace(s[|s| - 1])
    ensures Trim(s) == s
  {
  }

  // ---- splitting ----

  function IndexOf(s: string, c: char): (i: nat)
    requires c in s
    ensures i < |s| && s[i] == c && c !in s[..i]
  {
    if s[0] == c then 0
    else
      assert s == [s[0]] + s[1..];
      IndexOf(s[1..], c) + 1
  }

  /** `s.split_once(c)` */
  function SplitOnce(s: string, c: char): Option<(string, string)> {
    if c !in s then None else Some((s[..IndexOf(s, c)], s[IndexOf(s, c) + 1..]))
  }

  /** `s.split(c)` */
  function Split(s: string, c: char): (parts: seq<string>)
    ensures |parts| > 0
    decreases |s|
  {
    if c !in s then [s] else [s[..IndexOf(s, c)]] + Split(s[IndexOf(s, c) + 1..], c)
  }

  lemma FirstIndex(a: string, c: char, b: string)
    requires c !in a
    ensures IndexOf(a + [c] + b, c) == |a|
  {
    var s := a + [c] + b;
    var i := IndexOf(s, c);
    assert s[|a|] == c;
    forall k | 0 <= k < |a| ensures s[k] != c {
      assert s[k] == a[k];
    }
    forall k | 0 <= k < i ensures s[k] != c {
      assert s[..i][k] == s[k];
    }
  }

  lemma SplitOnceAt(a: string, c: char, b: string)
    requires c !in a
    ensures SplitOnce(a + [c] + b, c) == Some((a, b))
  {
    FirstIndex(a, c, b);
    var s := a + [c] + b;
    assert s[|a|] == c && s[..|a|] == a && s[|a| + 1..] == b;
  }

  lemma SplitAt(a: string, c: char, b: string)
    requires c !in a
    ensures Split(a + [c] + b, c) == [a] + Split(b, c)
  {
    FirstIndex(a, c, b);
    var s := a + [c] + b;
    assert s[|a|] == c && s[..|a|] == a && s[|a| + 1..] == b;
  }

  /** Trimming reaches the head of a text only from the left. */
  lemma {:induction false} TrimHead(a: string, c: char, b: string)
    requires !IsSpace(c) && b != [] && !IsSpace(b[|b| - 1])
    ensures Trim(a + [c] + b) == TrimStart(a) + [c] + b
    decreases |a|
  {
    var s := a + [c] + b;
    if a != [] && IsSpace(a[0]) {
      assert s[1..] == a[1..] + [c] + b;
      TrimHead(a[1..], c, b);
    } else {
      assert !IsSpace(s[0]) && s[|s| - 1] == b[|b| - 1];
      TrimOfTight(s);
    }
  }

  // ---- decimal numbers ----

  predicate IsDigit(c: char) {
    '0' <= c <= '9'
  }

  function DigitValue(c: char): nat
    requires IsDigit(c)
  {
    c as int - '0' as int
  }

  function DigitsValue(s: string): nat
    requires forall k | 0 <= k < |s| :: IsDigit(s[k])
  {
    if s == [] then 0 else DigitsValue(s[..|s| - 1]) * 10 + DigitValue(s[|s| - 1])
  }

  predicate IsNumber(s: string) {
    s != [] && forall k | 0 <= k < |s| :: IsDigit(s[k])
  }

  /** `s.parse::<u8>()`, which takes a sign and leading zeros. */
  function ParseU8(s: string): (n: Option<nat>)
    ensures n.Some? ==> n.value <= 255
  {
    var digits := if s != [] && s[0] == '+' then s[1..] else s;
    if IsNumber(digits) && DigitsValue(digits) <= 255 then Some(DigitsValue(digits)) else None
  }

  function Digit(d: nat): (c: char)
    requires d < 10
    ensures IsDigit(c) && DigitValue(c) == d
  {
    (d + '0' as int) as char
  }

  function Decimal(n: nat): (s: string)
    requires n <= 255
    ensures IsNumber(s) && |s| <= 3 && (|s| > 1 ==> s[0] != '0')
  {
    if n < 10 then [Digit(n)]
    else if n < 100 then [Digit(n / 10), Digit(n % 10)]
    else [Digit(n / 100), Digit(n / 10 % 10), Digit(n % 10)]
  }

  lemma DigitsStep(s: string, c: char)
    requires IsDigit(c) && forall k | 0 <= k < |s| :: IsDigit(s[k])
    ensures (forall k | 0 <= k < |s + [c]| :: IsDigit((s + [c])[k]))
            && DigitsValue(s + [c]) == DigitsValue(s) * 10 + DigitValue(c)
  {
    assert (s + [c])[..|s|] == s;
  }

  lemma OneDigit(x: char)
    requires IsDigit(x)
    ensures IsNumber([x]) && DigitsValue([x]) == DigitValue(x)
  {
    DigitsStep([], x);
    assert [] + [x] == [x];
  }

  lemma TwoDigits(x: char, y: char)
    requires IsDigit(x) && IsDigit(y)
    ensures IsNumber([x, y]) && DigitsValue([x, y]) == DigitValue(x) * 10 + DigitValue(y)
  {
    OneDigit(x);
    DigitsStep([x], y);
    assert [x] + [y] == [x, y];
  }

  lemma ThreeDigits(x: char, y: char, z: char)
    requires IsDigit(x) && IsDigit(y) && IsDigit(z)
    ensures IsNumber([x, y, z]) && DigitsValue([x, y, z]) == DigitValue(x) * 100 + DigitValue(y) * 10 + DigitValue(z)
  {
    TwoDigits(x, y);
    DigitsStep([x, y], z);
    assert [x, y] + [z] == [x, y, z];
  }

  lemma DecimalValue(n: nat)
    requires n <= 255
    ensures DigitsValue(Decimal(n)) == n
  {
    hide DigitsValue, Digit;
    if n < 10 {
      OneDigit(Digit(n));
    } else if n < 100 {
      TwoDigits(Digit(n / 10), Digit(n % 10));
    } else {
      ThreeDigits(Digit(n / 100), Digit(n / 10 % 10), Digit(n % 10));
    }
  }

  lemma DecimalParses(n: nat)
    requires n <= 255
    ensures ParseU8(Decimal(n)) == Some(n)
  {
    hide DigitsValue, Digit, Decimal;
    DecimalValue(n);
    assert IsDigit(Decimal(n)[0]);
  }
}
