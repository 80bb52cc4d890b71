/** The string operations of Python's standard library that the plugins use:
    `str.strip()`, `str.lower()`, `str.split(',')` and `int(str)`. */
module PyStr {
  import opened Results

  /** `str.isspace()` for one character: the characters `str.strip()` removes. */
  predicate IsSpace(c: char) {
    var n := c as int;
    (9 <= n <= 13) || (28 <= n <= 32) || n == 0x85 || n == 0xA0 || n == 0x1680
    || (0x2000 <= n <= 0x200A) || n == 0x2028 || n == 0x2029 || n == 0x202F
    || n == 0x205F || n == 0x3000
  }

  predicate AllSpace(s: string) {
    forall i :: 0 <= i < |s| ==> IsSpace(s[i])
  }

  /** Neither starts nor ends with white space. */
  predicate Trimmed(s: string) {
    s == [] || (!IsSpace(s[0]) && !IsSpace(s[|s| - 1]))
  }

  /** `str.lstrip()`: the suffix left after dropping the leading white space. */
  function StripLeft(s: string): (r: string)
    ensures |r| <= |s| && r == s[|s| - |r|..]
    ensures r == [] || !IsSpace(r[0])
    decreases |s|
  {
    if s != [] && IsSpace(s[0]) then StripLeft(s[1..]) else s
  }

  /** `str.rstrip()`: the prefix left after dropping the trailing white space. */
  function StripRight(s: string): (r: string)
    ensures |r| <= |s| && r == s[..|r|]
    ensures r == [] || !IsSpace(r[|r| - 1])
    decreases |s|
  {
    if s != [] && IsSpace(s[|s| - 1]) then StripRight(s[..|s| - 1]) else s
  }

  /** `str.lstrip()` drops white space only. */
  lemma {:induction false} StripLeftDropsSpace(s: string)
    ensures AllSpace(s[..|s| - |StripLeft(s)|])
    decreases |s|
  {
    if s != [] && IsSpace(s[0]) {
      var r := StripLeft(s[1..]);
      StripLeftDropsSpace(s[1..]);
      assert s[..|s| - |r|] == [s[0]] + s[1..][..|s| - 1 - |r|];
    }
  }

  /** `str.rstrip()` drops white space only. */
  lemma {:induction false} StripRightDropsSpace(s: string)
    ensures AllSpace(s[|StripRight(s)|..])
    decreases |s|
  {
    if s != [] && IsSpace(s[|s| - 1]) {
      var r := StripRight(s[..|s| - 1]);
      StripRightDropsSpace(s[..|s| - 1]);
      assert s[|r|..] == s[..|s| - 1][|r|..] + [s[|s| - 1]];
    }
  }

  /** `str.strip()`. */
  function Strip(s: string): (r: string)
    ensures |r| <= |s|
    ensures Trimmed(r)
  {
    StripRight(StripLeft(s))
  }

  lemma {:induction false} StripLeftSkips(p: string, x: string)
    requires AllSpace(p)
    ensures StripLeft(p + x) == StripLeft(x)
    decreases |p|
  {
    if p != [] {
      assert (p + x)[0] == p[0];
      assert (p + x)[1..] == p[1..] + x;
      StripLeftSkips(p[1..], x);
    } else {
      assert p + x == x;
    }
  }

  lemma {:induction false} StripRightSkips(x: string, q: string)
    requires AllSpace(q)
    ensures StripRight(x + q) == StripRight(x)
    decreases |q|
  {
    if q != [] {
      var s := x + q;
      assert s[|s| - 1] == q[|q| - 1];
      assert s[..|s| - 1] == x + q[..|q| - 1];
      StripRightSkips(x, q[..|q| - 1]);
    } else {
      assert x + q == x;
    }
  }

  /** Stripping undoes white-space padding around a trimmed string. */
  lemma StripPadded(p: string, u: string, q: string)
    requires AllSpace(p) && AllSpace(q) && Trimmed(u)
    ensures Strip(p + u + q) == u
  {
    assert p + u + q == p + (u + q);
    StripLeftSkips(p, u + q);
    StripTrailing(u, q);
  }

  /** Stripping undoes white-space padding after a trimmed string. */
  lemma StripTrailing(u: string, q: string)
    requires AllSpace(q) && Trimmed(u)
    ensures StripRight(StripLeft(u + q)) == u
  {
    if u == [] {
      assert u + q == q + [];
      StripLeftSkips(q, []);
    } else {
      assert (u + q)[0] == u[0];
      assert StripLeft(u + q) == u + q;
      StripRightSkips(u, q);
    }
  }

  function LowerChar(c: char): char {
    if 'A' <= c <= 'Z' then (c as int + 32) as char else c
  }

  /** `str.lower()` on ASCII letters; every other character is kept. */
  function Lower(s: string): (r: string)
    ensures |r| == |s|
    ensures forall i :: 0 <= i < |s| ==> r[i] == LowerChar(s[i])
  {
    seq(|s|, i requires 0 <= i < |s| => LowerChar(s[i]))
  }

  /** `s.split(sep)`: the pieces between separators, empty pieces included. */
  function Split(s: string, sep: char): (parts: seq<string>)
    ensures |parts| >= 1
    ensures forall i :: 0 <= i < |parts| ==> sep !in parts[i]
    decreases |s|
  {
    if s == [] then [[]]
    else
      var rest := Split(s[1..], sep);
      if s[0] == sep then [[]] + rest
      else [[s[0]] + rest[0]] + rest[1..]
  }

  /** `sep.join(parts)`. */
  function Join(parts: seq<string>, sep: char): string
    requires |parts| >= 1
    decreases |parts|
  {
    if |parts| == 1 then parts[0] else parts[0] + [sep] + Join(parts[1..], sep)
  }

  /** Joining the pieces of a split gives back the string. */
  lemma {:induction false} JoinSplit(s: string, sep: char)
    ensures Join(Split(s, sep), sep) == s
    decreases |s|
  {
    if s != [] {
      var rest := Split(s[1..], sep);
      JoinSplit(s[1..], sep);
      if s[0] == sep {
        assert Split(s, sep) == [[]] + rest;
        assert ([[]] + rest)[1..] == rest;
      } else {
        var parts := [[s[0]] + rest[0]] + rest[1..];
        assert Split(s, sep) == parts;
        if |rest| == 1 {
          assert Join(parts, sep) == [s[0]] + rest[0];
          assert s == [s[0]] + s[1..];
        } else {
          assert parts[1..] == rest[1..];
          assert Join(rest, sep) == rest[0] + [sep] + Join(rest[1..], sep);
          assert s == [s[0]] + s[1..];
        }
      }
    }
  }

  /** Splitting a string with no separator prefixed to a tail extends the
      tail's first piece. */
  lemma {:induction false} SplitPrefix(a: string, t: string, sep: char)
    requires sep !in a
    ensures Split(a + t, sep) == [a + Split(t, sep)[0]] + Split(t, sep)[1..]
    decreases |a|
  {
    var st := Split(t, sep);
    if a != [] {
      var s := a + t;
      assert s[0] == a[0] != sep;
      assert s[1..] == a[1..] + t;
      SplitPrefix(a[1..], t, sep);
      var rest := Split(s[1..], sep);
      assert rest == [a[1..] + st[0]] + st[1..];
      assert Split(s, sep) == [[s[0]] + rest[0]] + rest[1..];
      assert [s[0]] + rest[0] == a + st[0];
      assert rest[1..] == st[1..];
    } else {
      assert a + t == t;
      assert a + st[0] == st[0];
      assert st == [st[0]] + st[1..];
    }
  }

  /** Splitting a join of separator-free pieces gives back the pieces. */
  lemma {:induction false} SplitJoin(parts: seq<string>, sep: char)
    requires |parts| >= 1
    requires forall i :: 0 <= i < |parts| ==> sep !in parts[i]
    ensures Split(Join(parts, sep), sep) == parts
    decreases |parts|
  {
    if |parts| == 1 {
      SplitPrefix(parts[0], [], sep);
      assert parts[0] + [] == parts[0];
    } else {
      var tail := Join(parts[1..], sep);
      SplitJoin(parts[1..], sep);
      assert Join(parts, sep) == parts[0] + ([sep] + tail);
      SplitPrefix(parts[0], [sep] + tail, sep);
      var t := [sep] + tail;
      assert t[0] == sep && t[1..] == tail;
      var st := Split(t, sep);
      assert st == [[]] + parts[1..];
      assert st[0] == [] && st[1..] == parts[1..];
      assert parts[0] + st[0] == parts[0];
      assert parts == [parts[0]] + parts[1..];
    }
  }

  predicate IsDigit(c: char) {
    '0' <= c <= '9'
  }

  /** The digits `int()` accepts after an optional sign: ASCII digits, with
      single underscores between two digits. */
  predicate DigitGroups(d: string) {
    && |d| > 0
    && IsDigit(d[0])
    && IsDigit(d[|d| - 1])
    && (forall i :: 0 <= i < |d| ==> IsDigit(d[i]) || d[i] == '_')
    && NoDoubleUnderscore(d)
  }

  predicate NoDoubleUnderscore(d: string)
    decreases |d|
  {
    |d| < 2 || (!(d[0] == '_' && d[1] == '_') && NoDoubleUnderscore(d[1..]))
  }

  lemma {:induction false} DigitsOnlyNoDoubleUnderscore(d: string)
    requires forall i :: 0 <= i < |d| ==> IsDigit(d[i])
    ensures NoDoubleUnderscore(d)
    decreases |d|
  {
    if |d| >= 2 {
      assert IsDigit(d[0]);
      DigitsOnlyNoDoubleUnderscore(d[1..]);
    }
  }

  /** The number the digits of `d` spell, underscores ignored. */
  function DigitsValue(d: string): nat
    requires forall i :: 0 <= i < |d| ==> IsDigit(d[i]) || d[i] == '_'
    decreases |d|
  {
    if d == [] then 0
    else if d[|d| - 1] == '_' then DigitsValue(d[..|d| - 1])
    else
      assert IsDigit(d[|d| - 1]);
      10 * DigitsValue(d[..|d| - 1]) + (d[|d| - 1] as int - '0' as int)
  }

  /** An unsigned `int()` literal: `None` unless `d` is digit groups. */
  function ParseUnsigned(d: string): Option<int> {
    if DigitGroups(d) then Some(DigitsValue(d)) else None
  }

  /** `int(s)` for a string: `None` where Python raises `ValueError`. */
  function ParseInt(s: string): Option<int> {
    ParseSigned(Strip(s))
  }

  /** `int()` on the stripped text: an optional sign, then digit groups. */
  function ParseSigned(t: string): Option<int> {
    if |t| > 0 && (t[0] == '+' || t[0] == '-') then
      match ParseUnsigned(t[1..])
      case None => None
      case Some(v) => Some(if t[0] == '-' then -v else v)
    else ParseUnsigned(t)
  }

  function DigitChar(d: nat): char
    requires d < 10
  {
    ('0' as int + d) as char
  }

  /** The decimal digits of `n`, most significant first. */
  function NatString(n: nat): (r: string)
    ensures |r| > 0
    ensures forall i :: 0 <= i < |r| ==> IsDigit(r[i])
  {
    if n < 10 then [DigitChar(n)] else NatString(n / 10) + [DigitChar(n % 10)]
  }

  /** `str(n)`. */
  function DecimalString(n: int): string {
    if n < 0 then "-" + NatString(-n) else NatString(n)
  }

  lemma {:induction false} NatStringValue(n: nat)
    ensures DigitsValue(NatString(n)) == n
  {
    var s := NatString(n);
    if n >= 10 {
      NatStringValue(n / 10);
      assert s[..|s| - 1] == NatString(n / 10);
    }
  }

  lemma StripTrimmed(s: string)
    requires Trimmed(s)
    ensures Strip(s) == s
  {
    StripPadded([], s, []);
    assert [] + s + [] == s;
  }

  lemma {:induction false} NatStringDigits(n: nat)
    ensures ParseUnsigned(NatString(n)) == Some(n)
  {
    var s := NatString(n);
    DigitsOnlyNoDoubleUnderscore(s);
    NatStringValue(n);
  }

  lemma {:induction false} NatStringStripped(n: nat)
    ensures Strip(NatString(n)) == NatString(n)
  {
    var s := NatString(n);
    assert IsDigit(s[0]) && IsDigit(s[|s| - 1]);
    StripTrimmed(s);
  }

  lemma {:induction false} NegativeStringTrimmed(n: nat)
    ensures Strip("-" + NatString(n)) == "-" + NatString(n)
  {
    var s := NatString(n);
    assert IsDigit(s[|s| - 1]);
    var m := "-" + s;
    assert m[0] == '-' && m[|m| - 1] == s[|s| - 1];
    StripTrimmed(m);
  }

  /** A string that strips to itself is read as it stands. */
  lemma ParseIntStripped(s: string)
    requires Strip(s) == s
    ensures ParseInt(s) == ParseSigned(s)
  {
  }

  /** Text that starts with a digit is read without a sign. */
  lemma ParseSignedDigit(t: string)
    requires |t| > 0 && IsDigit(t[0])
    ensures ParseSigned(t) == ParseUnsigned(t)
  {
  }

  /** Text that starts with `-` is read as the negated rest. */
  lemma ParseSignedMinus(d: string)
    requires ParseUnsigned(d).Some?
    ensures ParseSigned("-" + d) == Some(-ParseUnsigned(d).value)
  {
    var t := "-" + d;
    assert t[0] == '-' && t[1..] == d;
  }

  lemma {:induction false} ParseIntOfNat(n: nat)
    ensures ParseInt(NatString(n)) == Some(n)
  {
    var s := NatString(n);
    NatStringDigits(n);
    NatStringStripped(n);
    ParseIntStripped(s);
    ParseSignedDigit(s);
  }

  lemma {:induction false} ParseIntOfNegative(n: nat)
    ensures ParseInt("-" + NatString(n)) == Some(-(n as int))
  {
    NatStringDigits(n);
    NegativeStringTrimmed(n);
    ParseIntStripped("-" + NatString(n));
    ParseSignedMinus(NatString(n));
  }

  /** `int(str(n)) == n`. */
  lemma {:induction false} ParseIntOfDecimal(n: int)
    ensures ParseInt(DecimalString(n)) == Some(n)
  {
    if n < 0 {
      var m: nat := -n;
      assert DecimalString(n) == "-" + NatString(m);
      ParseIntOfNegative(m);
      assert -(m as int) == n;
    } else {
      assert DecimalString(n) == NatString(n);
      ParseIntOfNat(n);
    }
  }
}
