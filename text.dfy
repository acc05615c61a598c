/**
 * The string operations the indicator service builds its identifiers with:
 * Java's decimal rendering of an `int` (`n + ""`), `Integer.parseInt`,
 * `String.join`, `String.split` on a single literal character, and the
 * anchored prefix test that a `"^" + literal` regular expression performs.
 */
module Text {
  import opened Wrappers

  predicate IsDigit(c: char) { '0' <= c <= '9' }

  function DigitChar(d: nat): (c: char)
    requires d < 10
    ensures IsDigit(c)
  {
    (48 + d) as char
  }

  /** Java's `Integer.toString(n)`: optional minus sign, then the decimal digits. */
  function IntToString(n: int): (s: string)
    ensures |s| >= 1
    decreases if n < 0 then 1 - n else n
  {
    if n < 0 then "-" + IntToString(-n)
    else if n < 10 then [DigitChar(n)]
    else IntToString(n / 10) + [DigitChar(n % 10)]
  }

  function DigitValue(c: char): (d: nat)
    requires IsDigit(c)
    ensures d < 10 && DigitChar(d) == c
  {
    (c as int) - 48
  }

  predicate AllDigits(s: string) { forall i :: 0 <= i < |s| ==> IsDigit(s[i]) }

  function ParseDigits(s: string): nat
    requires AllDigits(s)
  {
    if s == [] then 0 else ParseDigits(s[..|s| - 1]) * 10 + DigitValue(s[|s| - 1])
  }

  /**
   * Java's `Integer.parseInt`: an optional sign followed by at least one digit;
   * anything else is a `NumberFormatException`, here `None`.
   */
  function ParseInt(s: string): Option<int>
  {
    if |s| >= 1 && (s[0] == '-' || s[0] == '+') then
      var body := s[1..];
      if |body| >= 1 && AllDigits(body) then
        var v: int := ParseDigits(body);
        Some(if s[0] == '-' then -v else v)
      else None
    else if |s| >= 1 && AllDigits(s) then Some(ParseDigits(s))
    else None
  }

  /** A non-negative number renders as digits only, and parsing them gives it back. */
  lemma {:induction false} ParseNatToString(n: int)
    requires n >= 0
    ensures AllDigits(IntToString(n)) && ParseDigits(IntToString(n)) == n
    decreases n
  {
    var s := IntToString(n);
    if n < 10 {
      assert s[..|s| - 1] == [];
    } else {
      ParseNatToString(n / 10);
      assert s[..|s| - 1] == IntToString(n / 10);
    }
  }

  /** `Integer.parseInt` undoes `Integer.toString`. */
  lemma ParseIntToString(n: int)
    ensures ParseInt(IntToString(n)) == Some(n)
  {
    var s := IntToString(n);
    if n < 0 {
      ParseNatToString(-n);
      assert s[0] == '-' && s[1..] == IntToString(-n);
    } else {
      ParseNatToString(n);
      assert IsDigit(s[0]);
    }
  }

  /** A rendered integer holds no separator: neither `/` nor `.`. */
  lemma IntToStringPlain(n: int)
    ensures '/' !in IntToString(n) && '.' !in IntToString(n)
  {
    ParseNatToString(if n < 0 then -n else n);
  }

  /** Distinct integers render as distinct strings. */
  lemma IntToStringInjective(a: int, b: int)
    requires IntToString(a) == IntToString(b)
    ensures a == b
  {
    ParseIntToString(a);
    ParseIntToString(b);
  }

  predicate HasPrefix(s: string, p: string) { |p| <= |s| && s[..|p|] == p }

  /** `String.join(sep, parts)`. */
  function Join(parts: seq<string>, sep: char): (s: string)
    decreases |parts|
  {
    if parts == [] then ""
    else if |parts| == 1 then parts[0]
    else parts[0] + [sep] + Join(parts[1..], sep)
  }

  /** Every field between separators, empty ones included (`split` with a negative limit). */
  function Fields(s: string, sep: char): (r: seq<string>)
    ensures |r| >= 1
    decreases |s|
  {
    if s == [] then [""]
    else
      var rest := Fields(s[1..], sep);
      if s[0] == sep then [""] + rest else [[s[0]] + rest[0]] + rest[1..]
  }

  /** Java drops the empty fields at the end of a split. */
  function DropTrailingEmpty(r: seq<string>): seq<string>
    decreases |r|
  {
    if r == [] then [] else if r[|r| - 1] == "" then DropTrailingEmpty(r[..|r| - 1]) else r
  }

  /**
   * Java's `s.split(sep)` for a separator matching one literal character: the
   * whole string when the separator does not occur, otherwise the fields with
   * trailing empty fields removed.
   */
  function Split(s: string, sep: char): seq<string>
  {
    if sep !in s then [s] else DropTrailingEmpty(Fields(s, sep))
  }

  lemma {:induction false} FieldsNoSep(a: string, sep: char)
    requires sep !in a
    ensures Fields(a, sep) == [a]
    decreases |a|
  {
    if a != [] {
      FieldsNoSep(a[1..], sep);
      assert [a[0]] + a[1..] == a;
    }
  }

  lemma {:induction false} FieldsSepAfter(a: string, sep: char, t: string)
    requires sep !in a
    ensures Fields(a + [sep] + t, sep) == [a] + Fields(t, sep)
    decreases |a|
  {
    if a == [] {
      assert a + [sep] + t == [sep] + t;
      assert ([sep] + t)[1..] == t;
    } else {
      var s := a + [sep] + t;
      assert s[1..] == a[1..] + [sep] + t;
      FieldsSepAfter(a[1..], sep, t);
      assert [a[0]] + a[1..] == a;
    }
  }

  /** Splitting a join of separator-free fields gives the fields back. */
  lemma {:induction false} FieldsOfJoin(parts: seq<string>, sep: char)
    requires |parts| >= 1
    requires forall i :: 0 <= i < |parts| ==> sep !in parts[i]
    ensures Fields(Join(parts, sep), sep) == parts
    decreases |parts|
  {
    if |parts| == 1 {
      FieldsNoSep(parts[0], sep);
    } else {
      FieldsSepAfter(parts[0], sep, Join(parts[1..], sep));
      FieldsOfJoin(parts[1..], sep);
      assert [parts[0]] + parts[1..] == parts;
    }
  }

  lemma SplitOfJoin(parts: seq<string>, sep: char)
    requires |parts| >= 2
    requires forall i :: 0 <= i < |parts| ==> sep !in parts[i]
    requires parts[|parts| - 1] != ""
    ensures Split(Join(parts, sep), sep) == parts
  {
    FieldsOfJoin(parts, sep);
    var s := Join(parts, sep);
    assert s == parts[0] + [sep] + Join(parts[1..], sep);
    assert s[|parts[0]|] == sep;
  }

  /**
   * Two slash-separated strings whose first fields contain no slash: one is a
   * prefix of the other only if their first fields are equal.
   */
  lemma SlashPrefix(a: string, x: string, b: string, y: string)
    requires '/' !in a && '/' !in b
    requires HasPrefix(b + "/" + y, a + "/" + x)
    ensures a == b && HasPrefix(y, x)
  {
    var s, p := b + "/" + y, a + "/" + x;
    // At the shorter first field's length exactly one of the two strings could
    // hold its slash; since the characters agree there, both do.
    var m := if |a| < |b| then |a| else |b|;
    assert s[m] == p[m];
    assert p[m] == '/' <==> m == |a|;
    assert s[m] == '/' <==> m == |b|;
    assert a == p[..|a|] == s[..|a|] == b;
    assert y[..|x|] == s[|a| + 1..|p|] == x;
  }

  /** A string that starts with `h + p` and with `h + q` continues after `h` with both. */
  lemma PrefixAfter(s: string, h: string, p: string, q: string)
    requires HasPrefix(s, h + p) && HasPrefix(s, h + q)
    ensures HasPrefix(s[|h|..], p) && HasPrefix(s[|h|..], q)
  {
    assert s[|h|..][..|p|] == (h + p)[|h|..];
    assert s[|h|..][..|q|] == (h + q)[|h|..];
  }

  /** A string has at most one first field: two slash-free fields that both start it with a slash are equal. */
  lemma SlashField(s: string, a: string, b: string)
    requires '/' !in a && '/' !in b
    requires HasPrefix(s, a + "/") && HasPrefix(s, b + "/")
    ensures a == b
  {
    if |a| < |b| {
      SlashInLonger(s, a, b);
    } else if |b| < |a| {
      SlashInLonger(s, b, a);
    } else {
      assert a == (a + "/")[..|a|] == s[..|a|] == (b + "/")[..|b|] == b;
    }
  }

  /** Of two fields that both start `s` with a slash, the longer holds the shorter one's slash. */
  lemma SlashInLonger(s: string, a: string, b: string)
    requires |a| < |b| && HasPrefix(s, a + "/") && HasPrefix(s, b + "/")
    ensures '/' in b
  {
    assert s[|a|] == (a + "/")[|a|];
    assert s[|a|] == (b + "/")[|a|] == b[|a|];
  }
}
