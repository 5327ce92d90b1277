/** String operations the modelled programs rely on: decimal rendering and parsing
    (Python `str(n)` and `int(s)`), prefixes, substring search, splitting (JavaScript
    `String.prototype.split`) and single-character replacement (Python `str.replace`). */
module Text {
  import opened Outcomes

  const DIGITS: string := "0123456789"

  predicate IsDigit(c: char) { '0' <= c <= '9' }

  predicate AllDigits(s: string) { forall i :: 0 <= i < |s| ==> IsDigit(s[i]) }

  /** The white space Python's `int()` skips around a number: the ASCII spaces its
      C parser skips (tab, line feed, vertical tab, form feed, carriage return and
      space), and the characters from U+007F up that `str.isspace()` accepts, which
      `int()` first turns into spaces (next line, no-break space, the Ogham space mark,
      the spaces U+2000 to U+200A, the line and paragraph separators, the narrow
      no-break space, the medium mathematical space and the ideographic space). The
      information separators U+001C to U+001F are `str.isspace()` characters that
      `int()` does not skip. */
  predicate IntSpace(c: char) {
    || ('\t' <= c <= '\r') || c == ' '
    || c == '\U{0085}' || c == '\U{00A0}' || c == '\U{1680}'
    || ('\U{2000}' <= c <= '\U{200A}')
    || c == '\U{2028}' || c == '\U{2029}' || c == '\U{202F}' || c == '\U{205F}' || c == '\U{3000}'
  }

  /** Decimal rendering of a natural number, as Python's `str(n)`. */
  function NatToString(n: nat): (s: string)
    ensures s != [] && AllDigits(s)
    ensures n < 10 <==> |s| == 1
  {
    if n < 10 then [DIGITS[n]] else NatToString(n / 10) + [DIGITS[n % 10]]
  }

  function IntToString(i: int): string {
    if i < 0 then "-" + NatToString(-i) else NatToString(i)
  }

  /** The value of a string of decimal digits. */
  function DigitsValue(s: string): nat
    requires AllDigits(s)
  {
    if s == [] then 0 else DigitsValue(s[..|s| - 1]) * 10 + (s[|s| - 1] as int - '0' as int)
  }

  /** The white space `int()` skips on the left of its argument. */
  function StripLeft(s: string): string {
    if s != [] && IntSpace(s[0]) then StripLeft(s[1..]) else s
  }

  /** The white space `int()` skips on the right of its argument. */
  function StripRight(s: string): string {
    if s != [] && IntSpace(s[|s| - 1]) then StripRight(s[..|s| - 1]) else s
  }

  /** The white space `int()` skips on both sides of its argument. */
  function Strip(s: string): string {
    StripRight(StripLeft(s))
  }

  /** The digits of a base-10 literal as Python's `int()` reads them: ASCII digits,
      with single underscores allowed between two digits. */
  predicate DigitRun(s: string)
    decreases |s|
  {
    && s != [] && IsDigit(s[0])
    && (|s| == 1 || DigitRun(s[1..]) || (s[1] == '_' && DigitRun(s[2..])))
  }

  /** The digits of a run, without its underscores. */
  function DropUnderscores(s: string): string {
    if s == [] then [] else (if s[0] == '_' then [] else [s[0]]) + DropUnderscores(s[1..])
  }

  /** What is left of a run without its underscores is all digits. */
  lemma {:induction false} RunDigits(d: string)
    requires DigitRun(d)
    ensures DropUnderscores(d) != [] && AllDigits(DropUnderscores(d))
    decreases |d|
  {
    var rest := DropUnderscores(d[1..]);
    assert DropUnderscores(d) == [d[0]] + rest;
    if |d| == 1 {
      assert rest == [];
    } else {
      if !DigitRun(d[1..]) {
        RunDigits(d[2..]);
        assert d[1..][1..] == d[2..];
        assert rest == DropUnderscores(d[2..]);
      } else {
        RunDigits(d[1..]);
      }
      assert forall i :: 0 < i < |[d[0]] + rest| ==> ([d[0]] + rest)[i] == rest[i - 1];
    }
  }

  /** The value of a run of digits, or `None` when the string is not one. */
  function RunValue(d: string): Option<nat> {
    if DigitRun(d) then
      assert AllDigits(DropUnderscores(d)) by { RunDigits(d); }
      Some(DigitsValue(DropUnderscores(d)))
    else None
  }

  /** A nonempty string of digits is a run. */
  lemma {:induction false} DigitsRun(d: string)
    requires d != [] && AllDigits(d)
    ensures DigitRun(d)
    decreases |d|
  {
    if |d| > 1 {
      DigitsRun(d[1..]);
    }
  }

  /** An optional sign followed by a run of digits. */
  function SignedValue(t: string): Option<int> {
    if t != [] && (t[0] == '-' || t[0] == '+') then
      match RunValue(t[1..])
      case Some(v) => Some(if t[0] == '-' then -(v as int) else v as int)
      case None => None
    else
      match RunValue(t)
      case Some(v) => Some(v as int)
      case None => None
  }

  /** Python `int(s)` on a string: surrounding whitespace, an optional sign and a run
      of ASCII digits with single underscores between digits. `None` is the
      ValueError Python raises. */
  function ParseInt(s: string): Option<int> {
    SignedValue(Strip(s))
  }

  lemma {:induction false} NatToStringRoundTrip(n: nat)
    ensures DigitsValue(NatToString(n)) == n
  {
    if n >= 10 {
      var s := NatToString(n);
      assert s[..|s| - 1] == NatToString(n / 10);
      NatToStringRoundTrip(n / 10);
    }
  }

  /** `int(str(i)) == i`: parsing the rendering of an integer gives it back. */
  lemma ParseIntRoundTrip(i: int)
    ensures ParseInt(IntToString(i)) == Some(i)
  {
    var m: nat := if i < 0 then -i else i;
    var digits := NatToString(m);
    NatToStringRoundTrip(m);
    if i < 0 {
      ParseNegative(digits);
    } else {
      ParseDigits(digits);
    }
  }

  /** A string without surrounding whitespace is its own strip. */
  lemma StripNothing(s: string)
    requires s != [] && !IntSpace(s[0]) && !IntSpace(s[|s| - 1])
    ensures Strip(s) == s
  {
  }

  /** Stripping on the left drops a prefix of whitespace and stops at the first other character. */
  lemma {:induction false} StripLeftMeaning(s: string)
    ensures var r := StripLeft(s);
      && |r| <= |s| && r == s[|s| - |r|..]
      && (forall k :: 0 <= k < |s| - |r| ==> IntSpace(s[k]))
      && (r != [] ==> !IntSpace(r[0]))
  {
    if s != [] && IntSpace(s[0]) {
      var t := s[1..];
      StripLeftMeaning(t);
      var r := StripLeft(t);
      assert t[|t| - |r|..] == s[|s| - |r|..];
      forall k | 0 < k < |s| - |r| ensures IntSpace(s[k]) {
        assert s[k] == t[k - 1];
      }
    }
  }

  /** Stripping on the right drops a suffix of whitespace and stops at the last other character. */
  lemma {:induction false} StripRightMeaning(s: string)
    ensures var r := StripRight(s);
      && |r| <= |s| && r == s[..|r|]
      && (forall k :: |r| <= k < |s| ==> IntSpace(s[k]))
      && (r != [] ==> !IntSpace(r[|r| - 1]))
  {
    if s != [] && IntSpace(s[|s| - 1]) {
      var t := s[..|s| - 1];
      StripRightMeaning(t);
      var r := StripRight(t);
      assert t[..|r|] == s[..|r|];
      forall k | |r| <= k < |s| - 1 ensures IntSpace(s[k]) {
        assert s[k] == t[k];
      }
    }
  }

  /** A string of digits has no underscore to drop. */
  lemma {:induction false} DropNoUnderscores(digits: string)
    requires AllDigits(digits)
    ensures DropUnderscores(digits) == digits
  {
    if digits != [] {
      DropNoUnderscores(digits[1..]);
    }
  }

  /** Dropping underscores works part by part. */
  lemma {:induction false} DropUnderscoresAppend(a: string, b: string)
    ensures DropUnderscores(a + b) == DropUnderscores(a) + DropUnderscores(b)
  {
    if a != [] {
      assert (a + b)[1..] == a[1..] + b;
      DropUnderscoresAppend(a[1..], b);
    } else {
      assert a + b == b;
    }
  }

  lemma ParseDigits(digits: string)
    requires digits != [] && AllDigits(digits)
    ensures ParseInt(digits) == Some(DigitsValue(digits))
  {
    StripNothing(digits);
    DigitsRun(digits);
    DropNoUnderscores(digits);
  }

  lemma ParseNegative(digits: string)
    requires digits != [] && AllDigits(digits)
    ensures ParseInt("-" + digits) == Some(-(DigitsValue(digits) as int))
  {
    var s := "-" + digits;
    assert s[|s| - 1] == digits[|digits| - 1];
    StripNothing(s);
    assert s[1..] == digits;
    DigitsRun(digits);
    DropNoUnderscores(digits);
  }

  /** Two digit strings joined by one underscore form a run. */
  lemma {:induction false} UnderscoreRun(a: string, b: string)
    requires a != [] && AllDigits(a) && b != [] && AllDigits(b)
    ensures DigitRun(a + "_" + b)
    decreases |a|
  {
    var s := a + "_" + b;
    if |a| == 1 {
      assert s[2..] == b;
      DigitsRun(b);
    } else {
      assert s[1..] == a[1..] + "_" + b;
      UnderscoreRun(a[1..], b);
    }
  }

  /** Dropping the separating underscore joins the two digit strings. */
  lemma DropSeparator(a: string, b: string)
    requires AllDigits(a) && AllDigits(b)
    ensures DropUnderscores(a + "_" + b) == a + b
  {
    DropUnderscoresAppend(a + "_", b);
    DropUnderscoresAppend(a, "_");
    assert DropUnderscores("_") == [] by {
      assert "_"[1..] == [];
    }
    DropNoUnderscores(a);
    DropNoUnderscores(b);
    assert DropUnderscores(a + "_") == a;
  }

  /** An underscore between two digits is a separator: `int("1_000") == int("1000")`. */
  lemma ParseUnderscore(a: string, b: string)
    requires a != [] && AllDigits(a) && b != [] && AllDigits(b)
    ensures ParseInt(a + "_" + b) == ParseInt(a + b) == Some(DigitsValue(a + b))
  {
    var s := a + "_" + b;
    UnderscoreRun(a, b);
    StripNothing(s);
    DropSeparator(a, b);
    assert AllDigits(a + b) by {
      forall i | 0 <= i < |a + b| ensures IsDigit((a + b)[i]) {
        if i < |a| { assert (a + b)[i] == a[i]; } else { assert (a + b)[i] == b[i - |a|]; }
      }
    }
    ParseDigits(a + b);
  }

  /** Underscores anywhere but between two digits make `int()` raise. */
  lemma ParseUnderscoreMisplaced()
    ensures ParseInt("_1").None? && ParseInt("1_").None? && ParseInt("1__0").None? && ParseInt("-_1").None?
  {
    StripNothing("_1");
    assert !DigitRun("_1") by { assert !IsDigit("_1"[0]); }
    StripNothing("1_");
    assert !DigitRun("1_") by {
      assert "1_"[1..] == "_" && "1_"[2..] == [];
      assert !IsDigit("_"[0]);
    }
    StripNothing("1__0");
    assert !DigitRun("1__0") by {
      assert "1__0"[1..] == "__0" && "1__0"[2..] == "_0";
      assert !IsDigit("__0"[0]) && !IsDigit("_0"[0]);
    }
    StripNothing("-_1");
    assert "-_1"[1..] == "_1";
  }

  /** Unicode spaces around the digits are skipped, as `int()` skips them. */
  lemma ParseWideSpace()
    ensures ParseInt("\U{00A0}42\U{3000}") == Some(42) && ParseInt("\U{2028}-7\U{0085}") == Some(-7)
  {
    var s := "\U{00A0}42\U{3000}";
    assert StripLeft(s) == "42\U{3000}" by { assert s[1..] == "42\U{3000}"; }
    assert Strip(s) == "42" by { assert "42\U{3000}"[..2] == "42"; }
    var u := "\U{2028}-7\U{0085}";
    assert StripLeft(u) == "-7\U{0085}" by { assert u[1..] == "-7\U{0085}"; }
    assert Strip(u) == "-7" by { assert "-7\U{0085}"[..2] == "-7"; }
    assert "-7"[1..] == "7";
    ParseDigits("42");
    ParseDigits("7");
  }

  /** The information separators are not skipped: `int()` raises on them, although
      `str.isspace()` accepts them. */
  lemma ParseSeparatorNotSpace()
    ensures ParseInt("\U{001C}5") == None && ParseInt("5\U{001F}") == None
  {
    StripNothing("\U{001C}5");
    StripNothing("5\U{001F}");
    assert !DigitRun("5\U{001F}"[1..]) && !("5\U{001F}"[1] == '_');
  }

  predicate StartsWith(s: string, prefix: string) {
    |prefix| <= |s| && s[..|prefix|] == prefix
  }

  /** `sub` occurs in `s` starting at index `i`. */
  predicate OccursAt(s: string, sub: string, i: int) {
    0 <= i && i + |sub| <= |s| && s[i..i + |sub|] == sub
  }

  /** The first index at or after `from` where `sub` occurs in `s`. */
  function IndexOf(s: string, sub: string, from: nat): (r: Option<nat>)
    ensures r.Some? ==> from <= r.value && OccursAt(s, sub, r.value)
    ensures r.Some? ==> forall j :: from <= j < r.value ==> !OccursAt(s, sub, j)
    ensures r.None? ==> forall j :: from <= j ==> !OccursAt(s, sub, j)
    decreases |s| - from
  {
    if from + |sub| > |s| then None
    else if s[from..from + |sub|] == sub then Some(from)
    else IndexOf(s, sub, from + 1)
  }

  /** Python `sub in s`. */
  predicate Contains(s: string, sub: string) {
    IndexOf(s, sub, 0).Some?
  }

  lemma ContainsIff(s: string, sub: string)
    ensures Contains(s, sub) <==> exists i :: OccursAt(s, sub, i)
  {
    var r := IndexOf(s, sub, 0);
    if r.None? {
      assert forall i :: !OccursAt(s, sub, i);
    }
  }

  /** JavaScript `s.split(sep)` for a non-empty separator: the pieces between the
      leftmost non-overlapping occurrences of `sep`. */
  function Split(s: string, sep: string): (parts: seq<string>)
    requires sep != []
    ensures |parts| >= 1
    decreases |s|
  {
    match IndexOf(s, sep, 0)
    case None => [s]
    case Some(i) => [s[..i]] + Split(s[i + |sep|..], sep)
  }

  /** JavaScript `parts.join(sep)`. */
  function Join(parts: seq<string>, sep: string): string
    requires parts != []
  {
    if |parts| == 1 then parts[0] else parts[0] + sep + Join(parts[1..], sep)
  }

  /** Splitting and joining with the same separator gives the string back. */
  lemma {:induction false} SplitJoin(s: string, sep: string)
    requires sep != []
    ensures Join(Split(s, sep), sep) == s
    decreases |s|
  {
    var found := IndexOf(s, sep, 0);
    if found.Some? {
      var i := found.value;
      var rest := s[i + |sep|..];
      var tail := Split(rest, sep);
      var parts := Split(s, sep);
      assert parts == [s[..i]] + tail;
      assert parts[1..] == tail;
      SplitJoin(rest, sep);
      assert Join(parts, sep) == s[..i] + sep + Join(tail, sep);
      assert s == s[..i] + s[i..i + |sep|] + rest;
    }
  }

  /** No piece of a split contains the separator. */
  lemma {:induction false} SplitPartsFree(s: string, sep: string)
    requires sep != []
    ensures forall k :: 0 <= k < |Split(s, sep)| ==> !Contains(Split(s, sep)[k], sep)
    decreases |s|
  {
    var parts := Split(s, sep);
    var found := IndexOf(s, sep, 0);
    if found.None? {
      ContainsIff(s, sep);
    } else {
      var i := found.value;
      var rest := s[i + |sep|..];
      var tail := Split(rest, sep);
      assert parts == [s[..i]] + tail;
      SplitPartsFree(rest, sep);
      forall j | 0 <= j ensures !OccursAt(s[..i], sep, j) {
        if j + |sep| <= i {
          assert !OccursAt(s, sep, j);
          assert s[..i][j..j + |sep|] == s[j..j + |sep|];
        }
      }
      ContainsIff(s[..i], sep);
      forall k | 1 <= k < |parts| ensures !Contains(parts[k], sep) {
        assert parts[k] == tail[k - 1];
      }
    }
  }

  /** Python `s.replace(c, repl)` for a one-character `c`: every occurrence replaced. */
  function ReplaceChar(s: string, c: char, repl: string): string {
    if s == [] then [] else (if s[0] == c then repl else [s[0]]) + ReplaceChar(s[1..], c, repl)
  }

  /** The number of occurrences of `c` in `s`. */
  function CountChar(s: string, c: char): nat {
    if s == [] then 0 else (if s[0] == c then 1 else 0) + CountChar(s[1..], c)
  }
}
