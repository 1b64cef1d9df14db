/** The few Python 3 string operations the job database relies on: `str.strip`
    and `str.rstrip(c)`, `str.split(sep)` and `sep.join`, `int(s)` and `str(n)`,
    `str.startswith` and the `in` test on strings. A Python `str` is a sequence
    of Unicode code points, modelled as `string`. */
module PyText {
  import opened Wrappers

  /** The exceptions the modelled Python code raises. */
  datatype PyError =
    | ValueError   // int() of a string that is not an integer literal
    | IndexError   // a list index past the end
    | SystemExit   // sys.exit(1) after a diagnostic

  // ---------------------------------------------------------------------------
  // Whitespace and stripping
  // ---------------------------------------------------------------------------

  /** `c.isspace()`: the code points that `str.strip()` and `int()` treat as
      whitespace (Unicode category Zs, or bidirectional class WS, B or S). */
  predicate IsSpace(c: char) {
    || c == ' '
    || ('\t' <= c <= '\r')
    || ('\U{1C}' <= c <= '\U{1F}')
    || c == '\U{85}' || c == '\U{A0}' || c == '\U{1680}'
    || ('\U{2000}' <= c <= '\U{200A}')
    || c == '\U{2028}' || c == '\U{2029}' || c == '\U{202F}' || c == '\U{205F}' || c == '\U{3000}'
  }

  predicate AllSpace(s: string) {
    forall i :: 0 <= i < |s| ==> IsSpace(s[i])
  }

  /** Neither end of `s` is whitespace (vacuously so for the empty string). */
  predicate Trimmed(s: string) {
    s == [] || (!IsSpace(s[0]) && !IsSpace(s[|s| - 1]))
  }

  /** `s.lstrip()`: the suffix left after dropping leading whitespace. */
  function LStrip(s: string): string
    decreases |s|
  {
    if s != [] && IsSpace(s[0]) then LStrip(s[1..]) else s
  }

  /** What `lstrip` leaves is a suffix that does not start with whitespace,
      and what it drops is all whitespace. */
  lemma {:induction false} LStripShape(s: string)
    ensures var r := LStrip(s);
            && |r| <= |s| && r == s[|s| - |r|..]
            && (r == [] || !IsSpace(r[0]))
            && AllSpace(s[..|s| - |r|])
    decreases |s|
  {
    if s != [] && IsSpace(s[0]) {
      var tail := s[1..];
      LStripShape(tail);
      var r := LStrip(s);
      assert r == LStrip(tail);
      assert tail[|tail| - |r|..] == s[|s| - |r|..];
      forall i | 0 <= i < |s| - |r|
        ensures IsSpace(s[i])
      {
        if 0 < i {
          assert s[i] == tail[..|tail| - |r|][i - 1];
        }
      }
    }
  }

  /** `s.rstrip()`: the prefix left after dropping trailing whitespace. */
  function RStrip(s: string): string
    decreases |s|
  {
    if s != [] && IsSpace(s[|s| - 1]) then RStrip(s[..|s| - 1]) else s
  }

  /** What `rstrip` leaves is a prefix that does not end with whitespace, and
      what it drops is all whitespace. */
  lemma {:induction false} RStripShape(s: string)
    ensures var r := RStrip(s);
            && |r| <= |s| && r == s[..|r|]
            && (r == [] || !IsSpace(r[|r| - 1]))
            && AllSpace(s[|r|..])
    decreases |s|
  {
    if s != [] && IsSpace(s[|s| - 1]) {
      var init := s[..|s| - 1];
      RStripShape(init);
      var r := RStrip(s);
      assert r == RStrip(init);
      assert init[..|r|] == s[..|r|];
      forall i | |r| <= i < |s|
        ensures IsSpace(s[i])
      {
        if i < |s| - 1 {
          assert s[i] == init[|r|..][i - |r|];
        }
      }
    }
  }

  /** `s.strip()`: whitespace removed from both ends. The result is empty
      exactly when `s` is all whitespace, the test that skips blank lines. */
  function Strip(s: string): (r: string)
    ensures Trimmed(r)
    ensures r == [] <==> AllSpace(s)
  {
    StripShape(s);
    LStrip(RStrip(s))
  }

  lemma StripShape(s: string)
    ensures Trimmed(LStrip(RStrip(s)))
    ensures LStrip(RStrip(s)) == [] <==> AllSpace(s)
  {
    var t := RStrip(s);
    RStripShape(s);
    var r := LStrip(t);
    LStripShape(t);
    if r == [] {
      assert AllSpace(t[..|t|]);
      assert s == t + s[|t|..];
    } else {
      assert r[|r| - 1] == t[|t| - 1];
      assert !AllSpace(s) by {
        assert s[|s| - |r| - (|s| - |t|)] == r[0];
      }
    }
  }

  lemma {:induction false} LStripSpaces(pre: string, x: string)
    requires AllSpace(pre)
    ensures LStrip(pre + x) == LStrip(x)
    decreases |pre|
  {
    if pre != [] {
      assert (pre + x)[0] == pre[0];
      assert (pre + x)[1..] == pre[1..] + x;
      assert AllSpace(pre[1..]);
      LStripSpaces(pre[1..], x);
    } else {
      assert pre + x == x;
    }
  }

  lemma {:induction false} RStripSpaces(x: string, post: string)
    requires AllSpace(post)
    ensures RStrip(x + post) == RStrip(x)
    decreases |post|
  {
    if post != [] {
      assert (x + post)[|x + post| - 1] == post[|post| - 1];
      assert (x + post)[..|x + post| - 1] == x + post[..|post| - 1];
      assert AllSpace(post[..|post| - 1]);
      RStripSpaces(x, post[..|post| - 1]);
    } else {
      assert x + post == x;
    }
  }

  /** Stripping removes exactly the whitespace padding around a trimmed text:
      `strip` gives back what was padded, and nothing else. */
  lemma StripPadded(pre: string, m: string, post: string)
    requires AllSpace(pre) && AllSpace(post) && Trimmed(m)
    ensures Strip(pre + m + post) == m
  {
    RStripSpaces(pre + m, post);
    if m == [] {
      assert pre + m == pre;
      RStripShape(pre);
    } else {
      LStripSpaces(pre, m);
    }
  }

  /** Stripping twice is stripping once. */
  lemma StripIdempotent(s: string)
    ensures Strip(Strip(s)) == Strip(s)
  {
    StripPadded([], Strip(s), []);
    assert [] + Strip(s) + [] == Strip(s);
  }

  /** `s.rstrip(c)`: every trailing `c` removed (`rstrip('\n')` on a line). */
  function RStripChar(s: string, c: char): (r: string)
    ensures |r| <= |s| && r == s[..|r|]
    ensures r == [] || r[|r| - 1] != c
    ensures forall i :: |r| <= i < |s| ==> s[i] == c
    decreases |s|
  {
    if s != [] && s[|s| - 1] == c then RStripChar(s[..|s| - 1], c) else s
  }

  /** A line ending in one newline loses exactly that newline. */
  lemma RStripNewline(s: string)
    requires '\n' !in s
    ensures RStripChar(s + "\n", '\n') == s
  {
    var t := s + "\n";
    assert t[..|t| - 1] == s;
    if s != [] {
      assert s[|s| - 1] in s;
    }
  }

  // ---------------------------------------------------------------------------
  // Splitting and joining on a one-character separator
  // ---------------------------------------------------------------------------

  /** `s.split(sep)` with an explicit separator: one part more than there are
      separators, empty parts kept, no part holding the separator. */
  function Split(s: string, sep: char): (parts: seq<string>)
    ensures |parts| >= 1
    decreases |s|
  {
    if s == [] then [[]]
    else
      var rest := Split(s[1..], sep);
      if s[0] == sep then [[]] + rest
      else [[s[0]] + rest[0]] + rest[1..]
  }

  /** `split` gives one part more than there are separators, and no part
      holds the separator. */
  lemma {:induction false} SplitParts(s: string, sep: char)
    ensures |Split(s, sep)| == multiset(s)[sep] + 1
    ensures forall i :: 0 <= i < |Split(s, sep)| ==> sep !in Split(s, sep)[i]
    decreases |s|
  {
    if s != [] {
      var rest := Split(s[1..], sep);
      SplitParts(s[1..], sep);
      assert s == [s[0]] + s[1..];
      assert multiset(s) == multiset{s[0]} + multiset(s[1..]);
      var parts := Split(s, sep);
      if s[0] == sep {
        assert parts == [[]] + rest;
        forall i | 0 <= i < |parts|
          ensures sep !in parts[i]
        {
          if i > 0 {
            assert parts[i] == rest[i - 1];
          }
        }
      } else {
        assert parts == [[s[0]] + rest[0]] + rest[1..];
        forall i | 0 <= i < |parts|
          ensures sep !in parts[i]
        {
          if i > 0 {
            assert parts[i] == rest[i];
          } else {
            assert sep !in rest[0];
          }
        }
      }
    }
  }

  /** One step of `Split`: the first character either ends an empty first
      part or extends the first part of the rest. */
  lemma SplitFirst(s: string, sep: char)
    requires s != []
    ensures var rest := Split(s[1..], sep);
            Split(s, sep) == if s[0] == sep then [[]] + rest else [[s[0]] + rest[0]] + rest[1..]
  {
  }

  /** `sep.join(parts)`. */
  function Join(parts: seq<string>, sep: char): string
    decreases |parts|
  {
    if parts == [] then []
    else if |parts| == 1 then parts[0]
    else parts[0] + [sep] + Join(parts[1..], sep)
  }

  /** Joining the parts of a split gives the string back. */
  lemma {:induction false} JoinSplit(s: string, sep: char)
    ensures Join(Split(s, sep), sep) == s
    decreases |s|
  {
    if s != [] {
      var rest := Split(s[1..], sep);
      JoinSplit(s[1..], sep);
      assert s == [s[0]] + s[1..];
      SplitFirst(s, sep);
      if s[0] == sep {
        JoinInFront([], rest, sep);
        assert [] + [sep] + s[1..] == s;
      } else {
        JoinExtendFirst(s[0], rest, sep);
      }
    }
  }

  /** A part put in front of others is joined to them by one separator. */
  lemma JoinInFront(x: string, parts: seq<string>, sep: char)
    requires parts != []
    ensures Join([x] + parts, sep) == x + [sep] + Join(parts, sep)
  {
    assert ([x] + parts)[1..] == parts;
  }

  /** Putting a character in front of the first part puts it in front of the
      joined text. */
  lemma JoinExtendFirst(c: char, parts: seq<string>, sep: char)
    requires parts != []
    ensures Join([[c] + parts[0]] + parts[1..], sep) == [c] + Join(parts, sep)
  {
    var joined := [[c] + parts[0]] + parts[1..];
    if |parts| > 1 {
      assert joined[1..] == parts[1..];
      assert Join(joined, sep) == ([c] + parts[0]) + [sep] + Join(parts[1..], sep);
      assert Join(parts, sep) == parts[0] + [sep] + Join(parts[1..], sep);
    }
  }

  /** Splitting a text without separators after a prefix without separators. */
  lemma {:induction false} SplitAfterPlain(p: string, t: string, sep: char)
    requires sep !in p
    ensures Split(p + t, sep) == [p + Split(t, sep)[0]] + Split(t, sep)[1..]
    decreases |p|
  {
    if p != [] {
      var q, st := p[1..], Split(t, sep);
      assert p[0] in p;
      assert (p + t)[0] == p[0] && (p + t)[1..] == q + t;
      SplitFirst(p + t, sep);
      var sq := Split(q + t, sep);
      assert Split(p + t, sep) == [[p[0]] + sq[0]] + sq[1..];
      SplitAfterPlain(q, t, sep);
      assert sq[0] == q + st[0] && sq[1..] == st[1..];
      assert [p[0]] + (q + st[0]) == p + st[0];
    } else {
      var st := Split(t, sep);
      assert p + t == t && p + st[0] == st[0];
      assert [st[0]] + st[1..] == st;
    }
  }

  /** Splitting what was joined gives the parts back, when no part holds the
      separator. */
  lemma {:induction false} SplitJoin(parts: seq<string>, sep: char)
    requires parts != []
    requires forall i :: 0 <= i < |parts| ==> sep !in parts[i]
    ensures Split(Join(parts, sep), sep) == parts
    decreases |parts|
  {
    if |parts| == 1 {
      SplitAfterPlain(parts[0], [], sep);
      assert parts[0] + [] == parts[0];
      assert Split([], sep) == [[]];
      assert parts == [parts[0]];
    } else {
      var rest := Join(parts[1..], sep);
      SplitJoin(parts[1..], sep);
      assert parts[0] + [sep] + rest == parts[0] + ([sep] + rest);
      SplitAfterPlain(parts[0], [sep] + rest, sep);
      assert ([sep] + rest)[0] == sep && ([sep] + rest)[1..] == rest;
      SplitFirst([sep] + rest, sep);
      assert parts[0] + [] == parts[0];
      assert parts == [parts[0]] + parts[1..];
    }
  }

  /** A character that is neither the separator nor in any part is not in the join. */
  lemma {:induction false} JoinWithout(parts: seq<string>, sep: char, c: char)
    requires c != sep
    requires forall i :: 0 <= i < |parts| ==> c !in parts[i]
    ensures c !in Join(parts, sep)
    decreases |parts|
  {
    if |parts| > 1 {
      JoinWithout(parts[1..], sep, c);
    }
  }

  // ---------------------------------------------------------------------------
  // Integers: int(s) and str(n)
  // ---------------------------------------------------------------------------

  predicate IsDigit(c: char) {
    '0' as int <= c as int <= '9' as int
  }

  predicate AllDigits(s: string) {
    forall i :: 0 <= i < |s| ==> IsDigit(s[i])
  }

  /** The digits of a base-10 literal as `int()` accepts them: at least one
      digit, and an underscore only between two digits. */
  predicate IsDigitString(s: string) {
    && s != []
    && IsDigit(s[0])
    && forall i :: 0 <= i < |s| ==> IsDigit(s[i]) || (s[i] == '_' && i + 1 < |s| && IsDigit(s[i + 1]))
  }

  function DigitValue(c: char): nat
    requires IsDigit(c)
  {
    c as int - '0' as int
  }

  /** The value of a digit string read left to right, underscores ignored. */
  function DigitsValue(s: string): nat
    decreases |s|
  {
    if s == [] then 0
    else if IsDigit(s[|s| - 1]) then DigitsValue(s[..|s| - 1]) * 10 + DigitValue(s[|s| - 1])
    else DigitsValue(s[..|s| - 1])
  }

  /** `int(s)`: surrounding whitespace ignored, an optional sign, then the
      digits; `None` where Python raises `ValueError`. */
  function ParseInt(s: string): Option<int> {
    ParseLiteral(Strip(s))
  }

  /** The part of `int()` that reads the stripped text: an optional sign, then
      the digits. */
  function ParseLiteral(t: string): Option<int> {
    if t != [] && (t[0] == '-' || t[0] == '+') then
      if IsDigitString(t[1..]) then
        var v: int := DigitsValue(t[1..]);
        Some(if t[0] == '-' then -v else v)
      else None
    else if IsDigitString(t) then Some(DigitsValue(t))
    else None
  }

  function DigitChar(d: nat): (c: char)
    requires d < 10
    ensures IsDigit(c) && DigitValue(c) == d
  {
    ('0' as int + d) as char
  }

  /** The decimal digits of `n`, most significant first, without leading zeros. */
  function NatString(n: nat): string
    decreases n
  {
    if n < 10 then [DigitChar(n)] else NatString(n / 10) + [DigitChar(n % 10)]
  }

  /** `str(n)`, and `'%d' % n`. */
  function DecimalString(n: int): string {
    if n < 0 then "-" + NatString(-n) else NatString(n)
  }

  lemma {:induction false} NatStringDigits(n: nat)
    ensures NatString(n) != [] && AllDigits(NatString(n))
    ensures DigitsValue(NatString(n)) == n
    decreases n
  {
    if n >= 10 {
      NatStringDigits(n / 10);
      var s := NatString(n);
      assert s[..|s| - 1] == NatString(n / 10);
    }
  }

  /** `str(n)` starts with a digit or a minus sign and ends with a digit. */
  lemma DecimalTrimmed(n: int)
    ensures Trimmed(DecimalString(n))
    ensures forall i :: 0 <= i < |DecimalString(n)| ==> IsDigit(DecimalString(n)[i]) || (i == 0 && n < 0)
  {
    var m := if n < 0 then -n else n;
    NatStringDigits(m);
    var d := DecimalString(n);
    assert d[|d| - 1] == NatString(m)[|NatString(m)| - 1];
  }

  lemma ParseLiteralDecimal(n: int)
    ensures ParseLiteral(DecimalString(n)) == Some(n)
  {
    var m := if n < 0 then -n else n;
    NatStringDigits(m);
    if n < 0 {
      assert DecimalString(n)[1..] == NatString(m);
    }
  }

  /** `int()` reads back what `str()` writes, whatever whitespace surrounds it. */
  lemma ParseDecimal(n: int, pre: string, post: string)
    requires AllSpace(pre) && AllSpace(post)
    ensures ParseInt(pre + DecimalString(n) + post) == Some(n)
  {
    DecimalTrimmed(n);
    StripPadded(pre, DecimalString(n), post);
    ParseLiteralDecimal(n);
  }

  /** `str(n)` contains neither a separator nor whitespace. */
  lemma DecimalPlain(n: int, c: char)
    requires c == ':' || IsSpace(c)
    ensures c !in DecimalString(n)
  {
    DecimalTrimmed(n);
  }

  // ---------------------------------------------------------------------------
  // Prefixes and substrings
  // ---------------------------------------------------------------------------

  /** `s.startswith(prefix)`. */
  predicate StartsWith(s: string, prefix: string) {
    |prefix| <= |s| && s[..|prefix|] == prefix
  }

  /** `sub` occurs in `s` at position `i`. */
  predicate OccursAt(s: string, sub: string, i: int) {
    0 <= i <= |s| - |sub| && s[i..i + |sub|] == sub
  }

  /** `sub in s`: `sub` occurs in `s` starting at some position. */
  predicate Contains(s: string, sub: string)
    decreases |s|
  {
    StartsWith(s, sub) || (s != [] && Contains(s[1..], sub))
  }

  lemma {:induction false} ContainsAt(s: string, sub: string)
    ensures Contains(s, sub) <==> exists i :: OccursAt(s, sub, i)
    decreases |s|
  {
    if StartsWith(s, sub) {
      assert OccursAt(s, sub, 0);
    } else if s != [] {
      ContainsAt(s[1..], sub);
      if Contains(s[1..], sub) {
        var i :| OccursAt(s[1..], sub, i);
        assert OccursAt(s, sub, i + 1);
      }
      if exists i :: OccursAt(s, sub, i) {
        var i :| OccursAt(s, sub, i);
        assert OccursAt(s[1..], sub, i - 1);
      }
    }
  }
}
