/**
  The parts of Python's `str` that the three scripts lean on: `strip()`, `lower()`,
  `split("\t")`, `int()` and the decimal rendering of an integer in an f-string.
  Strings are `seq<char>`; a "line" is what Python's file iterator yields, so it
  still carries its `"\n"` terminator.
*/
module Text {
  import opened Wrappers

  // ---------------------------------------------------------------------------
  // str.strip()

  /** Python's `str.isspace()` on one character: the set `strip()` removes. */
  predicate IsSpace(c: char) {
    var n := c as int;
    (9 <= n <= 13) || (28 <= n <= 32) || n == 0x85 || n == 0xA0 || n == 0x1680
    || (0x2000 <= n <= 0x200A) || n == 0x2028 || n == 0x2029 || n == 0x202F
    || n == 0x205F || n == 0x3000
  }

  predicate AllSpace(s: string) {
    forall i :: 0 <= i < |s| ==> IsSpace(s[i])
  }

  /** `str.lstrip()`: drops the leading whitespace. */
  function TrimStart(s: string): string
  {
    if s != [] && IsSpace(s[0]) then TrimStart(s[1..]) else s
  }

  /** `str.rstrip()`: drops the trailing whitespace. */
  function TrimEnd(s: string): string
  {
    if s != [] && IsSpace(s[|s| - 1]) then TrimEnd(s[..|s| - 1]) else s
  }

  /** `str.strip()`. */
  function Strip(s: string): string
  {
    TrimEnd(TrimStart(s))
  }

  lemma {:induction false} TrimStartSpec(s: string)
    ensures var r := TrimStart(s);
      && |r| <= |s| && r == s[|s| - |r|..]
      && (r == [] || !IsSpace(r[0]))
      && AllSpace(s[..|s| - |r|])
  {
    if s != [] && IsSpace(s[0]) {
      var tail := s[1..];
      TrimStartSpec(tail);
      var r := TrimStart(tail);
      assert tail[|tail| - |r|..] == s[|s| - |r|..];
      assert s[..|s| - |r|] == [s[0]] + tail[..|tail| - |r|];
    }
  }

  lemma {:induction false} TrimEndSpec(s: string)
    ensures var r := TrimEnd(s);
      && |r| <= |s| && r == s[..|r|]
      && (r == [] || !IsSpace(r[|r| - 1]))
      && AllSpace(s[|r|..])
  {
    if s != [] && IsSpace(s[|s| - 1]) {
      var init := s[..|s| - 1];
      TrimEndSpec(init);
      var r := TrimEnd(init);
      assert init[..|r|] == s[..|r|];
      assert s[|r|..] == init[|r|..] + [s[|s| - 1]];
    }
  }

  /** `line.strip()` is empty exactly for blank lines; otherwise it starts and ends
      with a character that is not whitespace; either way it is the line without a
      whitespace margin on each side. */
  lemma StripSpec(s: string)
    ensures Strip(s) == [] <==> AllSpace(s)
    ensures Strip(s) != [] ==> !IsSpace(Strip(s)[0]) && !IsSpace(Strip(s)[|Strip(s)| - 1])
    ensures exists a, b :: 0 <= a <= b <= |s| && Strip(s) == s[a..b] && AllSpace(s[..a]) && AllSpace(s[b..])
  {
    var t := TrimStart(s);
    TrimStartSpec(s);
    TrimEndSpec(t);
    var a := |s| - |t|;
    var b := a + |TrimEnd(t)|;
    assert Strip(s) == s[a..b] && s[b..] == t[|TrimEnd(t)|..];
    if TrimEnd(t) == [] {
      forall i | 0 <= i < |s| ensures IsSpace(s[i]) {
        assert s[i] == s[..|s| - |t|][i];
      }
    }
  }

  /** A string that neither starts nor ends with whitespace is its own strip. */
  lemma StripUnchanged(s: string)
    requires s == [] || (!IsSpace(s[0]) && !IsSpace(s[|s| - 1]))
    ensures Strip(s) == s
  {
  }

  /** Stripping a line that ends in a newline and has no other whitespace at either
      end leaves the line without it. */
  lemma StripNewline(text: string)
    requires text != [] && !IsSpace(text[0]) && !IsSpace(text[|text| - 1])
    ensures Strip(text + "\n") == text
  {
    assert (text + "\n")[..|text|] == text;
    assert TrimEnd(text + "\n") == TrimEnd(text) == text;
  }

  // ---------------------------------------------------------------------------
  // str.lower()

  /** ASCII case folding of one character. */
  function LowerChar(c: char): char
  {
    if 'A' <= c <= 'Z' then (c as int + 32) as char else c
  }

  /** `str.lower()` on the ASCII letters; every other character is kept. */
  function Lower(s: string): string
  {
    if s == [] then [] else [LowerChar(s[0])] + Lower(s[1..])
  }

  /** Lower-casing keeps the length, turns each upper-case ASCII letter into its own
      lower-case letter (32 code points further), leaves no upper-case ASCII letter,
      and changes nothing else. */
  lemma {:induction false} LowerSpec(s: string)
    ensures |Lower(s)| == |s|
    ensures forall i :: 0 <= i < |s| && 'A' <= s[i] <= 'Z' ==> Lower(s)[i] as int == s[i] as int + 32
    ensures forall i :: 0 <= i < |s| ==> !('A' <= Lower(s)[i] <= 'Z')
    ensures forall i :: 0 <= i < |s| ==> ('A' <= s[i] <= 'Z') || Lower(s)[i] == s[i]
  {
    if s != [] {
      LowerSpec(s[1..]);
      assert forall i :: 1 <= i < |s| ==> Lower(s)[i] == Lower(s[1..])[i - 1];
    }
  }

  /** Lower-casing ignores case: two strings whose characters agree once folded
      lower-case to the same string. */
  lemma {:induction false} LowerIgnoresCase(s: string, t: string)
    requires |s| == |t|
    requires forall i :: 0 <= i < |s| ==> LowerChar(s[i]) == LowerChar(t[i])
    ensures Lower(s) == Lower(t)
  {
    if s != [] {
      LowerIgnoresCase(s[1..], t[1..]);
    }
  }

  /** Lower-casing twice is lower-casing once. */
  lemma {:induction false} LowerIdempotent(s: string)
    ensures Lower(Lower(s)) == Lower(s)
  {
    if s != [] {
      LowerIdempotent(s[1..]);
      assert Lower(s)[1..] == Lower(s[1..]);
    }
  }

  // ---------------------------------------------------------------------------
  // str.split(sep) and its inverse, sep.join(parts)

  /** `s.split(sep)` for a one-character separator: every occurrence of `sep` cuts,
      and an empty string gives `[""]`. */
  function Split(s: string, sep: char): (parts: seq<string>)
    ensures |parts| >= 1
    decreases |s|
  {
    if s == [] then [[]]
    else
      var rest := Split(s[1..], sep);
      if s[0] == sep then [[]] + rest
      else [[s[0]] + rest[0]] + rest[1..]
  }

  /** No field holds the separator, and there is one field more than there are
      separators. */
  lemma {:induction false} SplitSpec(s: string, sep: char)
    ensures |Split(s, sep)| == multiset(s)[sep] + 1
    ensures forall k :: 0 <= k < |Split(s, sep)| ==> sep !in Split(s, sep)[k]
    decreases |s|
  {
    if s != [] {
      SplitSpec(s[1..], sep);
      assert s == [s[0]] + s[1..];
    }
  }

  /** `sep.join(parts)`. */
  function Join(parts: seq<string>, sep: char): string
  {
    if |parts| == 0 then []
    else if |parts| == 1 then parts[0]
    else parts[0] + [sep] + Join(parts[1..], sep)
  }

  /** Splitting loses nothing: joining the fields back gives the original string. */
  lemma {:induction false} SplitJoin(s: string, sep: char)
    ensures Join(Split(s, sep), sep) == s
    decreases |s|
  {
    if s != [] {
      var rest := Split(s[1..], sep);
      SplitJoin(s[1..], sep);
      if s[0] == sep {
        JoinEmptyFirst(rest, sep);
      } else {
        JoinLongerFirst(s[0], rest, sep);
      }
      assert s == [s[0]] + s[1..];
    }
  }

  /** An empty first field contributes only its separator. */
  lemma JoinEmptyFirst(parts: seq<string>, sep: char)
    requires |parts| >= 1
    ensures Join([[]] + parts, sep) == [sep] + Join(parts, sep)
  {
    assert ([[]] + parts)[1..] == parts;
  }

  /** A character added in front of the first field comes first in the joined string. */
  lemma JoinLongerFirst(c: char, parts: seq<string>, sep: char)
    requires |parts| >= 1
    ensures Join([[c] + parts[0]] + parts[1..], sep) == [c] + Join(parts, sep)
  {
    var longer := [[c] + parts[0]] + parts[1..];
    if |parts| > 1 {
      assert longer[1..] == parts[1..];
    }
  }

  /** Joining fields that hold no separator and splitting again gives the fields back. */
  lemma {:induction false} JoinSplit(parts: seq<string>, sep: char)
    requires |parts| >= 1
    requires forall k :: 0 <= k < |parts| ==> sep !in parts[k]
    ensures Split(Join(parts, sep), sep) == parts
    decreases |parts|
  {
    if |parts| == 1 {
      SplitWithoutSep(parts[0], sep);
    } else {
      JoinSplit(parts[1..], sep);
      SplitAtFirstSep(parts[0], Join(parts[1..], sep), sep);
      assert [parts[0]] + parts[1..] == parts;
    }
  }

  /** A string without the separator is a single field. */
  lemma {:induction false} SplitWithoutSep(a: string, sep: char)
    requires sep !in a
    ensures Split(a, sep) == [a]
  {
    assert multiset(a)[sep] == 0;
    SplitSpec(a, sep);
    SplitJoin(a, sep);
  }

  /** The field before the first separator is split off unchanged. */
  lemma {:induction false} SplitAtFirstSep(a: string, b: string, sep: char)
    requires sep !in a
    ensures Split(a + [sep] + b, sep) == [a] + Split(b, sep)
    decreases |a|
  {
    var s := a + [sep] + b;
    if a == [] {
      assert s[1..] == b;
    } else {
      assert s[1..] == a[1..] + [sep] + b;
      SplitAtFirstSep(a[1..], b, sep);
      assert [a[0]] + a[1..] == a;
    }
  }

  // ---------------------------------------------------------------------------
  // int(text) and the decimal rendering of an int

  predicate IsDigit(c: char) {
    '0' <= c <= '9'
  }

  predicate AllDigits(s: string) {
    forall i :: 0 <= i < |s| ==> IsDigit(s[i])
  }

  /** Python's digit grammar for a decimal `int()` argument: ASCII digits, where
      single underscores may stand between two digits. */
  predicate IsDigitRun(s: string) {
    && |s| > 0
    && IsDigit(s[0])
    && IsDigit(s[|s| - 1])
    && (forall i :: 0 <= i < |s| ==> IsDigit(s[i]) || s[i] == '_')
    && (forall i :: 0 <= i < |s| - 1 ==> s[i] != '_' || s[i + 1] != '_')
  }

  function DropUnderscores(s: string): string
  {
    if s == [] then []
    else if s[0] == '_' then DropUnderscores(s[1..])
    else [s[0]] + DropUnderscores(s[1..])
  }

  lemma {:induction false} DropUnderscoresNoOp(s: string)
    requires '_' !in s
    ensures DropUnderscores(s) == s
  {
    if s != [] {
      DropUnderscoresNoOp(s[1..]);
      assert s == [s[0]] + s[1..];
    }
  }

  function DigitValue(c: char): (d: nat)
    ensures d < 10
  {
    if IsDigit(c) then c as int - '0' as int else 0
  }

  function DigitChar(d: nat): (c: char)
    requires d < 10
    ensures IsDigit(c) && DigitValue(c) == d
  {
    ('0' as int + d) as char
  }

  /** The value of a string of decimal digits, most significant first. */
  function DigitsValue(s: string): nat
  {
    if s == [] then 0 else DigitsValue(s[..|s| - 1]) * 10 + DigitValue(s[|s| - 1])
  }

  /** The unsigned part of `int()`: a digit run, read with its underscores ignored. */
  function ParseNat(s: string): Option<nat>
  {
    if IsDigitRun(s) then Some(DigitsValue(DropUnderscores(s))) else None
  }

  /** The whitespace `int()` skips around its argument: among ASCII characters only
      tab, line feed, vertical tab, form feed, carriage return and space (C's
      `isspace`), so not the separators U+001C to U+001F that `str.isspace()`
      counts; every non-ASCII whitespace character is first turned into a space. */
  predicate IntSpace(c: char) {
    IsSpace(c) && !(28 <= c as int <= 31)
  }

  /** The ASCII characters `int()` skips are exactly C's six whitespace characters. */
  lemma IntSpaceAscii(c: char)
    requires c as int < 128
    ensures IntSpace(c) <==> c == '\t' || c == '\n' || c == '\U{B}' || c == '\U{C}' || c == '\r' || c == ' '
  {
  }

  function IntTrimStart(s: string): string
  {
    if s != [] && IntSpace(s[0]) then IntTrimStart(s[1..]) else s
  }

  function IntTrimEnd(s: string): string
  {
    if s != [] && IntSpace(s[|s| - 1]) then IntTrimEnd(s[..|s| - 1]) else s
  }

  /** The text `int()` reads: its argument without the surrounding `IntSpace`. */
  function IntStrip(s: string): string
  {
    IntTrimEnd(IntTrimStart(s))
  }

  /** Python's `int(text)`: surrounding whitespace is ignored, one optional sign,
      then a digit run; anything else is the `ValueError`, here `None`. */
  function ParseInt(s: string): Option<int>
  {
    var t := IntStrip(s);
    if |t| > 0 && (t[0] == '+' || t[0] == '-') then
      match ParseNat(t[1..])
      case None => None
      case Some(n) => Some(if t[0] == '-' then -(n as int) else n as int)
    else
      match ParseNat(t)
      case None => None
      case Some(n) => Some(n)
  }

  /** Decimal rendering of a natural number, as `f"{n}"` produces it. */
  function NatToString(n: nat): string
  {
    if n < 10 then [DigitChar(n)] else NatToString(n / 10) + [DigitChar(n % 10)]
  }

  /** Decimal rendering of an integer, as `f"{i}"` produces it. */
  function IntToString(i: int): string
  {
    if i < 0 then "-" + NatToString(-i) else NatToString(i)
  }

  /** `str(n)` is a non-empty string of digits without a leading zero. */
  lemma {:induction false} NatToStringSpec(n: nat)
    ensures |NatToString(n)| > 0 && AllDigits(NatToString(n))
    ensures |NatToString(n)| > 1 ==> NatToString(n)[0] != '0'
  {
    if n >= 10 {
      NatToStringSpec(n / 10);
    }
  }

  /** `str(i)` is made of digits and at most a leading minus sign, so it holds no
      tab and no whitespace. */
  lemma IntToStringChars(i: int)
    ensures |IntToString(i)| > 0
    ensures forall k :: 0 <= k < |IntToString(i)| ==> IsDigit(IntToString(i)[k]) || (k == 0 && IntToString(i)[k] == '-')
    ensures '\t' !in IntToString(i)
  {
    NatToStringSpec(if i < 0 then -i else i);
    var s := IntToString(i);
    if i < 0 {
      assert forall k :: 1 <= k < |s| ==> s[k] == NatToString(-i)[k - 1];
    }
    assert forall k :: 0 <= k < |s| ==> s[k] != '\t';
  }

  lemma {:induction false} DigitsValueOfNatToString(n: nat)
    ensures DigitsValue(NatToString(n)) == n
  {
    if n >= 10 {
      var s := NatToString(n);
      assert s[..|s| - 1] == NatToString(n / 10);
      DigitsValueOfNatToString(n / 10);
    }
  }

  lemma ParseNatOfNatToString(n: nat)
    ensures ParseNat(NatToString(n)) == Some(n)
  {
    var digits := NatToString(n);
    NatToStringSpec(n);
    assert IsDigitRun(digits);
    assert '_' !in digits by {
      assert forall k :: 0 <= k < |digits| ==> digits[k] != '_';
    }
    DropUnderscoresNoOp(digits);
    DigitsValueOfNatToString(n);
  }

  /** `int(str(i)) == i`: what an f-string writes, `int()` reads back. */
  lemma ParseIntOfIntToString(i: int)
    ensures ParseInt(IntToString(i)) == Some(i)
  {
    var s := IntToString(i);
    var digits := NatToString(if i < 0 then -i else i);
    NatToStringSpec(if i < 0 then -i else i);
    ParseNatOfNatToString(if i < 0 then -i else i);
    if i < 0 {
      assert s == ['-'] + digits;
      assert s[|s| - 1] == digits[|digits| - 1];
      assert IntStrip(s) == s;
      assert s[1..] == digits;
    } else {
      assert s == digits;
      assert IntStrip(s) == s;
    }
  }

  /** Unlike `strip()`, `int()` does not skip an information separator: `int("\x1c1")`
      is a `ValueError`, although the text stripped of whitespace is `"1"`. */
  lemma SeparatorIsNoIntSpace()
    ensures var s := ['\U{1C}', '1'];
      Strip(s) == "1" && ParseInt(s) == None
  {
    var s := ['\U{1C}', '1'];
    assert TrimStart(s) == "1" by { assert s[1..] == "1"; }
    assert IntStrip(s) == s;
    assert !IsDigitRun(s);
  }
}
