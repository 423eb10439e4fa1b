/**
 * ASCII models of the Python string operations the agent relies on:
 * `str.isspace`, `strip()`, `strip(c)`, `lower()`, `upper()`, `title()`,
 * `startswith`, the `in` substring test, `split("\n")`, and `int()` on a
 * decimal string.  Characters outside ASCII are left unchanged and are
 * neither letters nor white space.
 */
module Text {
  import opened Wrappers

  // ---------------------------------------------------------------- characters

  /** Python's `str.isspace()` on ASCII characters; also what `\s` matches in a regex. */
  predicate IsSpace(c: char) {
    c == ' ' || c == '\t' || c == '\n' || c == '\r' || c == '\U{0b}' || c == '\U{0c}'
    || ('\U{1c}' <= c <= '\U{1f}')
  }

  predicate IsUpper(c: char) { 'A' <= c <= 'Z' }
  predicate IsLower(c: char) { 'a' <= c <= 'z' }
  /** A cased character, in Python's sense, restricted to ASCII. */
  predicate IsLetter(c: char) { IsUpper(c) || IsLower(c) }
  /** What `\d` matches, restricted to ASCII. */
  predicate IsDigit(c: char) { '0' <= c <= '9' }

  function ToLower(c: char): (r: char)
    ensures IsLetter(c) ==> IsLower(r) && ToUpper(r) == ToUpper(c)
    ensures !IsUpper(c) ==> r == c
  {
    if IsUpper(c) then (c as int + 32) as char else c
  }

  function ToUpper(c: char): (r: char)
    ensures IsLetter(c) ==> IsUpper(r)
    ensures !IsLower(c) ==> r == c
  {
    if IsLower(c) then (c as int - 32) as char else c
  }

  // ---------------------------------------------------------------- case mapping

  /** `s.lower()` */
  function Lower(s: string): (r: string)
    ensures |r| == |s|
    ensures forall i :: 0 <= i < |s| ==> r[i] == ToLower(s[i])
  {
    seq(|s|, i requires 0 <= i < |s| => ToLower(s[i]))
  }

  /** A string without upper-case letters is its own lower-case form. */
  lemma LowerNoUpper(s: string)
    requires forall i :: 0 <= i < |s| ==> !IsUpper(s[i])
    ensures Lower(s) == s
  {
  }

  /** `s.upper()` */
  function Upper(s: string): (r: string)
    ensures |r| == |s|
    ensures forall i :: 0 <= i < |s| ==> r[i] == ToUpper(s[i])
  {
    seq(|s|, i requires 0 <= i < |s| => ToUpper(s[i]))
  }

  /**
   * `s.title()`: a letter is upper-cased when the character before it is not
   * a letter (or it is the first character), and lower-cased otherwise.
   */
  function Title(s: string): string {
    TitleFrom(s, false)
  }

  function TitleFrom(s: string, previousCased: bool): (r: string)
    ensures |r| == |s|
    ensures forall i :: 0 <= i < |s| ==> r[i] == ToLower(s[i]) || r[i] == ToUpper(s[i])
  {
    if s == [] then []
    else
      var c := if previousCased then ToLower(s[0]) else ToUpper(s[0]);
      [c] + TitleFrom(s[1..], IsLetter(s[0]))
  }

  lemma LowerAppend(a: string, b: string)
    ensures Lower(a + b) == Lower(a) + Lower(b)
  {
  }

  /** Case mapping never creates or removes a space character. */
  lemma SpacePreserved(s: string)
    ensures ' ' in Lower(s) <==> ' ' in s
    ensures ' ' in Title(s) <==> ' ' in s
  {
    var t := Title(s);
    if ' ' in t {
      var i :| 0 <= i < |t| && t[i] == ' ';
      assert s[i] == ' ';
    }
    if ' ' in s {
      var i :| 0 <= i < |s| && s[i] == ' ';
      assert t[i] == ' ' && Lower(s)[i] == ' ';
    }
  }

  lemma LowerIdempotent(s: string)
    ensures Lower(Lower(s)) == Lower(s)
  {
  }

  /** The first letter of a string is where Title and Lower must disagree. */
  lemma {:induction false} TitleAtFirstLetter(s: string, previousCased: bool, i: nat)
    requires i < |s| && IsLetter(s[i])
    requires forall j :: 0 <= j < i ==> !IsLetter(s[j])
    requires i > 0 || !previousCased
    ensures TitleFrom(s, previousCased)[i] == ToUpper(s[i])
  {
    if i > 0 {
      TitleAtFirstLetter(s[1..], IsLetter(s[0]), i - 1);
    }
  }

  /** When `s.lower()` differs from `s`, so does `s.title()` from `s.lower()`. */
  lemma TitleDiffersFromLower(s: string)
    requires Lower(s) != s
    ensures Title(s) != Lower(s)
  {
    var k :| 0 <= k < |s| && Lower(s)[k] != s[k];
    assert IsLetter(s[k]);
    var i := FirstLetter(s, k);
    TitleAtFirstLetter(s, false, i);
    assert Title(s)[i] != Lower(s)[i];
  }

  /** The index of the first letter of `s`, which exists when `s[k]` is one. */
  lemma FirstLetter(s: string, k: nat) returns (i: nat)
    requires k < |s| && IsLetter(s[k])
    ensures i <= k && IsLetter(s[i])
    ensures forall j :: 0 <= j < i ==> !IsLetter(s[j])
  {
    i := 0;
    while !IsLetter(s[i])
      invariant i <= k
      decreases k - i
      invariant forall j :: 0 <= j < i ==> !IsLetter(s[j])
    {
      i := i + 1;
    }
  }

  // ---------------------------------------------------------------- stripping

  /** The number of white-space characters `s` starts with. */
  function LeadingSpaces(s: string): (n: nat)
    ensures n <= |s|
    ensures forall i :: 0 <= i < n ==> IsSpace(s[i])
    ensures n == |s| || !IsSpace(s[n])
  {
    if s != [] && IsSpace(s[0]) then 1 + LeadingSpaces(s[1..]) else 0
  }

  /** The number of white-space characters `s` ends with. */
  function TrailingSpaces(s: string): (n: nat)
    ensures n <= |s|
    ensures forall i :: |s| - n <= i < |s| ==> IsSpace(s[i])
    ensures n == |s| || !IsSpace(s[|s| - n - 1])
  {
    if s != [] && IsSpace(s[|s| - 1]) then 1 + TrailingSpaces(s[..|s| - 1]) else 0
  }

  /** `s.lstrip()` */
  function LStrip(s: string): string {
    s[LeadingSpaces(s)..]
  }

  /** `s.rstrip()` */
  function RStrip(s: string): string {
    s[..|s| - TrailingSpaces(s)]
  }

  /** `s.strip()`: `s` with the white space at both ends removed (see `StripSlice`). */
  function Strip(s: string): (r: string)
    ensures |r| <= |s|
    ensures r == [] || (!IsSpace(r[0]) && !IsSpace(r[|r| - 1]))
  {
    RStrip(LStrip(s))
  }

  /** What `strip` removes is white space at the two ends, and only that. */
  lemma StripSlice(s: string)
    ensures exists a, b :: 0 <= a <= b <= |s| && Strip(s) == s[a..b] && AllSpace(s[..a]) && AllSpace(s[b..])
  {
    var a := LeadingSpaces(s);
    var t := s[a..];
    var b := a + |t| - TrailingSpaces(t);
    assert t[..|t| - TrailingSpaces(t)] == s[a..b];
    assert forall i :: b <= i < |s| ==> s[i] == t[i - a];
    assert AllSpace(s[..a]) && AllSpace(s[b..]);
  }

  /** Every character of `s` is white space. */
  predicate AllSpace(s: string) {
    forall i :: 0 <= i < |s| ==> IsSpace(s[i])
  }

  /** Two strings joined by a space are all white space exactly when both are. */
  lemma SpaceJoinAllSpace(x: string, y: string)
    ensures AllSpace(x + " " + y) <==> AllSpace(x) && AllSpace(y)
  {
    var j := x + " " + y;
    if AllSpace(x) && AllSpace(y) {
      forall i | 0 <= i < |j| ensures IsSpace(j[i]) {
        if i < |x| { assert j[i] == x[i]; }
        else if i > |x| { assert j[i] == y[i - |x| - 1]; }
      }
    }
    if AllSpace(j) {
      forall i | 0 <= i < |x| ensures IsSpace(x[i]) { assert j[i] == x[i]; }
      forall i | 0 <= i < |y| ensures IsSpace(y[i]) { assert j[|x| + 1 + i] == y[i]; }
    }
  }

  /** `s.strip()` is empty exactly when `s` is all white space. */
  lemma StripEmpty(s: string)
    ensures Strip(s) == [] <==> AllSpace(s)
  {
    if Strip(s) == [] {
      // `rstrip` leaves a non-space first character alone, so nothing survived `lstrip`
      assert |LStrip(s)| == 0;
    }
  }

  /** No white space at either end: what `Strip` leaves, and leaves alone. */
  predicate Trimmed(s: string) {
    s == [] || (!IsSpace(s[0]) && !IsSpace(s[|s| - 1]))
  }

  lemma StripTrimmed(s: string)
    requires Trimmed(s)
    ensures Strip(s) == s
  {
  }

  /** The number of copies of `c` that `s` starts with. */
  function LeadingChars(s: string, c: char): (n: nat)
    ensures n <= |s|
    ensures n == |s| || s[n] != c
  {
    if s != [] && s[0] == c then 1 + LeadingChars(s[1..], c) else 0
  }

  /** The number of copies of `c` that `s` ends with. */
  function TrailingChars(s: string, c: char): (n: nat)
    ensures n <= |s|
    ensures n == |s| || s[|s| - n - 1] != c
  {
    if s != [] && s[|s| - 1] == c then 1 + TrailingChars(s[..|s| - 1], c) else 0
  }

  /** Every character of `s` is `c`. */
  predicate AllChar(s: string, c: char) {
    forall i :: 0 <= i < |s| ==> s[i] == c
  }

  /** `s.strip(c)` for a single character `c`: `s` with the copies of `c` at both ends removed (see `StripCharSlice`). */
  function StripChar(s: string, c: char): (r: string)
    ensures |r| <= |s|
    ensures r == [] || (r[0] != c && r[|r| - 1] != c)
  {
    var t := s[LeadingChars(s, c)..];
    t[..|t| - TrailingChars(t, c)]
  }

  /** What `strip(c)` removes is copies of `c` at the two ends, and only that. */
  lemma StripCharSlice(s: string, c: char)
    ensures exists a, b :: 0 <= a <= b <= |s| && StripChar(s, c) == s[a..b] && AllChar(s[..a], c) && AllChar(s[b..], c)
  {
    var a := LeadingChars(s, c);
    var t := s[a..];
    var m := |t| - TrailingChars(t, c);
    var b := a + m;
    LeadingCharsAll(s, c);
    TrailingCharsAll(t, c);
    assert t[m..] == s[b..];
    assert t[..m] == s[a..b];
    assert StripChar(s, c) == s[a..b];
  }

  lemma {:induction false} LeadingCharsAll(s: string, c: char)
    ensures AllChar(s[..LeadingChars(s, c)], c)
  {
    if s != [] && s[0] == c {
      LeadingCharsAll(s[1..], c);
      assert s[..LeadingChars(s, c)] == [c] + s[1..][..LeadingChars(s[1..], c)];
    }
  }

  lemma {:induction false} TrailingCharsAll(s: string, c: char)
    ensures AllChar(s[|s| - TrailingChars(s, c)..], c)
  {
    if s != [] && s[|s| - 1] == c {
      var u := s[..|s| - 1];
      TrailingCharsAll(u, c);
      assert s[|s| - TrailingChars(s, c)..] == u[|u| - TrailingChars(u, c)..] + [c];
    }
  }

  /** `strip(c)` leaves a string alone when neither end is `c`. */
  lemma StripCharNoop(s: string, c: char)
    requires s != [] && s[0] != c && s[|s| - 1] != c
    ensures StripChar(s, c) == s
  {
  }

  // ---------------------------------------------------------------- searching

  /** `s.startswith(p)` */
  predicate StartsWith(s: string, p: string) {
    |p| <= |s| && s[..|p|] == p
  }

  /** Python's `sub in s`. */
  predicate Contains(s: string, sub: string) {
    exists i :: 0 <= i <= |s| && OccursAt(s, sub, i)
  }

  /** `sub` occurs in `s` starting at index `i`. */
  predicate OccursAt(s: string, sub: string, i: nat) {
    i + |sub| <= |s| && s[i..i + |sub|] == sub
  }

  // ---------------------------------------------------------------- lines

  /** `s.split(sep)` for a one-character separator: never empty. */
  function Split(s: string, sep: char): (r: seq<string>)
    ensures |r| >= 1
    ensures forall k :: 0 <= k < |r| ==> sep !in r[k]
  {
    if s == [] then [""]
    else if s[0] == sep then [""] + Split(s[1..], sep)
    else
      var rest := Split(s[1..], sep);
      [[s[0]] + rest[0]] + rest[1..]
  }

  /** `sep.join(lines)` */
  function Join(lines: seq<string>, sep: char): string {
    if lines == [] then ""
    else if |lines| == 1 then lines[0]
    else lines[0] + [sep] + Join(lines[1..], sep)
  }

  /** Splitting and joining back give the original text. */
  lemma {:induction false} JoinSplit(s: string, sep: char)
    ensures Join(Split(s, sep), sep) == s
  {
    if s == [] {
    } else if s[0] == sep {
      JoinSplit(s[1..], sep);
      var rest := Split(s[1..], sep);
      assert Split(s, sep) == [""] + rest;
      assert s == [sep] + s[1..];
    } else {
      JoinSplit(s[1..], sep);
      var rest := Split(s[1..], sep);
      var r := Split(s, sep);
      assert r == [[s[0]] + rest[0]] + rest[1..];
      if |rest| == 1 {
        assert Join(r, sep) == [s[0]] + rest[0];
      } else {
        assert Join(rest, sep) == rest[0] + [sep] + Join(rest[1..], sep);
        assert Join(r, sep) == [s[0]] + rest[0] + [sep] + Join(rest[1..], sep);
      }
      assert s == [s[0]] + s[1..];
    }
  }

  /** Joining lines that do not contain the separator and splitting again gives the lines. */
  lemma {:induction false} SplitJoin(lines: seq<string>, sep: char)
    requires |lines| >= 1
    requires forall k :: 0 <= k < |lines| ==> sep !in lines[k]
    ensures Split(Join(lines, sep), sep) == lines
  {
    if |lines| == 1 {
      SplitNoSeparator(lines[0], sep);
    } else {
      SplitJoin(lines[1..], sep);
      SplitAfterLine(lines[0], Join(lines[1..], sep), sep);
    }
  }

  lemma {:induction false} SplitNoSeparator(s: string, sep: char)
    requires sep !in s
    ensures Split(s, sep) == [s]
  {
    if s != [] {
      SplitNoSeparator(s[1..], sep);
      assert s[0] != sep;
      assert s == [s[0]] + s[1..];
    }
  }

  lemma {:induction false} SplitAfterLine(line: string, rest: string, sep: char)
    requires sep !in line
    ensures Split(line + [sep] + rest, sep) == [line] + Split(rest, sep)
  {
    if line == [] {
      assert line + [sep] + rest == [sep] + rest;
    } else {
      SplitAfterLine(line[1..], rest, sep);
      var whole := line + [sep] + rest;
      assert whole[0] == line[0] && line[0] != sep;
      assert whole[1..] == line[1..] + [sep] + rest;
      assert line == [line[0]] + line[1..];
    }
  }

  /** Splitting text joined at a separator splits each side. */
  lemma {:induction false} SplitAppend(x: string, y: string, sep: char)
    ensures Split(x + [sep] + y, sep) == Split(x, sep) + Split(y, sep)
  {
    if x == [] {
      assert x + [sep] + y == [sep] + y;
    } else {
      var whole := x + [sep] + y;
      assert whole[1..] == x[1..] + [sep] + y;
      SplitAppend(x[1..], y, sep);
      SplitAppendStep(x, y, sep, Split(whole[1..], sep));
    }
  }

  lemma SplitAppendStep(x: string, y: string, sep: char, rest: seq<string>)
    requires x != [] && rest == Split((x + [sep] + y)[1..], sep)
    requires rest == Split(x[1..], sep) + Split(y, sep)
    ensures Split(x + [sep] + y, sep) == Split(x, sep) + Split(y, sep)
  {
    var whole := x + [sep] + y;
    assert whole[0] == x[0];
    SplitCons(whole, sep, rest);
    SplitCons(x, sep, Split(x[1..], sep));
    ConsAppend(x[0], sep, Split(x[1..], sep), Split(y, sep));
  }

  /** The two shapes of `SplitCons` commute with appending the pieces of the rest. */
  lemma ConsAppend(c: char, sep: char, left: seq<string>, right: seq<string>)
    requires |left| >= 1
    ensures (if c == sep then [""] + (left + right) else [[c] + (left + right)[0]] + (left + right)[1..])
         == (if c == sep then [""] + left else [[c] + left[0]] + left[1..]) + right
  {
    if c != sep {
      assert (left + right)[1..] == left[1..] + right;
    }
  }

  /** One unfolding of `Split` on a non-empty string. */
  lemma SplitCons(s: string, sep: char, rest: seq<string>)
    requires s != [] && rest == Split(s[1..], sep)
    ensures Split(s, sep) == if s[0] == sep then [""] + rest else [[s[0]] + rest[0]] + rest[1..]
  {
  }

  // ---------------------------------------------------------------- numbers

  predicate AllDigits(s: string) {
    forall i :: 0 <= i < |s| ==> IsDigit(s[i])
  }

  function DigitValue(c: char): nat
    requires IsDigit(c)
  {
    c as int - '0' as int
  }

  /** The value of a string of decimal digits (the empty string has value 0). */
  function DigitsValue(s: string): nat
    requires AllDigits(s)
  {
    if s == [] then 0 else 10 * DigitsValue(s[..|s| - 1]) + DigitValue(s[|s| - 1])
  }

  /** `str(n)` for a natural number: decimal digits without leading zeros. */
  function NatToString(n: nat): (r: string)
    ensures |r| >= 1 && AllDigits(r)
    ensures |r| > 1 ==> r[0] != '0'
  {
    if n < 10 then [('0' as int + n) as char]
    else NatToString(n / 10) + [('0' as int + n % 10) as char]
  }

  /** `str(i)` for an integer. */
  function IntToString(i: int): string {
    if i < 0 then "-" + NatToString(-i) else NatToString(i)
  }

  lemma {:induction false} DigitsOfNatToString(n: nat)
    ensures DigitsValue(NatToString(n)) == n
  {
    if n >= 10 {
      DigitsOfNatToString(n / 10);
      var s := NatToString(n);
      assert s[..|s| - 1] == NatToString(n / 10);
    }
  }

  /**
   * `int(s)` on a string: surrounding white space, an optional sign and at
   * least one decimal digit; anything else is a `ValueError` (here `None`).
   */
  function ParseInt(s: string): (r: Option<int>)
    ensures r.Some? ==> Strip(s) != []
    ensures var t := Strip(s); var d := if Signed(t) then t[1..] else t;
      && (r.Some? <==> d != [] && AllDigits(d))
      && (r.Some? ==> r.value == if t[0] == '-' then -(DigitsValue(d) as int) else DigitsValue(d) as int)
  {
    var t := Strip(s);
    if t != [] && (t[0] == '-' || t[0] == '+') then
      var d := t[1..];
      if d != [] && AllDigits(d) then
        Some(if t[0] == '-' then -(DigitsValue(d) as int) else DigitsValue(d) as int)
      else None
    else if t != [] && AllDigits(t) then Some(DigitsValue(t) as int)
    else None
  }

  /** A sign at the front of a string. */
  predicate Signed(t: string) {
    t != [] && (t[0] == '-' || t[0] == '+')
  }

  /** `int(str(i)) == i` for every integer, negative ones included. */
  lemma ParseIntToString(i: int)
    ensures ParseInt(IntToString(i)) == Some(i)
  {
    if i < 0 {
      var d := NatToString(-i);
      var t := "-" + d;
      DigitsOfNatToString(-i);
      assert IsDigit(d[|d| - 1]) && t[|t| - 1] == d[|d| - 1];
      StripTrimmed(t);
      assert t[1..] == d;
    } else {
      ParseNonNegative(i);
    }
  }

  /** `int(str(n)) == n` */
  lemma ParseNonNegative(n: nat)
    ensures ParseInt(NatToString(n)) == Some(n)
  {
    DigitsOfNatToString(n);
    ParseDigits(NatToString(n));
  }

  /** A non-empty run of digits parses to its value. */
  lemma ParseDigits(s: string)
    requires s != [] && AllDigits(s)
    ensures ParseInt(s) == Some(DigitsValue(s) as int)
  {
    assert IsDigit(s[0]) && IsDigit(s[|s| - 1]);
    StripTrimmed(s);
  }

  // ---------------------------------------------------------------- repr

  /** The quote `repr` puts around `s`: a double quote when `s` holds a single quote and no double quote, else a single quote. */
  function ReprQuote(s: string): char {
    if '\'' in s && '"' !in s then '"' else '\''
  }

  /** The characters of `s` as `repr` writes them between `q` quotes: a backslash and `q` get a backslash in front. */
  function Escaped(s: string, q: char): (r: string)
    ensures |r| >= |s|
    ensures (forall i :: 0 <= i < |s| ==> s[i] != q && s[i] != '\\') ==> r == s
  {
    if s == [] then []
    else (if s[0] == q || s[0] == '\\' then ['\\', s[0]] else [s[0]]) + Escaped(s[1..], q)
  }

  /** Reading an escaped string back: a backslash takes the next character literally. */
  function Unescaped(r: string): string
    decreases |r|
  {
    if r == [] then []
    else if r[0] == '\\' && |r| >= 2 then [r[1]] + Unescaped(r[2..])
    else [r[0]] + Unescaped(r[1..])
  }

  /** Escaping loses nothing: the escaped text reads back as the original. */
  lemma {:induction false} EscapedRoundTrip(s: string, q: char)
    ensures Unescaped(Escaped(s, q)) == s
  {
    if s != [] {
      EscapedRoundTrip(s[1..], q);
      var head := if s[0] == q || s[0] == '\\' then ['\\', s[0]] else [s[0]];
      var r := head + Escaped(s[1..], q);
      if |head| == 2 {
        assert r[2..] == Escaped(s[1..], q);
      } else {
        assert r[1..] == Escaped(s[1..], q);
      }
    }
  }

  /** `repr(s)` for a string of printable characters: `s` escaped and quoted. */
  function Repr(s: string): (r: string)
    ensures |r| >= |s| + 2
    ensures r[0] == ReprQuote(s) && r[|r| - 1] == ReprQuote(s)
    ensures Unescaped(r[1..|r| - 1]) == s
  {
    var q := ReprQuote(s);
    var r := [q] + Escaped(s, q) + [q];
    assert r[1..|r| - 1] == Escaped(s, q);
    EscapedRoundTrip(s, q);
    r
  }
}
