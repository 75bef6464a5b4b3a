/**
 * Text primitives the scraper relies on: Python's character classes, the handful
 * of fixed regular expressions it searches with (written as hand-made scanners),
 * `str.strip()` and `readlines()`.
 */
module Text {
  import opened Wrappers

  /** The regex class `\d`, restricted to ASCII digits. */
  predicate IsDigit(c: char) { '0' <= c <= '9' }

  predicate AllDigits(s: string) { forall i :: 0 <= i < |s| ==> IsDigit(s[i]) }

  /** Python's `str.isspace()`: the characters `str.strip()` removes by default. */
  predicate IsSpace(c: char) {
    ('\t' <= c <= '\r') || ('\U{1C}' <= c <= '\U{1F}') || c == ' ' || c == '\U{85}' || c == '\U{A0}'
    || c == '\U{1680}' || ('\U{2000}' <= c <= '\U{200A}') || c == '\U{2028}' || c == '\U{2029}'
    || c == '\U{202F}' || c == '\U{205F}' || c == '\U{3000}'
  }

  /**
   * Whether text character `c` matches pattern character `p` under `re.IGNORECASE`.
   * For an ASCII letter this is the letter in either case plus the four non-ASCII
   * letters Python's `re` folds onto ASCII: U+0130 and U+0131 onto 'i',
   * U+017F onto 's' and U+212A onto 'k'.
   */
  predicate CaselessMatch(c: char, p: char) {
    if 'a' <= p <= 'z' || 'A' <= p <= 'Z' then
      var lower := if 'A' <= p <= 'Z' then (p as int + 32) as char else p;
      c == lower || c as int == lower as int - 32
      || (lower == 'i' && (c == '\U{130}' || c == '\U{131}'))
      || (lower == 's' && c == '\U{17F}')
      || (lower == 'k' && c == '\U{212A}')
    else
      c == p
  }

  predicate CharMatches(c: char, p: char, ignoreCase: bool) {
    if ignoreCase then CaselessMatch(c, p) else c == p
  }

  /** The literal `text` occurs in `s` starting at index `i`. */
  predicate LiteralAt(s: string, text: string, ignoreCase: bool, i: int) {
    0 <= i && i + |text| <= |s| && forall k :: 0 <= k < |text| ==> CharMatches(s[i + k], text[k], ignoreCase)
  }

  /** The fixed regular expressions the scraper uses. */
  datatype Pattern =
    | Literal(text: string, ignoreCase: bool)  // a literal such as `swim`, or `school` with re.IGNORECASE
    | DigitsAfter(prefix: string)              // `<prefix>(\d+)`
    | DateToken                                // `(\d\d/\d\d/202\d)`

  /** The length of every `DateToken` match. */
  const DateTokenLength := 10

  /** Pattern `p` matches `s` starting at index `i`. */
  predicate MatchesAt(p: Pattern, s: string, i: int) {
    match p
    case Literal(text, ignoreCase) => LiteralAt(s, text, ignoreCase, i)
    case DigitsAfter(prefix) => LiteralAt(s, prefix, false, i) && i + |prefix| < |s| && IsDigit(s[i + |prefix|])
    case DateToken =>
      0 <= i && i + DateTokenLength <= |s|
      && IsDigit(s[i]) && IsDigit(s[i + 1]) && s[i + 2] == '/'
      && IsDigit(s[i + 3]) && IsDigit(s[i + 4]) && s[i + 5] == '/'
      && s[i + 6] == '2' && s[i + 7] == '0' && s[i + 8] == '2' && IsDigit(s[i + 9])
  }

  /** `re.search` from index `from`: the first index at or after `from` where `p` matches (see `FindSpec`). */
  function Find(p: Pattern, s: string, from: nat): Option<nat>
    decreases |s| - from
  {
    if from > |s| then None
    else if MatchesAt(p, s, from) then Some(from)
    else Find(p, s, from + 1)
  }

  /**
   * `Find` gives the leftmost match at or after `from`, and `None` only when
   * there is no match there at all.
   */
  lemma {:induction false} FindSpec(p: Pattern, s: string, from: nat)
    ensures var r := Find(p, s, from);
      && (r.Some? ==> from <= r.value && MatchesAt(p, s, r.value))
      && (r.Some? ==> forall j :: from <= j < r.value ==> !MatchesAt(p, s, j))
      && (r.None? ==> forall j :: from <= j ==> !MatchesAt(p, s, j))
    decreases |s| - from
  {
    if from > |s| {
      forall j | from <= j ensures !MatchesAt(p, s, j) {
        if MatchesAt(p, s, j) {
          MatchEndsInside(p, s, j);
        }
      }
    } else if !MatchesAt(p, s, from) {
      FindSpec(p, s, from + 1);
    }
  }

  /** A match lies inside the text. */
  lemma MatchEndsInside(p: Pattern, s: string, i: int)
    requires MatchesAt(p, s, i)
    ensures 0 <= i <= |s|
  {
  }

  /** `bool(re.search(p, s))`. */
  function Search(p: Pattern, s: string): (found: bool)
    ensures found <==> exists i :: MatchesAt(p, s, i)
  {
    FindSpec(p, s, 0);
    var r := Find(p, s, 0);
    assert r.Some? ==> MatchesAt(p, s, r.value);
    r.Some?
  }

  /** `bool(re.search(text, s))` for a literal pattern, with or without `re.IGNORECASE`. */
  function ContainsLiteral(s: string, text: string, ignoreCase: bool): (found: bool)
    ensures found <==> exists i :: LiteralAt(s, text, ignoreCase, i)
  {
    assert forall i :: LiteralAt(s, text, ignoreCase, i) <==> MatchesAt(Literal(text, ignoreCase), s, i);
    Search(Literal(text, ignoreCase), s)
  }

  /** The maximal run of digits starting at index `i` (what a greedy `\d+` consumes). */
  function DigitRun(s: string, i: nat): (run: string)
    requires i <= |s|
    ensures i + |run| <= |s| && run == s[i..i + |run|]
    ensures AllDigits(run)
    ensures i + |run| == |s| || !IsDigit(s[i + |run|])
    decreases |s| - i
  {
    if i < |s| && IsDigit(s[i]) then [s[i]] + DigitRun(s, i + 1) else []
  }

  /**
   * `re.search(prefix + r'(\d+)', s).group(1)`, or `None` when the search fails
   * (see `CaptureDigitsSpec`).
   */
  function CaptureDigits(prefix: string, s: string): (r: Option<string>)
    ensures r.Some? ==> |r.value| > 0 && AllDigits(r.value)
  {
    FindSpec(DigitsAfter(prefix), s, 0);
    match Find(DigitsAfter(prefix), s, 0)
    case None => None
    case Some(i) =>
      var run := DigitRun(s, i + |prefix|);
      assert run[0] == s[i + |prefix|];
      Some(run)
  }

  /**
   * The capture is the maximal digit run after the leftmost occurrence of
   * `prefix` that is directly followed by a digit; it is missing exactly when
   * there is no such occurrence.
   */
  lemma CaptureDigitsSpec(prefix: string, s: string)
    ensures CaptureDigits(prefix, s).None? <==> forall i :: !MatchesAt(DigitsAfter(prefix), s, i)
    ensures CaptureDigits(prefix, s).Some? ==>
      exists i :: LeftmostMatch(DigitsAfter(prefix), s, i) && CaptureDigits(prefix, s).value == DigitRun(s, i + |prefix|)
  {
    FindSpec(DigitsAfter(prefix), s, 0);
    var f := Find(DigitsAfter(prefix), s, 0);
    if f.Some? {
      assert LeftmostMatch(DigitsAfter(prefix), s, f.value);
    }
  }

  /** `i` is the leftmost index where `p` matches `s`. */
  predicate LeftmostMatch(p: Pattern, s: string, i: int) {
    MatchesAt(p, s, i) && forall j :: 0 <= j < i ==> !MatchesAt(p, s, j)
  }

  /** Python's `int()` of a string of ASCII digits. */
  function DigitsValue(d: string): nat
    requires AllDigits(d)
    decreases |d|
  {
    if d == [] then 0 else DigitsValue(d[..|d| - 1]) * 10 + (d[|d| - 1] as int - '0' as int)
  }

  /** Where `lstrip` stops: the first index at or after `i` that is not whitespace, or the end. */
  function SkipSpaces(s: string, i: nat): (j: nat)
    requires i <= |s|
    ensures i <= j <= |s|
    ensures forall k :: i <= k < j ==> IsSpace(s[k])
    ensures j == |s| || !IsSpace(s[j])
    decreases |s| - i
  {
    if i < |s| && IsSpace(s[i]) then SkipSpaces(s, i + 1) else i
  }

  /** Where `rstrip` stops, scanning back from `j` but not past `lo`. */
  function BackSpaces(s: string, lo: nat, j: nat): (e: nat)
    requires lo <= j <= |s|
    ensures lo <= e <= j
    ensures forall k :: e <= k < j ==> IsSpace(s[k])
    ensures e == lo || !IsSpace(s[e - 1])
    decreases j
  {
    if j > lo && IsSpace(s[j - 1]) then BackSpaces(s, lo, j - 1) else j
  }

  /** `s.strip()`: `rstrip(lstrip(s))`, the part between the leading and the trailing whitespace. */
  function Strip(s: string): string {
    var a := SkipSpaces(s, 0);
    s[a..BackSpaces(s, a, |s|)]
  }

  /** A string `strip()` leaves as it is. */
  predicate IsStripped(s: string) {
    s == [] || (!IsSpace(s[0]) && !IsSpace(s[|s| - 1]))
  }

  /**
   * `strip()` keeps a slice of its input that neither starts nor ends with
   * whitespace, and everything it cuts off on either side is whitespace.
   */
  lemma StripSpec(s: string)
    ensures IsStripped(Strip(s))
    ensures exists a, b :: (0 <= a <= b <= |s| && Strip(s) == s[a..b]
                            && (forall k :: 0 <= k < a ==> IsSpace(s[k]))
                            && (forall k :: b <= k < |s| ==> IsSpace(s[k])))
  {
    var a := SkipSpaces(s, 0);
    var b := BackSpaces(s, a, |s|);
    var r := s[a..b];
    if r != [] {
      assert r[0] == s[a] && r[|r| - 1] == s[b - 1];
    }
  }

  /** A string without surrounding whitespace is its own `strip()`. */
  lemma StrippedIsFixed(s: string)
    requires IsStripped(s)
    ensures Strip(s) == s
  {
    assert s[0..|s|] == s;
  }

  /** A second `strip()` keeps what the first returned. */
  lemma StripIdempotent(s: string)
    ensures Strip(Strip(s)) == Strip(s)
  {
    StripSpec(s);
    StrippedIsFixed(Strip(s));
  }

  /** A trailing whitespace character changes where the leading scan stops only when `p` is all whitespace. */
  lemma {:induction false} SkipSpacesSnoc(p: string, c: char, i: nat)
    requires i <= |p| && IsSpace(c)
    ensures SkipSpaces(p + [c], i) == if SkipSpaces(p, i) < |p| then SkipSpaces(p, i) else |p| + 1
    decreases |p| - i
  {
    var s := p + [c];
    if i < |p| {
      assert s[i] == p[i];
      if IsSpace(p[i]) {
        SkipSpacesSnoc(p, c, i + 1);
      }
    } else {
      assert s[i] == c;
    }
  }

  /** The trailing scan below `|p|` sees only `p`. */
  lemma {:induction false} BackSpacesSnoc(p: string, c: char, lo: nat, j: nat)
    requires lo <= j <= |p|
    ensures BackSpaces(p + [c], lo, j) == BackSpaces(p, lo, j)
    decreases j
  {
    if j > lo {
      assert (p + [c])[j - 1] == p[j - 1];
      if IsSpace(p[j - 1]) {
        BackSpacesSnoc(p, c, lo, j - 1);
      }
    }
  }

  /** A slice inside `p` is the same slice of any extension of `p`. */
  lemma SnocSlice(p: string, q: string, a: nat, e: nat)
    requires a <= e <= |p|
    ensures (p + q)[a..e] == p[a..e]
  {
  }

  /** Stripping ignores one more whitespace character at the end, such as a line's newline. */
  lemma StripTrailingSpace(p: string, c: char)
    requires IsSpace(c)
    ensures Strip(p + [c]) == Strip(p)
  {
    var s := p + [c];
    var a := SkipSpaces(p, 0);
    SkipSpacesSnoc(p, c, 0);
    if a < |p| {
      assert s[|s| - 1] == c;
      assert BackSpaces(s, a, |s|) == BackSpaces(s, a, |p|);
      BackSpacesSnoc(p, c, a, |p|);
      var e := BackSpaces(p, a, |p|);
      SnocSlice(p, [c], a, e);
    } else {
      assert Strip(s) == s[|s|..|s|] && Strip(p) == p[|p|..|p|];
    }
  }

  /** The concatenation of the lines, each followed by a newline: how the places file is written. */
  function JoinLines(lines: seq<string>): string {
    if lines == [] then [] else lines[0] + "\n" + JoinLines(lines[1..])
  }

  /** Writing one more line appends it and its newline to the text written so far. */
  lemma {:induction false} JoinLinesSnoc(lines: seq<string>, x: string)
    ensures JoinLines(lines + [x]) == JoinLines(lines) + x + "\n"
  {
    if lines == [] {
      assert [x][1..] == [];
    } else {
      assert (lines + [x])[1..] == lines[1..] + [x];
      JoinLinesSnoc(lines[1..], x);
    }
  }

  /**
   * `f.readlines()` on the text of a file (universal-newline translation aside):
   * the text cut after every newline, a last unterminated piece kept as a line.
   */
  function ReadLines(text: string): seq<string>
    decreases |text|
  {
    if text == [] then []
    else
      FindSpec(Literal("\n", false), text, 0);
      match Find(Literal("\n", false), text, 0)
      case None => [text]
      case Some(i) => [text[..i + 1]] + ReadLines(text[i + 1..])
  }

  /**
   * Writing lines that hold no newline and reading the file back gives each
   * line with its newline, in the same order.
   */
  lemma {:induction false} ReadJoinedLines(lines: seq<string>)
    requires forall k :: 0 <= k < |lines| ==> '\n' !in lines[k]
    ensures |ReadLines(JoinLines(lines))| == |lines|
    ensures forall k :: 0 <= k < |lines| ==> ReadLines(JoinLines(lines))[k] == lines[k] + "\n"
  {
    if lines != [] {
      var text := JoinLines(lines);
      var n := |lines[0]|;
      assert text == lines[0] + "\n" + JoinLines(lines[1..]);
      assert MatchesAt(Literal("\n", false), text, n);
      forall j | 0 <= j < n ensures !MatchesAt(Literal("\n", false), text, j) {
        assert text[j] == lines[0][j];
        assert lines[0][j] in lines[0];
        assert !CharMatches(text[j + 0], "\n"[0], false);
      }
      assert Find(Literal("\n", false), text, 0) == Some(n) by {
        FindSpec(Literal("\n", false), text, 0);
        var f := Find(Literal("\n", false), text, 0);
        assert f.Some?;
        assert !(f.value < n) && !(f.value > n);
      }
      assert text[..n + 1] == lines[0] + "\n";
      assert text[n + 1..] == JoinLines(lines[1..]);
      ReadJoinedLines(lines[1..]);
    }
  }

  /** Stripping a written-and-reread line gives back an already stripped line. */
  lemma StripNewline(p: string)
    requires IsStripped(p) && '\n' !in p
    ensures Strip(p + "\n") == p
  {
    var s := p + "\n";
    if p != [] {
      assert s[0] == p[0] && s[|p| - 1] == p[|p| - 1];
      assert s[0..|p|] == p;
    }
  }
}
