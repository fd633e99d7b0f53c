/**
 * String primitives shared by the front end (JavaScript `trim`, `split`,
 * `startsWith`, `includes`) and the back end (Python `strip`, `split`,
 * `replace`, `in`, `index`). Strings are sequences of characters.
 */
module Text {
  import opened Wrappers

  /** The two string libraries whose whitespace the model distinguishes. */
  datatype Runtime = JavaScript | Python

  /**
   * ASCII whitespace as JavaScript sees it (`trim`, the regular-expression
   * class `\s`): space, tab, LF, VT, FF, CR.
   */
  predicate IsSpace(c: char) {
    c == ' ' || '\t' <= c <= '\r'
  }

  /**
   * ASCII whitespace as each runtime's stripping sees it: Python's
   * `str.isspace` also counts the separators FS, GS, RS and US
   * (U+001C to U+001F), which JavaScript does not.
   */
  predicate IsWhitespace(rt: Runtime, c: char) {
    IsSpace(c) || (rt == Python && '\U{1C}' <= c <= '\U{1F}')
  }

  predicate NoSpace(s: string) {
    forall k | 0 <= k < |s| :: !IsSpace(s[k])
  }

  /** The number of whitespace characters `s` starts with. */
  function LeadingSpaces(rt: Runtime, s: string): (n: nat)
    ensures n <= |s|
    ensures forall k | 0 <= k < n :: IsWhitespace(rt, s[k])
    ensures n == |s| || !IsWhitespace(rt, s[n])
    decreases |s|
  {
    if s != [] && IsWhitespace(rt, s[0]) then 1 + LeadingSpaces(rt, s[1..]) else 0
  }

  /** The number of whitespace characters `s` ends with. */
  function TrailingSpaces(rt: Runtime, s: string): (n: nat)
    ensures n <= |s|
    ensures forall k | |s| - n <= k < |s| :: IsWhitespace(rt, s[k])
    ensures n == |s| || !IsWhitespace(rt, s[|s| - n - 1])
    decreases |s|
  {
    if s != [] && IsWhitespace(rt, s[|s| - 1]) then 1 + TrailingSpaces(rt, s[..|s| - 1]) else 0
  }

  /** Drops leading whitespace. */
  function TrimStart(rt: Runtime, s: string): (r: string)
  {
    s[LeadingSpaces(rt, s)..]
  }

  /** Drops trailing whitespace. */
  function TrimEnd(rt: Runtime, s: string): (r: string)
  {
    s[..|s| - TrailingSpaces(rt, s)]
  }

  /** Neither the first nor the last character is whitespace. */
  predicate Trimmed(rt: Runtime, s: string) {
    s == [] || (!IsWhitespace(rt, s[0]) && !IsWhitespace(rt, s[|s| - 1]))
  }

  /** JavaScript `String.prototype.trim`, or Python `str.strip()` with no argument. */
  function Strip(rt: Runtime, s: string): (r: string)
    ensures |r| <= |s|
    ensures Trimmed(rt, r)
  {
    TrimEnd(rt, TrimStart(rt, s))
  }

  /** Strip removes exactly the whitespace border: `s` is `Strip(rt, s)` padded by whitespace on both sides. */
  lemma StripBorder(rt: Runtime, s: string)
    ensures var i, r := |s| - |TrimStart(rt, s)|, Strip(rt, s);
      && i + |r| <= |s| && s[i..i + |r|] == r
      && (forall k | 0 <= k < i :: IsWhitespace(rt, s[k]))
      && (forall k | i + |r| <= k < |s| :: IsWhitespace(rt, s[k]))
  {
    var t := TrimStart(rt, s);
    var i := |s| - |t|;
    var r := TrimEnd(rt, t);
    assert s[i..i + |r|] == t[..|r|] == r;
    forall k | i + |r| <= k < |s| ensures IsWhitespace(rt, s[k]) {
      assert s[k] == t[k - i];
    }
  }

  /** Stripping is idempotent. */
  lemma StripIdempotent(rt: Runtime, s: string)
    ensures Strip(rt, Strip(rt, s)) == Strip(rt, s)
  {
    var r := Strip(rt, s);
    if r != [] {
      assert TrimStart(rt, r) == r;
      assert TrimEnd(rt, r) == r;
    }
  }

  /** A string with no whitespace of the runtime is its own strip. */
  lemma StripNoWhitespace(rt: Runtime, s: string)
    requires forall k | 0 <= k < |s| :: !IsWhitespace(rt, s[k])
    ensures Strip(rt, s) == s
  {
    assert LeadingSpaces(rt, s) == 0 by {
      if s != [] {
        assert !IsWhitespace(rt, s[0]);
      }
    }
    assert TrimStart(rt, s) == s;
    assert TrailingSpaces(rt, s) == 0 by {
      if s != [] {
        assert !IsWhitespace(rt, s[|s| - 1]);
      }
    }
  }

  /** A string with no JavaScript whitespace is its own `trim`. */
  lemma StripNoSpace(s: string)
    requires NoSpace(s)
    ensures Strip(JavaScript, s) == s
  {
    StripNoWhitespace(JavaScript, s);
  }

  /** A leading whitespace character is dropped by the strip. */
  lemma StripLeadingWhitespace(rt: Runtime, c: char, s: string)
    requires IsWhitespace(rt, c)
    ensures Strip(rt, [c] + s) == Strip(rt, s)
  {
    assert ([c] + s)[1..] == s;
    assert TrimStart(rt, [c] + s) == TrimStart(rt, s);
  }

  /** Outside the four ASCII separators the runtimes agree on what whitespace is. */
  predicate NoSeparator(s: string) {
    forall k | 0 <= k < |s| :: !('\U{1C}' <= s[k] <= '\U{1F}')
  }

  /** Without the four ASCII separators, Python's `strip` and JavaScript's `trim` agree. */
  lemma StripRuntimesAgree(s: string)
    requires NoSeparator(s)
    ensures Strip(Python, s) == Strip(JavaScript, s)
  {
    LeadingSpacesAgree(s);
    var t := TrimStart(JavaScript, s);
    assert TrimStart(Python, s) == t;
    assert NoSeparator(t) by {
      var n := LeadingSpaces(JavaScript, s);
      forall k | 0 <= k < |t| ensures !('\U{1C}' <= t[k] <= '\U{1F}') {
        assert t[k] == s[n + k];
      }
    }
    TrailingSpacesAgree(t);
  }

  lemma {:induction false} LeadingSpacesAgree(s: string)
    requires NoSeparator(s)
    ensures LeadingSpaces(Python, s) == LeadingSpaces(JavaScript, s)
    decreases |s|
  {
    if s != [] {
      assert NoSeparator(s[1..]) by {
        forall k | 0 <= k < |s[1..]| ensures !('\U{1C}' <= s[1..][k] <= '\U{1F}') {
          assert s[1..][k] == s[k + 1];
        }
      }
      LeadingSpacesAgree(s[1..]);
    }
  }

  lemma {:induction false} TrailingSpacesAgree(s: string)
    requires NoSeparator(s)
    ensures TrailingSpaces(Python, s) == TrailingSpaces(JavaScript, s)
    decreases |s|
  {
    if s != [] {
      var init := s[..|s| - 1];
      assert NoSeparator(init) by {
        forall k | 0 <= k < |init| ensures !('\U{1C}' <= init[k] <= '\U{1F}') {
          assert init[k] == s[k];
        }
      }
      TrailingSpacesAgree(init);
    }
  }

  /**
   * A file separator before a word is stripped by Python and kept by
   * JavaScript: `"\x1cmen_jeans".strip()` is `"men_jeans"`, while
   * `trim` leaves the text as it is.
   */
  lemma SeparatorStrippedOnlyByPython(word: string)
    requires NoSpace(word) && NoSeparator(word)
    ensures Strip(Python, ['\U{1C}'] + word) == word
    ensures Strip(JavaScript, ['\U{1C}'] + word) == ['\U{1C}'] + word
  {
    StripLeadingWhitespace(Python, '\U{1C}', word);
    assert forall k | 0 <= k < |word| :: !IsWhitespace(Python, word[k]);
    StripNoWhitespace(Python, word);
    assert NoSpace(['\U{1C}'] + word) by {
      forall k | 0 <= k < |word| + 1 ensures !IsSpace((['\U{1C}'] + word)[k]) {
        if k > 0 {
          assert (['\U{1C}'] + word)[k] == word[k - 1];
        }
      }
    }
    StripNoSpace(['\U{1C}'] + word);
  }

  predicate OccursAt(s: string, pat: string, i: int) {
    0 <= i && i + |pat| <= |s| && s[i..i + |pat|] == pat
  }

  function IndexFrom(s: string, pat: string, from: nat): (r: Option<nat>)
    ensures r.Some? ==> from <= r.value && OccursAt(s, pat, r.value)
    ensures r.Some? ==> forall k | from <= k < r.value :: !OccursAt(s, pat, k)
    ensures r.None? ==> forall k | from <= k :: !OccursAt(s, pat, k)
    decreases |s| - from
  {
    if from + |pat| > |s| then None
    else if s[from..from + |pat|] == pat then Some(from)
    else IndexFrom(s, pat, from + 1)
  }

  /**
   * The leftmost occurrence of `pat` in `s`, as JavaScript `indexOf` and Python
   * `find`/`index` compute it (None where they give -1 or raise).
   */
  function IndexOf(s: string, pat: string): (r: Option<nat>)
    ensures r.Some? ==> OccursAt(s, pat, r.value)
    ensures r.Some? ==> forall k | 0 <= k < r.value :: !OccursAt(s, pat, k)
    ensures r.None? <==> forall k :: !OccursAt(s, pat, k)
  {
    IndexFrom(s, pat, 0)
  }

  /** A one-character pattern occurs exactly where that character is. */
  lemma OccursAtChar(s: string, c: char, k: int)
    ensures OccursAt(s, [c], k) <==> 0 <= k < |s| && s[k] == c
  {
    if 0 <= k < |s| {
      assert s[k..k + 1] == [s[k]];
    }
  }

  /** A one-character pattern is contained exactly when that character appears. */
  lemma ContainsChar(s: string, c: char)
    ensures Contains(s, [c]) <==> exists k | 0 <= k < |s| :: s[k] == c
  {
    if Contains(s, [c]) {
      var k := IndexOf(s, [c]).value;
      OccursAtChar(s, c, k);
    }
    if exists k | 0 <= k < |s| :: s[k] == c {
      var k :| 0 <= k < |s| && s[k] == c;
      OccursAtChar(s, c, k);
    }
  }

  /** JavaScript `includes` and Python's `pat in s`. */
  predicate Contains(s: string, pat: string) {
    IndexOf(s, pat).Some?
  }

  /** JavaScript `startsWith` and Python `startswith`. */
  predicate StartsWith(s: string, prefix: string) {
    |prefix| <= |s| && s[..|prefix|] == prefix
  }

  /** `parts` joined with `sep` between consecutive parts (JavaScript `join`, Python `str.join`). */
  function Join(parts: seq<string>, sep: string): string
    decreases |parts|
  {
    if |parts| == 0 then ""
    else if |parts| == 1 then parts[0]
    else parts[0] + sep + Join(parts[1..], sep)
  }

  /**
   * A piece that ends where the leftmost occurrence of `sep` begins: in
   * `p + sep`, the first occurrence of `sep` is the one right after `p`.
   */
  predicate EndsAtFirst(p: string, sep: string) {
    IndexOf(p + sep, sep) == Some(|p|)
  }

  /**
   * What splitting at every leftmost, non-overlapping occurrence of `sep`
   * means: the parts joined with `sep` give back `s`, every part but the last
   * stops at the first occurrence of `sep`, and the last holds none.
   */
  predicate IsSplitOf(parts: seq<string>, s: string, sep: string) {
    && |parts| >= 1
    && Join(parts, sep) == s
    && (forall k | 0 <= k < |parts| - 1 :: EndsAtFirst(parts[k], sep))
    && IndexOf(parts[|parts| - 1], sep).None?
  }

  /** JavaScript `split(sep)` and Python `split(sep)` for a non-empty separator string. */
  function Split(s: string, sep: string): (parts: seq<string>)
    requires |sep| > 0
    ensures IsSplitOf(parts, s, sep)
    decreases |s|
  {
    match IndexOf(s, sep)
    case None => [s]
    case Some(i) =>
      FirstOccurrenceCut(s, sep, i);
      CutAt(s, sep, i);
      var rest := Split(s[i + |sep|..], sep);
      SplitCons(s[..i], rest, s[i + |sep|..], s, sep);
      [s[..i]] + rest
  }

  /** Text with `sep` at position `i` is the part before it, `sep`, and the part after it. */
  lemma CutAt(s: string, sep: string, i: nat)
    requires OccursAt(s, sep, i)
    ensures s == s[..i] + sep + s[i + |sep|..]
  {
    assert s[i..i + |sep|] == sep;
    assert s == s[..i] + s[i..i + |sep|] + s[i + |sep|..];
  }

  /** A piece ending at the first separator, the separator, and a split of the rest make a split of the whole. */
  lemma SplitCons(p: string, rest: seq<string>, t: string, s: string, sep: string)
    requires EndsAtFirst(p, sep) && IsSplitOf(rest, t, sep)
    requires s == p + sep + t
    ensures IsSplitOf([p] + rest, s, sep)
  {
    var parts := [p] + rest;
    assert parts[1..] == rest;
    assert Join(parts, sep) == p + sep + Join(rest, sep);
    assert Join(parts, sep) == s;
    assert parts[|parts| - 1] == rest[|rest| - 1];
    assert IndexOf(parts[|parts| - 1], sep).None?;
    forall k | 0 <= k < |parts| - 1 ensures EndsAtFirst(parts[k], sep) {
      if k > 0 {
        assert parts[k] == rest[k - 1];
      }
    }
  }

  lemma FirstOccurrenceCut(s: string, sep: string, i: nat)
    requires IndexOf(s, sep) == Some(i)
    ensures EndsAtFirst(s[..i], sep)
  {
    var t := s[..i] + sep;
    assert t == s[..i + |sep|];
    forall k | 0 <= k < i ensures !OccursAt(t, sep, k) {
      assert forall j | k <= j < k + |sep| :: t[j] == s[j];
      assert t[k..k + |sep|] == s[k..k + |sep|];
      assert !OccursAt(s, sep, k);
    }
    assert t[i..i + |sep|] == sep;
    assert OccursAt(t, sep, i);
  }

  /** An occurrence of `sep` inside `p + sep + rest` that starts before `|p|` lies inside `p + sep`. */
  lemma EarlyOccurrence(p: string, sep: string, rest: string, k: nat)
    requires k < |p|
    requires OccursAt(p + sep + rest, sep, k)
    ensures OccursAt(p + sep, sep, k)
  {
    var t := p + sep + rest;
    assert (p + sep + rest)[..|p| + |sep|] == p + sep;
    assert t[k..k + |sep|] == (p + sep)[k..k + |sep|];
  }

  /** When a decomposition has two or more parts, its first part ends at the leftmost separator of `s`. */
  lemma HeadEndsAtFirst(parts: seq<string>, s: string, sep: string)
    requires IsSplitOf(parts, s, sep) && |parts| >= 2
    ensures IndexOf(s, sep) == Some(|parts[0]|)
    ensures s == parts[0] + sep + Join(parts[1..], sep)
  {
    var p0, rest := parts[0], Join(parts[1..], sep);
    assert s == p0 + sep + rest;
    assert s[|p0|..|p0| + |sep|] == sep;
    assert OccursAt(s, sep, |p0|);
    assert EndsAtFirst(parts[0], sep);
    forall k | 0 <= k < |p0| ensures !OccursAt(s, sep, k) {
      if OccursAt(s, sep, k) {
        EarlyOccurrence(p0, sep, rest, k);
      }
    }
  }

  /**
   * The splitting specification determines the parts: any decomposition that
   * satisfies IsSplitOf is the one Split computes.
   */
  lemma {:induction false} SplitUnique(parts: seq<string>, s: string, sep: string)
    requires |sep| > 0
    requires IsSplitOf(parts, s, sep)
    ensures parts == Split(s, sep)
    decreases |s|
  {
    if |parts| == 1 {
      assert s == parts[0];
    } else {
      var rest := Join(parts[1..], sep);
      SplitStep(parts, s, sep);
      SplitUnique(parts[1..], rest, sep);
      assert parts == [parts[0]] + parts[1..];
    }
  }

  /** Past the first part, the rest of a decomposition is a decomposition of the rest of the text. */
  lemma SplitStep(parts: seq<string>, s: string, sep: string)
    requires |sep| > 0
    requires IsSplitOf(parts, s, sep) && |parts| >= 2
    ensures |Join(parts[1..], sep)| < |s|
    ensures IsSplitOf(parts[1..], Join(parts[1..], sep), sep)
    ensures Split(s, sep) == [parts[0]] + Split(Join(parts[1..], sep), sep)
  {
    HeadEndsAtFirst(parts, s, sep);
    var p0, rest := parts[0], Join(parts[1..], sep);
    assert s[..|p0|] == p0;
    assert s[|p0| + |sep|..] == rest;
    assert forall k | 0 <= k < |parts| - 1 :: parts[1..][k] == parts[k + 1];
  }

  /** The leftmost, non-overlapping occurrences of `sep` in `s`, counted by a left-to-right scan. */
  function Occurrences(s: string, sep: string): nat
    requires |sep| > 0
    decreases |s|
  {
    if |s| < |sep| then 0
    else if s[..|sep|] == sep then 1 + Occurrences(s[|sep|..], sep)
    else Occurrences(s[1..], sep)
  }

  /** A prefix holding no start of `sep` adds nothing to the count. */
  lemma {:induction false} OccurrencesSkip(s: string, sep: string, i: nat)
    requires |sep| > 0 && i <= |s|
    requires forall k | 0 <= k < i :: !OccursAt(s, sep, k)
    ensures Occurrences(s, sep) == Occurrences(s[i..], sep)
    decreases i
  {
    if i > 0 && |s| >= |sep| {
      assert !OccursAt(s, sep, 0);
      forall k | 0 <= k < i - 1 ensures !OccursAt(s[1..], sep, k) {
        assert !OccursAt(s, sep, k + 1);
        if k + |sep| <= |s| - 1 {
          assert s[1..][k..k + |sep|] == s[k + 1..k + 1 + |sep|];
        }
      }
      OccurrencesSkip(s[1..], sep, i - 1);
      assert s[1..][i - 1..] == s[i..];
    }
  }

  /** Splitting gives one more part than there are separators. */
  lemma {:induction false} SplitCount(s: string, sep: string)
    requires |sep| > 0
    ensures |Split(s, sep)| == Occurrences(s, sep) + 1
    decreases |s|
  {
    match IndexOf(s, sep)
    case None =>
      OccurrencesSkip(s, sep, |s|);
      assert s[|s|..] == "";
    case Some(i) =>
      OccurrencesSkip(s, sep, i);
      var t := s[i..];
      assert t[..|sep|] == sep;
      assert t[|sep|..] == s[i + |sep|..];
      SplitCount(s[i + |sep|..], sep);
  }

  /** Python `s.replace(pat, "")`: every leftmost, non-overlapping occurrence of `pat` removed. */
  function RemoveAll(s: string, pat: string): (r: string)
    requires |pat| > 0
  {
    Join(Split(s, pat), "")
  }

  /** Without an occurrence of the pattern, removal changes nothing. */
  lemma RemoveAllAbsent(s: string, pat: string)
    requires |pat| > 0
    requires !Contains(s, pat)
    ensures RemoveAll(s, pat) == s
  {
    assert Split(s, pat) == [s];
  }

  /** The text before the leftmost occurrence of `sep`, or all of it when there is none. */
  function Before(s: string, sep: string): (r: string)
    ensures StartsWith(s, r)
    ensures !Contains(r, sep) || |sep| == 0
  {
    match IndexOf(s, sep)
    case None => s
    case Some(i) =>
      assert !Contains(s[..i], sep) || |sep| == 0 by {
        if |sep| > 0 {
          FirstOccurrenceCut(s, sep, i);
          NoEarlierOccurrence(s[..i], sep);
        }
      }
      s[..i]
  }

  /** A piece that ends at the first occurrence of `sep` does not itself contain `sep`. */
  lemma NoEarlierOccurrence(p: string, sep: string)
    requires |sep| > 0 && EndsAtFirst(p, sep)
    ensures !Contains(p, sep)
  {
    forall k ensures !OccursAt(p, sep, k) {
      assert OccursAt(p, sep, k) ==> OccursAt(p + sep, sep, k) by {
        if 0 <= k && k + |sep| <= |p| {
          assert (p + sep)[k..k + |sep|] == p[k..k + |sep|];
        }
      }
    }
  }

  /** The first part of a split is everything before the leftmost separator. */
  lemma SplitHead(s: string, sep: string)
    requires |sep| > 0
    ensures Split(s, sep)[0] == Before(s, sep)
    ensures !Contains(s, sep) <==> Split(s, sep) == [s]
  {
  }

  /**
   * When `sep` occurs, the split has a second part: the text after the
   * leftmost separator, up to the next one or to the end.
   */
  lemma SplitSecond(s: string, sep: string)
    requires |sep| > 0 && Contains(s, sep)
    ensures |Split(s, sep)| >= 2
    ensures Split(s, sep)[1] == Before(s[IndexOf(s, sep).value + |sep|..], sep)
  {
    var i := IndexOf(s, sep).value;
    SplitHead(s[i + |sep|..], sep);
  }
}
