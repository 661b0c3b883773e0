/**
 * The spoiler sanitiser of src/utils/spoilerUtils.ts.
 *
 * Every regular expression the sanitiser uses is a plain concatenation of
 * atoms: `\b`, `\d{1,2}`, `\d+`, `\s*` and character classes (a literal
 * character is a one-letter class). An atom offers the positions where it
 * may end, in the order a backtracking engine tries them (greedy: longest
 * first); a pattern matches at a position when some path through the atoms
 * succeeds, and the match is the FIRST successful path in that order.
 */
module Spoiler {
  import opened Wrappers
  import opened Text

  datatype Atom =
    | Boundary          // \b
    | Digits12          // \d{1,2}
    | DigitsPlus        // \d+
    | Spaces            // \s*
    | OneOf(cs: string) // [...] or a literal character

  /** A regular expression that is a concatenation of atoms. */
  datatype Pattern = Empty | Then(head: Atom, rest: Pattern)

  /** `\w` without the `u` flag: ASCII letters, digits and underscore. */
  predicate IsWordChar(c: char) {
    ('a' <= c <= 'z') || ('A' <= c <= 'Z') || IsDigit(c) || c == '_'
  }

  /** `\s`: ECMAScript WhiteSpace and LineTerminator code points. */
  predicate IsSpace(c: char) {
    || c == '\t' || c == '\n' || c == '\U{000B}' || c == '\U{000C}' || c == '\r' || c == ' '
    || c == '\U{00A0}' || c == '\U{1680}' || ('\U{2000}' <= c <= '\U{200A}')
    || c == '\U{2028}' || c == '\U{2029}' || c == '\U{202F}' || c == '\U{205F}'
    || c == '\U{3000}' || c == '\U{FEFF}'
  }

  /** `\b` at position i: exactly one of the neighbours is a word character. */
  predicate IsBoundary(s: string, i: nat)
    requires i <= |s|
  {
    (i > 0 && IsWordChar(s[i - 1])) != (i < |s| && IsWordChar(s[i]))
  }

  function SpaceRun(s: string, i: nat): (n: nat)
    requires i <= |s|
    ensures i + n <= |s|
    ensures forall k :: i <= k < i + n ==> IsSpace(s[k])
    ensures i + n < |s| ==> !IsSpace(s[i + n])
    decreases |s| - i
  {
    if i < |s| && IsSpace(s[i]) then 1 + SpaceRun(s, i + 1) else 0
  }

  /** hi, hi-1, ..., lo: the ends of a greedy quantifier, most preferred first. */
  function Downward(lo: nat, hi: nat): (r: seq<nat>)
    requires lo <= hi
    ensures |r| == hi - lo + 1
    ensures forall k :: 0 <= k < |r| ==> r[k] == hi - k
    decreases hi - lo
  {
    if lo == hi then [hi] else [hi] + Downward(lo, hi - 1)
  }

  predicate IsDigitAtom(a: Atom) { a == Digits12 || a == DigitsPlus }

  predicate HasDigitAtom(p: Pattern) {
    match p
    case Empty => false
    case Then(a, rest) => IsDigitAtom(a) || HasDigitAtom(rest)
  }

  /** The positions where atom `a`, started at i, may end, in the order they are tried. */
  function AtomEnds(a: Atom, s: string, i: nat): (r: seq<nat>)
    requires i <= |s|
    ensures forall k :: 0 <= k < |r| ==> i <= r[k] <= |s|
    ensures IsDigitAtom(a) ==> forall k :: 0 <= k < |r| ==> i < r[k] && IsDigit(s[i])
  {
    match a
    case Boundary => if IsBoundary(s, i) then [i] else []
    case Digits12 =>
      var n := DigitRun(s, i);
      if n == 0 then [] else if n == 1 then [i + 1] else [i + 2, i + 1]
    case DigitsPlus =>
      var n := DigitRun(s, i);
      if n == 0 then [] else Downward(i + 1, i + n)
    case Spaces => Downward(i, i + SpaceRun(s, i))
    case OneOf(cs) => if i < |s| && s[i] in cs then [i + 1] else []
  }

  /** The end of the first successful match of `p` started at i, if any. */
  function Match(p: Pattern, s: string, i: nat): (r: Option<nat>)
    requires i <= |s|
    ensures r.Some? ==> i <= r.value <= |s|
    ensures r.Some? && HasDigitAtom(p) ==> i < r.value
    decreases p, 0, 0
  {
    match p
    case Empty => Some(i)
    // a digit atom consumes at least one character
    case Then(a, rest) => FirstOf(rest, s, AtomEnds(a, s, i), if IsDigitAtom(a) then i + 1 else i)
  }

  /**
   * Backtracking over the alternative positions `js` of one atom, each at
   * least `lo`: the first alternative from which the rest `q` of the
   * pattern matches decides.
   */
  function FirstOf(q: Pattern, s: string, js: seq<nat>, lo: nat): (r: Option<nat>)
    requires forall k :: 0 <= k < |js| ==> lo <= js[k] <= |s|
    ensures r.Some? ==> lo <= r.value <= |s|
    ensures r.Some? && HasDigitAtom(q) ==> lo < r.value
    decreases q, 1, |js|
  {
    if js == [] then None
    else
      var here := Match(q, s, js[0]);
      if here.Some? then here else FirstOf(q, s, js[1..], lo)
  }

  /** FirstOf fails exactly when the rest of the pattern fails from every alternative. */
  lemma {:induction false} FirstOfNone(q: Pattern, s: string, js: seq<nat>, lo: nat)
    requires forall k :: 0 <= k < |js| ==> lo <= js[k] <= |s|
    ensures FirstOf(q, s, js, lo).None? <==> forall k :: 0 <= k < |js| ==> Match(q, s, js[k]).None?
    decreases |js|
  {
    if js != [] {
      FirstOfNone(q, s, js[1..], lo);
      assert forall k :: 1 <= k < |js| ==> js[k] == js[1..][k - 1];
    }
  }

  /** FirstOf returns the match from the first alternative that succeeds. */
  lemma {:induction false} FirstOfPicksFirst(q: Pattern, s: string, js: seq<nat>, lo: nat, k: nat)
    requires forall j :: 0 <= j < |js| ==> lo <= js[j] <= |s|
    requires k < |js| && Match(q, s, js[k]).Some?
    requires forall j :: 0 <= j < k ==> Match(q, s, js[j]).None?
    ensures FirstOf(q, s, js, lo) == Match(q, s, js[k])
    decreases k
  {
    if k > 0 {
      assert forall j :: 0 <= j < k - 1 ==> js[1..][j] == js[j + 1];
      FirstOfPicksFirst(q, s, js[1..], lo, k - 1);
    }
  }

  // ----- global replace -----

  datatype Span = Span(start: nat, end: nat)

  /** The leftmost position at or after `from` where `p` matches, and the match's end. */
  function FindFrom(p: Pattern, s: string, from: nat): (r: Option<Span>)
    requires from <= |s|
    ensures r.Some? ==> from <= r.value.start <= |s| && Match(p, s, r.value.start) == Some(r.value.end)
    decreases |s| - from
  {
    var here := Match(p, s, from);
    if here.Some? then Some(Span(from, here.value))
    else if from == |s| then None
    else FindFrom(p, s, from + 1)
  }

  /** The found match is the leftmost one, and None means that `p` matches nowhere from `from` on. */
  lemma {:induction false} FindFromLeftmost(p: Pattern, s: string, from: nat)
    requires from <= |s|
    ensures FindFrom(p, s, from).Some? ==>
      forall q :: from <= q < FindFrom(p, s, from).value.start ==> Match(p, s, q).None?
    ensures FindFrom(p, s, from).None? ==> forall q :: from <= q <= |s| ==> Match(p, s, q).None?
    decreases |s| - from
  {
    if Match(p, s, from).None? && from < |s| {
      FindFromLeftmost(p, s, from + 1);
    }
  }

  /** Spans that start at or after `from`, each ending no later than the next one starts. */
  predicate Chain(spans: seq<Span>, from: nat, n: nat) {
    if spans == [] then from <= n
    else from <= spans[0].start <= spans[0].end <= n && Chain(spans[1..], spans[0].end, n)
  }

  /**
   * The matches a global regular expression finds from `from` on: the
   * leftmost match, then the leftmost one after its end, and so on.
   */
  function Scan(p: Pattern, s: string, from: nat): (spans: seq<Span>)
    requires HasDigitAtom(p) && from <= |s|
    ensures Chain(spans, from, |s|)
    decreases |s| - from
  {
    match FindFrom(p, s, from)
    case None => []
    case Some(m) => [m] + Scan(p, s, m.end)
  }

  /** `s` from `from` on, with the k-th span replaced by reps[k]. */
  function Splice(s: string, from: nat, spans: seq<Span>, reps: seq<string>): string
    requires Chain(spans, from, |s|) && |reps| == |spans|
    decreases |spans|
  {
    if spans == [] then s[from..]
    else s[from..spans[0].start] + reps[0] + Splice(s, spans[0].end, spans[1..], reps[1..])
  }

  /** `s.replace(/p/g, rep)` for a replacement without `$` patterns. */
  function ReplaceAll(p: Pattern, s: string, rep: string): string
    requires HasDigitAtom(p)
  {
    ReplaceFrom(p, s, 0, rep)
  }

  /** The global replacement applied to `s` from position `from` on. */
  function ReplaceFrom(p: Pattern, s: string, from: nat, rep: string): string
    requires HasDigitAtom(p) && from <= |s|
  {
    var spans := Scan(p, s, from);
    Splice(s, from, spans, Each(spans, rep))
  }

  /** One step of the global replacement: copy up to the leftmost match, replace it, go on after it. */
  lemma ReplaceFromStep(p: Pattern, s: string, from: nat, rep: string)
    requires HasDigitAtom(p) && from <= |s|
    ensures FindFrom(p, s, from).None? ==> ReplaceFrom(p, s, from, rep) == s[from..]
    ensures FindFrom(p, s, from).Some? ==>
      var m := FindFrom(p, s, from).value;
      ReplaceFrom(p, s, from, rep) == s[from..m.start] + rep + ReplaceFrom(p, s, m.end, rep)
  {
    var spans := Scan(p, s, from);
    if FindFrom(p, s, from).Some? {
      var m := FindFrom(p, s, from).value;
      assert spans[0] == m && spans[1..] == Scan(p, s, m.end);
      assert Each(spans, rep)[1..] == Each(spans[1..], rep);
    }
  }

  /** The same replacement for every span. */
  function Each(spans: seq<Span>, x: string): (r: seq<string>)
    ensures |r| == |spans| && forall k :: 0 <= k < |r| ==> r[k] == x
  {
    if spans == [] then [] else [x] + Each(spans[1..], x)
  }

  // ----- the sanitiser -----

  const ScorePatterns: seq<Pattern> := [
    // \b\d{1,2}[-:]\d{1,2}\b
    Then(Boundary, Then(Digits12, Then(OneOf("-:"), Then(Digits12, Then(Boundary, Empty))))),
    // \b\d{1,2}\s*[-:]\s*\d{1,2}\b
    Then(Boundary, Then(Digits12, Then(Spaces, Then(OneOf("-:"), Then(Spaces, Then(Digits12,
      Then(Boundary, Empty))))))),
    // \b\d{1,2}\s*to\s*\d{1,2}\b with the i flag
    Then(Boundary, Then(Digits12, Then(Spaces, Then(OneOf("tT"), Then(OneOf("oO"), Then(Spaces,
      Then(Digits12, Then(Boundary, Empty)))))))),
    // \[\d{1,2}[-:]\d{1,2}\]
    Then(OneOf("["), Then(Digits12, Then(OneOf("-:"), Then(Digits12, Then(OneOf("]"), Empty))))),
    // \(\d{1,2}[-:]\d{1,2}\)
    Then(OneOf("("), Then(Digits12, Then(OneOf("-:"), Then(Digits12, Then(OneOf(")"), Empty))))),
    // \b\d{1,2}\s*\(\d{1,2}\)
    Then(Boundary, Then(Digits12, Then(Spaces, Then(OneOf("("), Then(Digits12, Then(OneOf(")"),
      Empty)))))),
    // \b\d{1,2}\s*\[\d{1,2}\]
    Then(Boundary, Then(Digits12, Then(Spaces, Then(OneOf("["), Then(Digits12, Then(OneOf("]"),
      Empty)))))),
    // \(\d{1,2}\)
    Then(OneOf("("), Then(Digits12, Then(OneOf(")"), Empty))),
    // \[\d{1,2}\]
    Then(OneOf("["), Then(Digits12, Then(OneOf("]"), Empty)))
  ]

  /** `__SCORE_` (one-letter classes) followed by `rest`. */
  function ScoreTag(rest: Pattern): Pattern {
    Then(OneOf("_"), Then(OneOf("_"), Then(OneOf("S"), Then(OneOf("C"), Then(OneOf("O"),
      Then(OneOf("R"), Then(OneOf("E"), Then(OneOf("_"), rest))))))))
  }

  /** `__SCORE_\d+__` */
  const PlaceholderPattern: Pattern := ScoreTag(Then(DigitsPlus, Then(OneOf("_"), Then(OneOf("_"), Empty))))

  /** `[\[\(]__SCORE_\d+__[\]\)]` */
  const BracketedPlaceholder: Pattern :=
    Then(OneOf("[("), ScoreTag(Then(DigitsPlus, Then(OneOf("_"), Then(OneOf("_"), Then(OneOf("])"), Empty))))))

  function Placeholder(index: nat): string {
    "__SCORE_" + NatToString(index) + "__"
  }

  lemma PatternsHaveDigits()
    ensures forall k :: 0 <= k < |ScorePatterns| ==> HasDigitAtom(ScorePatterns[k])
    ensures HasDigitAtom(PlaceholderPattern) && HasDigitAtom(BracketedPlaceholder)
  {
    // in every score pattern the second atom is \d{1,2}
    forall k | 0 <= k < |ScorePatterns| ensures HasDigitAtom(ScorePatterns[k]) {
      assert k == 0 || k == 1 || k == 2 || k == 3 || k == 4 || k == 5 || k == 6 || k == 7 || k == 8;
      assert ScorePatterns[k].rest.head == Digits12;
    }
  }

  /** The placeholder passes from the k-th score pattern on, applied to `text`. */
  function PlaceholderPasses(text: string, k: nat): string
    requires k <= |ScorePatterns|
    decreases |ScorePatterns| - k
  {
    if k == |ScorePatterns| then text
    else
      PatternsHaveDigits();
      PlaceholderPasses(ReplaceAll(ScorePatterns[k], text, Placeholder(k)), k + 1)
  }

  /** sanitizeFootballScore: the placeholder passes, the bracket collapse, the final pass. */
  function Sanitize(text: string): string {
    PatternsHaveDigits();
    var placed := PlaceholderPasses(text, 0);
    ReplaceAll(PlaceholderPattern, ReplaceAll(BracketedPlaceholder, placed, "***"), "***")
  }

  // ----- properties -----

  /** A pattern containing a digit atom never matches text without digits. */
  lemma {:induction false} NoDigitNoMatch(p: Pattern, s: string, i: nat)
    requires NoDigit(s) && HasDigitAtom(p) && i <= |s|
    ensures Match(p, s, i).None?
    decreases p
  {
    match p
    case Then(a, rest) =>
      var ends := AtomEnds(a, s, i);
      if IsDigitAtom(a) {
        assert ends == [];
      } else {
        forall k | 0 <= k < |ends| ensures Match(rest, s, ends[k]).None? {
          NoDigitNoMatch(rest, s, ends[k]);
        }
        FirstOfNone(rest, s, ends, i);
      }
  }

  /** Where a pattern matches nowhere, replacing all its matches changes nothing. */
  lemma ReplaceAllNoMatch(p: Pattern, s: string, rep: string)
    requires HasDigitAtom(p)
    requires forall q :: 0 <= q <= |s| ==> Match(p, s, q).None?
    ensures ReplaceAll(p, s, rep) == s
  {
    assert FindFrom(p, s, 0).None?;
    assert Scan(p, s, 0) == [];
  }

  lemma {:induction false} PassesNoMatch(s: string, k: nat)
    requires k <= |ScorePatterns|
    requires forall j, q :: k <= j < |ScorePatterns| && 0 <= q <= |s| ==> Match(ScorePatterns[j], s, q).None?
    ensures PlaceholderPasses(s, k) == s
    decreases |ScorePatterns| - k
  {
    if k < |ScorePatterns| {
      PatternsHaveDigits();
      ReplaceAllNoMatch(ScorePatterns[k], s, Placeholder(k));
      PassesNoMatch(s, k + 1);
    }
  }

  /** Text without an ASCII digit is returned unchanged. */
  lemma NoDigitUnchanged(s: string)
    requires NoDigit(s)
    ensures Sanitize(s) == s
  {
    PatternsHaveDigits();
    forall j, q | 0 <= j < |ScorePatterns| && 0 <= q <= |s| ensures Match(ScorePatterns[j], s, q).None? {
      NoDigitNoMatch(ScorePatterns[j], s, q);
    }
    PassesNoMatch(s, 0);
    forall q | 0 <= q <= |s| ensures Match(BracketedPlaceholder, s, q).None? {
      NoDigitNoMatch(BracketedPlaceholder, s, q);
    }
    ReplaceAllNoMatch(BracketedPlaceholder, s, "***");
    forall q | 0 <= q <= |s| ensures Match(PlaceholderPattern, s, q).None? {
      NoDigitNoMatch(PlaceholderPattern, s, q);
    }
    ReplaceAllNoMatch(PlaceholderPattern, s, "***");
  }

  lemma EmptyUnchanged()
    ensures Sanitize("") == ""
  {
    NoDigitUnchanged("");
  }

  /** The text of each span, in order. */
  function Originals(s: string, from: nat, spans: seq<Span>): (r: seq<string>)
    requires Chain(spans, from, |s|)
    ensures |r| == |spans|
    decreases |spans|
  {
    if spans == [] then [] else [s[spans[0].start..spans[0].end]] + Originals(s, spans[0].end, spans[1..])
  }

  /**
   * Splicing every span's own text back gives the input: outside the spans,
   * Splice copies the text verbatim and in order.
   */
  lemma {:induction false} SpliceOriginals(s: string, from: nat, spans: seq<Span>)
    requires Chain(spans, from, |s|)
    ensures Splice(s, from, spans, Originals(s, from, spans)) == s[from..]
    decreases |spans|
  {
    if spans != [] {
      var m := spans[0];
      SpliceOriginals(s, m.end, spans[1..]);
      assert s[from..] == s[from..m.start] + s[m.start..m.end] + s[m.end..];
    }
  }

  /**
   * Splicing each match Scan finds with its own text gives the input back;
   * ReplaceAll splices the replacement into exactly those spans, so it
   * changes the text only inside them.
   */
  lemma ReplaceAllOnlyInMatches(p: Pattern, s: string, rep: string)
    requires HasDigitAtom(p)
    ensures Splice(s, 0, Scan(p, s, 0), Originals(s, 0, Scan(p, s, 0))) == s
  {
    SpliceOriginals(s, 0, Scan(p, s, 0));
  }

  /** `w` is a whole placeholder `__SCORE_<digits>__` (at least one digit). */
  predicate IsPlaceholder(w: string) {
    |w| >= 11 && w[..8] == "__SCORE_" && AllDigits(w[8..|w| - 2]) && w[|w| - 2..] == "__"
  }

  predicate HasPlaceholder(t: string) {
    exists i, j | 0 <= i <= j <= |t| :: IsPlaceholder(t[i..j])
  }

  lemma PlaceholderIsPlaceholder(index: nat)
    ensures IsPlaceholder(Placeholder(index))
  {
    var w := Placeholder(index);
    assert w[..8] == "__SCORE_";
    assert w[8..|w| - 2] == NatToString(index);
    assert w[|w| - 2..] == "__";
  }

  /** No character of a placeholder is an asterisk. */
  lemma PlaceholderHasNoStar(w: string, k: nat)
    requires IsPlaceholder(w) && k < |w|
    ensures w[k] != '*'
  {
    if k < 8 {
      assert w[k] == w[..8][k];
    } else if k < |w| - 2 {
      assert w[k] == w[8..|w| - 2][k - 8];
    } else {
      assert w[k] == w[|w| - 2..][k - (|w| - 2)];
    }
  }

  /** A one-letter step: a class atom that accepts t[x] hands over to the rest at x + 1. */
  lemma OneOfStep(cs: string, rest: Pattern, t: string, x: nat)
    requires x < |t| && t[x] in cs
    ensures Match(Then(OneOf(cs), rest), t, x) == Match(rest, t, x + 1)
  {
    var ends := AtomEnds(OneOf(cs), t, x);
    assert ends == [x + 1];
    assert Match(Then(OneOf(cs), rest), t, x) == FirstOf(rest, t, ends, x);
    assert ends[1..] == [];
    assert FirstOf(rest, t, ends[1..], x) == None;
  }

  /** The characters of a placeholder occurrence at [i, j) of t. */
  lemma PlaceholderChars(t: string, i: nat, j: nat)
    requires i <= j <= |t| && IsPlaceholder(t[i..j])
    ensures i + 11 <= j
    ensures t[i] == '_' && t[i + 1] == '_' && t[i + 2] == 'S' && t[i + 3] == 'C'
    ensures t[i + 4] == 'O' && t[i + 5] == 'R' && t[i + 6] == 'E' && t[i + 7] == '_'
    ensures forall k :: i + 8 <= k < j - 2 ==> IsDigit(t[k])
    ensures t[j - 2] == '_' && t[j - 1] == '_'
  {
    var w := t[i..j];
    var tag := w[..8];
    assert tag == "__SCORE_";
    assert t[i] == tag[0] && t[i + 1] == tag[1] && t[i + 2] == tag[2] && t[i + 3] == tag[3];
    assert t[i + 4] == tag[4] && t[i + 5] == tag[5] && t[i + 6] == tag[6] && t[i + 7] == tag[7];
    var ds := w[8..|w| - 2];
    assert AllDigits(ds);
    forall k | i + 8 <= k < j - 2 ensures IsDigit(t[k]) {
      assert t[k] == ds[k - i - 8];
    }
    var tail := w[|w| - 2..];
    assert tail == "__";
    assert t[j - 2] == tail[0] && t[j - 1] == tail[1];
  }

  /** `\d+__` followed by `after` matches a run of digits and two underscores, then `after`. */
  lemma DigitsThenUnderscores(after: Pattern, t: string, x: nat, j: nat)
    requires x + 2 < j <= |t| && t[j - 2] == '_' && t[j - 1] == '_'
    requires forall k :: x <= k < j - 2 ==> IsDigit(t[k])
    requires Match(after, t, j).Some?
    ensures Match(Then(DigitsPlus, Then(OneOf("_"), Then(OneOf("_"), after))), t, x) == Match(after, t, j)
  {
    var tail := Then(OneOf("_"), Then(OneOf("_"), after));
    TwoUnderscores(after, t, j);
    var ends := LongestDigitRun(t, x, j - 2);
    FirstOfPicksFirst(tail, t, ends, x + 1, 0);
    assert Match(Then(DigitsPlus, tail), t, x) == FirstOf(tail, t, ends, x + 1);
  }

  lemma TwoUnderscores(after: Pattern, t: string, j: nat)
    requires 2 <= j <= |t| && t[j - 2] == '_' && t[j - 1] == '_'
    ensures Match(Then(OneOf("_"), Then(OneOf("_"), after)), t, j - 2) == Match(after, t, j)
  {
    OneOfStep("_", after, t, j - 1);
    OneOfStep("_", Then(OneOf("_"), after), t, j - 2);
  }

  /** `\d+` over the digit run [x, e) tries the whole run first. */
  lemma LongestDigitRun(t: string, x: nat, e: nat) returns (ends: seq<nat>)
    requires x < e <= |t| && (e == |t| || !IsDigit(t[e]))
    requires forall k :: x <= k < e ==> IsDigit(t[k])
    ensures ends == AtomEnds(DigitsPlus, t, x) && |ends| > 0 && ends[0] == e
  {
    DigitRunExact(t, x, e);
    ends := AtomEnds(DigitsPlus, t, x);
  }

  /** A placeholder at [i, j) takes the tag, the digits and the underscores, then `after` goes on at j. */
  lemma MatchesTagged(after: Pattern, t: string, i: nat, j: nat)
    requires i <= j <= |t| && IsPlaceholder(t[i..j])
    requires Match(after, t, j).Some?
    ensures Match(ScoreTag(Then(DigitsPlus, Then(OneOf("_"), Then(OneOf("_"), after)))), t, i) == Match(after, t, j)
  {
    PlaceholderChars(t, i, j);
    var digits := Then(DigitsPlus, Then(OneOf("_"), Then(OneOf("_"), after)));
    DigitsThenUnderscores(after, t, i + 8, j);
    var p7 := Then(OneOf("_"), digits);
    var p6 := Then(OneOf("E"), p7);
    var p5 := Then(OneOf("R"), p6);
    var p4 := Then(OneOf("O"), p5);
    var p3 := Then(OneOf("C"), p4);
    var p2 := Then(OneOf("S"), p3);
    var p1 := Then(OneOf("_"), p2);
    assert ScoreTag(digits) == Then(OneOf("_"), p1);
    OneOfStep("_", digits, t, i + 7);
    OneOfStep("E", p7, t, i + 6);
    OneOfStep("R", p6, t, i + 5);
    OneOfStep("O", p5, t, i + 4);
    OneOfStep("C", p4, t, i + 3);
    OneOfStep("S", p3, t, i + 2);
    OneOfStep("_", p2, t, i + 1);
    OneOfStep("_", p1, t, i);
  }

  /** The final pattern finds every placeholder occurrence, and exactly to its end. */
  lemma MatchesPlaceholder(t: string, i: nat, j: nat)
    requires i <= j <= |t| && IsPlaceholder(t[i..j])
    ensures Match(PlaceholderPattern, t, i) == Some(j)
  {
    MatchesTagged(Empty, t, i, j);
  }

  /** A placeholder in gap + "***" + rest lies wholly inside the gap or wholly inside the rest. */
  lemma PlaceholderAroundStars(gap: string, rest: string, i: nat, j: nat)
    requires i <= j <= |gap| + 3 + |rest|
    requires IsPlaceholder((gap + "***" + rest)[i..j])
    ensures j <= |gap| || |gap| + 3 <= i
    ensures j <= |gap| ==> (gap + "***" + rest)[i..j] == gap[i..j]
    ensures |gap| + 3 <= i ==> (gap + "***" + rest)[i..j] == rest[i - |gap| - 3..j - |gap| - 3]
  {
    var out := gap + "***" + rest;
    if j > |gap| && i < |gap| + 3 {
      var k := if i < |gap| then |gap| else i;
      assert out[k] == '*';
      assert out[i..j][k - i] == out[k];
      PlaceholderHasNoStar(out[i..j], k - i);
    }
  }

  /** A stretch of t where the final pattern matches nowhere holds no placeholder. */
  lemma NoMatchNoPlaceholder(t: string, from: nat, stop: nat)
    requires from <= stop <= |t|
    requires forall k :: from <= k < stop ==> Match(PlaceholderPattern, t, k).None?
    ensures !HasPlaceholder(t[from..stop])
  {
    var g := t[from..stop];
    forall i, j | 0 <= i <= j <= |g| ensures !IsPlaceholder(g[i..j]) {
      if IsPlaceholder(g[i..j]) {
        SliceOfSlice(t, from, stop, i, j);
        MatchesPlaceholder(t, from + i, from + j);
      }
    }
  }

  lemma SliceOfSlice(t: string, from: nat, stop: nat, i: nat, j: nat)
    requires from <= stop <= |t| && i <= j <= stop - from
    ensures t[from..stop][i..j] == t[from + i..from + j]
  {
    assert forall k | 0 <= k < j - i :: t[from..stop][i..j][k] == t[from + i..from + j][k];
  }

  /** Joining two placeholder-free strings around "***" makes no placeholder. */
  lemma StarsJoin(gap: string, rest: string)
    requires !HasPlaceholder(gap) && !HasPlaceholder(rest)
    ensures !HasPlaceholder(gap + "***" + rest)
  {
    var out := gap + "***" + rest;
    forall i, j | 0 <= i <= j <= |out| ensures !IsPlaceholder(out[i..j]) {
      if IsPlaceholder(out[i..j]) {
        PlaceholderAroundStars(gap, rest, i, j);
      }
    }
  }

  /** The output of the final pass from `from` on: no placeholder in it. */
  lemma {:induction false} FinalPassFrom(t: string, from: nat)
    requires from <= |t|
    ensures HasDigitAtom(PlaceholderPattern)
    ensures !HasPlaceholder(ReplaceFrom(PlaceholderPattern, t, from, "***"))
    decreases |t| - from
  {
    PatternsHaveDigits();
    var found := FindFrom(PlaceholderPattern, t, from);
    FindFromLeftmost(PlaceholderPattern, t, from);
    ReplaceFromStep(PlaceholderPattern, t, from, "***");
    if found.None? {
      NoMatchNoPlaceholder(t, from, |t|);
      assert t[from..|t|] == t[from..];
    } else {
      var m := found.value;
      FinalPassFrom(t, m.end);
      NoMatchNoPlaceholder(t, from, m.start);
      StarsJoin(t[from..m.start], ReplaceFrom(PlaceholderPattern, t, m.end, "***"));
    }
  }

  /** The sanitised text contains no `__SCORE_<digits>__` placeholder. */
  lemma NoPlaceholderLeft(text: string)
    ensures !HasPlaceholder(Sanitize(text))
  {
    PatternsHaveDigits();
    var placed := PlaceholderPasses(text, 0);
    FinalPassFrom(ReplaceAll(BracketedPlaceholder, placed, "***"), 0);
    assert Sanitize(text) == ReplaceFrom(PlaceholderPattern, ReplaceAll(BracketedPlaceholder, placed, "***"), 0, "***");
  }

  // ----- the sanitiser as the source runs it -----

  /**
   * sanitizeFootballScore: the nine placeholder passes in list order, then
   * the bracket collapse, then the final pass, each reassigning `sanitized`.
   */
  method SanitizeFootballScore(text: string) returns (sanitized: string)
    ensures sanitized == Sanitize(text)
    ensures !HasPlaceholder(sanitized)
    ensures NoDigit(text) ==> sanitized == text
  {
    PatternsHaveDigits();
    sanitized := text;
    for index := 0 to |ScorePatterns|
      invariant PlaceholderPasses(sanitized, index) == PlaceholderPasses(text, 0)
    {
      sanitized := ReplaceAll(ScorePatterns[index], sanitized, Placeholder(index));
    }
    sanitized := ReplaceAll(BracketedPlaceholder, sanitized, "***");
    sanitized := ReplaceAll(PlaceholderPattern, sanitized, "***");
    NoPlaceholderLeft(text);
    if NoDigit(text) {
      NoDigitUnchanged(text);
    }
  }
}
