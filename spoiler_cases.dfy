/**
 * Worked cases of the sanitiser, mirroring src/utils/__tests__/spoilerUtils.test.ts.
 * Each case runs the matcher one atom at a time through the step lemmas below.
 */
module SpoilerCases {
  import opened Wrappers
  import opened Text
  import opened Spoiler

  // ----- one atom at a time -----

  lemma BoundaryStep(rest: Pattern, t: string, x: nat)
    requires x <= |t| && IsBoundary(t, x)
    ensures Match(Then(Boundary, rest), t, x) == Match(rest, t, x)
  {
    var ends := AtomEnds(Boundary, t, x);
    assert ends == [x] && ends[1..] == [];
    assert FirstOf(rest, t, ends[1..], x) == None;
  }

  /** `\d{1,2}` on a single digit: it can only end after that digit. */
  lemma OneDigitStep(rest: Pattern, t: string, x: nat)
    requires x < |t| && IsDigit(t[x]) && (x + 1 == |t| || !IsDigit(t[x + 1]))
    ensures Match(Then(Digits12, rest), t, x) == Match(rest, t, x + 1)
  {
    assert DigitRun(t, x + 1) == 0;
    var ends := AtomEnds(Digits12, t, x);
    assert ends == [x + 1] && ends[1..] == [];
    assert FirstOf(rest, t, ends[1..], x + 1) == None;
  }

  /** `\s*` that can take the whole run of spaces [x, e) and let the rest match after it. */
  lemma SpacesStep(rest: Pattern, t: string, x: nat, e: nat)
    requires x <= e <= |t| && (e == |t| || !IsSpace(t[e]))
    requires forall k :: x <= k < e ==> IsSpace(t[k])
    requires Match(rest, t, e).Some?
    ensures Match(Then(Spaces, rest), t, x) == Match(rest, t, e)
  {
    SpaceRunExact(t, x, e);
    var ends := AtomEnds(Spaces, t, x);
    assert ends[0] == e;
  }

  lemma {:induction false} SpaceRunExact(t: string, i: nat, e: nat)
    requires i <= e <= |t| && (e == |t| || !IsSpace(t[e]))
    requires forall k :: i <= k < e ==> IsSpace(t[k])
    ensures SpaceRun(t, i) == e - i
    decreases e - i
  {
    if i < e { SpaceRunExact(t, i + 1, e); }
  }

  /** A digit atom never matches at a position that does not hold a digit. */
  lemma DigitsNeedDigit(a: Atom, rest: Pattern, t: string, x: nat)
    requires IsDigitAtom(a) && x <= |t| && (x == |t| || !IsDigit(t[x]))
    ensures Match(Then(a, rest), t, x).None?
  {
    assert AtomEnds(a, t, x) == [];
  }

  lemma ClassNeedsMember(cs: string, rest: Pattern, t: string, x: nat)
    requires x <= |t| && (x == |t| || t[x] !in cs)
    ensures Match(Then(OneOf(cs), rest), t, x).None?
  {
    assert AtomEnds(OneOf(cs), t, x) == [];
  }

  // ----- text the later passes leave alone -----

  /** Every digit directly follows an underscore, as inside a placeholder. */
  predicate Guarded(s: string) {
    forall i :: 0 <= i < |s| && IsDigit(s[i]) ==> 0 < i && s[i - 1] == '_'
  }

  /** A pattern that opens with `\b` or a class without `_`, then `\d{1,2}`, fails on guarded text. */
  lemma GuardedLeadFails(a: Atom, rest: Pattern, s: string, q: nat)
    requires Guarded(s) && q <= |s|
    requires a == Boundary || (a.OneOf? && '_' !in a.cs)
    ensures Match(Then(a, Then(Digits12, rest)), s, q).None?
  {
    var ends := AtomEnds(a, s, q);
    forall k | 0 <= k < |ends| ensures Match(Then(Digits12, rest), s, ends[k]).None? {
      var x := ends[k];
      if x < |s| && IsDigit(s[x]) {
        assert s[x - 1] == '_';
        if a == Boundary {
          assert x == q && IsWordChar(s[x - 1]) && IsWordChar(s[x]);
        }
      } else {
        DigitsNeedDigit(Digits12, rest, s, x);
      }
    }
    FirstOfNone(Then(Digits12, rest), s, ends, q);
  }

  lemma GuardedNoScore(s: string, k: nat, q: nat)
    requires Guarded(s) && k < |ScorePatterns| && q <= |s|
    ensures Match(ScorePatterns[k], s, q).None?
  {
    var p := ScorePatterns[k];
    assert k == 0 || k == 1 || k == 2 || k == 3 || k == 4 || k == 5 || k == 6 || k == 7 || k == 8;
    assert p.rest.head == Digits12;
    assert p.head == Boundary || (p.head.OneOf? && '_' !in p.head.cs);
    GuardedLeadFails(p.head, p.rest.rest, s, q);
  }

  /** Guarded text goes through the placeholder passes unchanged. */
  lemma GuardedPasses(s: string, k: nat)
    requires Guarded(s) && k <= |ScorePatterns|
    ensures PlaceholderPasses(s, k) == s
  {
    forall j, q | k <= j < |ScorePatterns| && 0 <= q <= |s| ensures Match(ScorePatterns[j], s, q).None? {
      GuardedNoScore(s, j, q);
    }
    PassesNoMatch(s, k);
  }

  /** A one-digit placeholder, as every score pattern index is. */
  lemma PlaceholderGuarded(index: nat)
    requires index < 10
    ensures Guarded(Placeholder(index))
  {
    var w := Placeholder(index);
    assert w == "__SCORE_" + [DigitChar(index)] + "__";
  }

  /** The characters of a one-digit placeholder. */
  lemma PlaceholderText(index: nat)
    requires index < 10
    ensures Placeholder(index) == "__SCORE_" + [DigitChar(index)] + "__"
    ensures |Placeholder(index)| == 11
    ensures forall i :: 0 <= i < 11 ==> Placeholder(index)[i] !in "[(*"
  {
  }

  // ----- scanning -----

  lemma FindHere(p: Pattern, s: string, from: nat)
    requires from <= |s| && Match(p, s, from).Some?
    ensures FindFrom(p, s, from) == Some(Span(from, Match(p, s, from).value))
  {
  }

  lemma FindSkip(p: Pattern, s: string, from: nat)
    requires from < |s| && Match(p, s, from).None?
    ensures FindFrom(p, s, from) == FindFrom(p, s, from + 1)
  {
  }

  /** No digit pattern matches the empty suffix, so the replacement stops at the end. */
  lemma ReplaceAtEnd(p: Pattern, s: string, rep: string)
    requires HasDigitAtom(p)
    ensures ReplaceFrom(p, s, |s|, rep) == ""
  {
    ReplaceFromStep(p, s, |s|, rep);
  }

  /** A pattern that matches the whole of `s`, once, replaces it. */
  lemma ReplaceWhole(p: Pattern, s: string, rep: string)
    requires HasDigitAtom(p) && Match(p, s, 0) == Some(|s|)
    ensures ReplaceAll(p, s, rep) == rep
  {
    FindHere(p, s, 0);
    ReplaceFromStep(p, s, 0, rep);
    ReplaceAtEnd(p, s, rep);
  }

  /** An opening `\b\d{1,2}` needs a digit where it starts. */
  lemma LeadBoundary(rest: Pattern, s: string, q: nat)
    requires q <= |s| && (q == |s| || !IsDigit(s[q]))
    ensures Match(Then(Boundary, Then(Digits12, rest)), s, q).None?
  {
    var ends := AtomEnds(Boundary, s, q);
    forall k | 0 <= k < |ends| ensures Match(Then(Digits12, rest), s, ends[k]).None? {
      DigitsNeedDigit(Digits12, rest, s, ends[k]);
    }
    FirstOfNone(Then(Digits12, rest), s, ends, q);
  }

  /** An opening class then `\d{1,2}` needs a member and a digit after it. */
  lemma LeadClass(cs: string, rest: Pattern, s: string, q: nat)
    requires q <= |s|
    requires q == |s| || s[q] !in cs || q + 1 == |s| || !IsDigit(s[q + 1])
    ensures Match(Then(OneOf(cs), Then(Digits12, rest)), s, q).None?
  {
    if q < |s| && s[q] in cs {
      OneOfStep(cs, Then(Digits12, rest), s, q);
      DigitsNeedDigit(Digits12, rest, s, q + 1);
    } else {
      ClassNeedsMember(cs, Then(Digits12, rest), s, q);
    }
  }

  /** `\s*` over the run [x, e) fails when the rest fails after each of its lengths. */
  lemma SpacesFail(rest: Pattern, t: string, x: nat, e: nat)
    requires x <= e <= |t| && (e == |t| || !IsSpace(t[e]))
    requires forall k :: x <= k < e ==> IsSpace(t[k])
    requires forall k :: x <= k <= e ==> Match(rest, t, k).None?
    ensures Match(Then(Spaces, rest), t, x).None?
  {
    SpaceRunExact(t, x, e);
    var ends := AtomEnds(Spaces, t, x);
    FirstOfNone(rest, t, ends, x);
  }

  /** Score passes that match nowhere leave the text to the later ones. */
  lemma {:induction false} SkipPasses(s: string, j: nat, k: nat)
    requires j <= k <= |ScorePatterns|
    requires forall i, q :: j <= i < k && 0 <= q <= |s| ==> Match(ScorePatterns[i], s, q).None?
    ensures PlaceholderPasses(s, j) == PlaceholderPasses(s, k)
    decreases k - j
  {
    if j < k {
      PatternsHaveDigits();
      var p := ScorePatterns[j];
      forall q | 0 <= q <= |s| ensures Match(p, s, q).None? {
      }
      ReplaceAllNoMatch(p, s, Placeholder(j));
      assert PlaceholderPasses(s, j) == PlaceholderPasses(s, j + 1);
      SkipPasses(s, j + 1, k);
    }
  }

  /** The bracket pass leaves text without `[` or `(` alone. */
  lemma NoOpenerUnchanged(s: string)
    requires forall i :: 0 <= i < |s| ==> s[i] !in "[("
    ensures HasDigitAtom(BracketedPlaceholder)
    ensures ReplaceAll(BracketedPlaceholder, s, "***") == s
  {
    PatternsHaveDigits();
    forall q | 0 <= q <= |s| ensures Match(BracketedPlaceholder, s, q).None? {
      ClassNeedsMember("[(", BracketedPlaceholder.rest, s, q);
    }
    ReplaceAllNoMatch(BracketedPlaceholder, s, "***");
  }

  /** The final pass turns a lone placeholder into `***`. */
  lemma FinalOnPlaceholder(index: nat)
    requires index < 10
    ensures HasDigitAtom(PlaceholderPattern)
    ensures ReplaceAll(PlaceholderPattern, Placeholder(index), "***") == "***"
  {
    PatternsHaveDigits();
    var w := Placeholder(index);
    PlaceholderIsPlaceholder(index);
    assert w[0..|w|] == w;
    MatchesPlaceholder(w, 0, |w|);
    ReplaceWhole(PlaceholderPattern, w, "***");
  }

  /** The k-th pass turns a whole match into its placeholder. */
  lemma WholeMatchPass(s: string, k: nat)
    requires k < |ScorePatterns|
    requires Match(ScorePatterns[k], s, 0) == Some(|s|)
    ensures PlaceholderPasses(s, k) == PlaceholderPasses(Placeholder(k), k + 1)
  {
    PatternsHaveDigits();
    ReplaceWhole(ScorePatterns[k], s, Placeholder(k));
  }

  /** The passes after the k-th keep the k-th placeholder. */
  lemma LaterPassesKeep(k: nat)
    requires k < |ScorePatterns|
    ensures PlaceholderPasses(Placeholder(k), k + 1) == Placeholder(k)
  {
    PlaceholderGuarded(k);
    GuardedPasses(Placeholder(k), k + 1);
  }

  /** The placeholder passes on a whole match of the k-th pattern leave its placeholder alone. */
  lemma PassesToPlaceholder(s: string, k: nat)
    requires k < |ScorePatterns|
    requires forall j, q :: 0 <= j < k && 0 <= q <= |s| ==> Match(ScorePatterns[j], s, q).None?
    requires Match(ScorePatterns[k], s, 0) == Some(|s|)
    ensures PlaceholderPasses(s, 0) == Placeholder(k)
  {
    SkipPasses(s, 0, k);
    WholeMatchPass(s, k);
    LaterPassesKeep(k);
  }

  /** Text whose placeholder passes leave a lone placeholder is sanitised to `***`. */
  lemma PlacedAlone(s: string, k: nat)
    requires k < 10
    ensures PlaceholderPasses(s, 0) == Placeholder(k) ==> Sanitize(s) == "***"
  {
    var w := Placeholder(k);
    PlaceholderText(k);
    NoOpenerUnchanged(w);
    FinalOnPlaceholder(k);
  }

  /**
   * A text that the k-th score pattern matches as a whole, and no earlier
   * pattern matches anywhere, is sanitised to `***`.
   */
  lemma WholeScore(s: string, k: nat)
    requires k < |ScorePatterns|
    requires forall j, q :: 0 <= j < k && 0 <= q <= |s| ==> Match(ScorePatterns[j], s, q).None?
    requires Match(ScorePatterns[k], s, 0) == Some(|s|)
    ensures Sanitize(s) == "***"
  {
    PassesToPlaceholder(s, k);
    PlacedAlone(s, k);
  }

  /** `\b\d{1,2}` on a lone digit at q hands over at q + 1, or fails there. */
  lemma AfterDigitFails(r: Pattern, s: string, q: nat)
    requires q < |s| && IsDigit(s[q]) && (q + 1 == |s| || !IsDigit(s[q + 1]))
    requires Match(r, s, q + 1).None?
    ensures Match(Then(Boundary, Then(Digits12, r)), s, q).None?
  {
    if IsBoundary(s, q) {
      BoundaryStep(Then(Digits12, r), s, q);
      OneDigitStep(r, s, q);
    } else {
      assert AtomEnds(Boundary, s, q) == [];
    }
  }

  /** `\s*` then a class fails when neither the spaces nor what ends them is in the class. */
  lemma SpacesThenClassFails(cs: string, rest: Pattern, s: string, x: nat, e: nat)
    requires x <= e <= |s| && (e == |s| || !IsSpace(s[e]))
    requires forall k :: x <= k < e ==> IsSpace(s[k])
    requires forall k :: x <= k <= e && k < |s| ==> s[k] !in cs
    ensures Match(Then(Spaces, Then(OneOf(cs), rest)), s, x).None?
  {
    forall k | x <= k <= e ensures Match(Then(OneOf(cs), rest), s, k).None? {
      ClassNeedsMember(cs, rest, s, k);
    }
    SpacesFail(Then(OneOf(cs), rest), s, x, e);
  }

  /** A closing `\s*\d{1,2}\b` takes spaces [x, e) and a last digit at e. */
  lemma SpacedLastDigit(s: string, x: nat, e: nat)
    requires x <= e && e + 1 == |s| && IsDigit(s[e])
    requires forall k :: x <= k < e ==> IsSpace(s[k])
    ensures Match(Then(Spaces, Then(Digits12, Then(Boundary, Empty))), s, x) == Some(|s|)
  {
    var b := Then(Boundary, Empty);
    BoundaryStep(Empty, s, |s|);
    OneDigitStep(b, s, e);
    SpacesStep(Then(Digits12, b), s, x, e);
  }

  // ----- the cases -----
  // Each case is stated for any digits in the score's places, then for the
  // digits of the test titles.

  /** A one-digit score `a-b` or `a:b` on its own becomes `***` (first pattern). */
  lemma DashScoreAt(s: string)
    requires |s| == 3 && IsDigit(s[0]) && s[1] in "-:" && IsDigit(s[2])
    ensures Sanitize(s) == "***"
  {
    var tail := Then(Boundary, Empty);
    BoundaryStep(Empty, s, 3);
    OneDigitStep(tail, s, 2);
    OneOfStep("-:", Then(Digits12, tail), s, 1);
    OneDigitStep(Then(OneOf("-:"), Then(Digits12, tail)), s, 0);
    BoundaryStep(ScorePatterns[0].rest, s, 0);
    WholeScore(s, 0);
  }

  lemma DashScore()
    ensures Sanitize("2-1") == "***"
  {
    DashScoreAt("2-1");
  }

  /** `a  :  b` with two spaces on each side becomes `***` (second pattern). */
  lemma SpacedScoreAt(s: string)
    requires |s| == 7 && IsDigit(s[0]) && s[1] == ' ' && s[2] == ' ' && s[3] in "-:"
    requires s[4] == ' ' && s[5] == ' ' && IsDigit(s[6])
    ensures Sanitize(s) == "***"
  {
    SpacedNoDash(s);
    SpacedMatches(s);
    WholeScore(s, 1);
  }

  /** The second pattern takes all of `a  :  b`. */
  lemma SpacedMatches(s: string)
    requires |s| == 7 && IsDigit(s[0]) && s[1] == ' ' && s[2] == ' ' && s[3] in "-:"
    requires s[4] == ' ' && s[5] == ' ' && IsDigit(s[6])
    ensures Match(ScorePatterns[1], s, 0) == Some(|s|)
  {
    var e := Then(Boundary, Empty);
    var d := Then(Digits12, e);
    var sp2 := Then(Spaces, d);
    var c := Then(OneOf("-:"), sp2);
    var sp1 := Then(Spaces, c);
    assert ScorePatterns[1] == Then(Boundary, Then(Digits12, sp1));
    SpacedLastDigit(s, 4, 6);
    OneOfStep("-:", sp2, s, 3);
    SpacesStep(c, s, 1, 3);
    OneDigitStep(sp1, s, 0);
    BoundaryStep(Then(Digits12, sp1), s, 0);
  }

  /** The first pattern finds no score in `a  :  b`: no separator follows either digit. */
  lemma SpacedNoDash(s: string)
    requires |s| == 7 && IsDigit(s[0]) && s[1] == ' ' && s[2] == ' ' && s[3] in "-:"
    requires s[4] == ' ' && s[5] == ' ' && IsDigit(s[6])
    ensures forall j, q :: 0 <= j < 1 && 0 <= q <= |s| ==> Match(ScorePatterns[j], s, q).None?
  {
    var r := Then(OneOf("-:"), Then(Digits12, Then(Boundary, Empty)));
    assert ScorePatterns[0] == Then(Boundary, Then(Digits12, r));
    forall q | 0 <= q <= |s| ensures Match(ScorePatterns[0], s, q).None? {
      if q == 0 || q == 6 {
        ClassNeedsMember("-:", r.rest, s, q + 1);
        AfterDigitFails(r, s, q);
      } else {
        assert q == 1 || q == 2 || q == 3 || q == 4 || q == 5 || q == 7;
        LeadBoundary(r, s, q);
      }
    }
  }

  lemma SpacedScore()
    ensures Sanitize("2  :  1") == "***"
  {
    SpacedScoreAt("2  :  1");
  }

  /** `a to b` becomes `***` (third pattern). */
  lemma ToScoreAt(s: string)
    requires |s| == 6 && IsDigit(s[0]) && s[1] == ' ' && s[2] in "tT" && s[3] in "oO"
    requires s[4] == ' ' && IsDigit(s[5])
    ensures Sanitize(s) == "***"
  {
    ToNoDash(s);
    ToMatches(s);
    WholeScore(s, 2);
  }

  /** The `to` pattern takes all of `a to b`. */
  lemma ToMatches(s: string)
    requires |s| == 6 && IsDigit(s[0]) && s[1] == ' ' && s[2] in "tT" && s[3] in "oO"
    requires s[4] == ' ' && IsDigit(s[5])
    ensures Match(ScorePatterns[2], s, 0) == Some(|s|)
  {
    var e := Then(Boundary, Empty);
    var d := Then(Digits12, e);
    var sp2 := Then(Spaces, d);
    var o := Then(OneOf("oO"), sp2);
    var tt := Then(OneOf("tT"), o);
    var sp1 := Then(Spaces, tt);
    assert ScorePatterns[2] == Then(Boundary, Then(Digits12, sp1));
    SpacedLastDigit(s, 4, 5);
    OneOfStep("oO", sp2, s, 3);
    OneOfStep("tT", o, s, 2);
    SpacesStep(tt, s, 1, 2);
    OneDigitStep(sp1, s, 0);
    BoundaryStep(Then(Digits12, sp1), s, 0);
  }

  /** Neither dash pattern finds a score in `a to b`: `t` is no separator. */
  lemma ToNoDash(s: string)
    requires |s| == 6 && IsDigit(s[0]) && s[1] == ' ' && s[2] in "tT" && s[3] in "oO"
    requires s[4] == ' ' && IsDigit(s[5])
    ensures forall j, q :: 0 <= j < 2 && 0 <= q <= |s| ==> Match(ScorePatterns[j], s, q).None?
  {
    ToNoTightDash(s);
    ToNoSpacedDash(s);
  }

  lemma ToNoTightDash(s: string)
    requires |s| == 6 && IsDigit(s[0]) && s[1] == ' ' && s[2] in "tT" && s[3] in "oO"
    requires s[4] == ' ' && IsDigit(s[5])
    ensures forall q :: 0 <= q <= |s| ==> Match(ScorePatterns[0], s, q).None?
  {
    var r := Then(OneOf("-:"), Then(Digits12, Then(Boundary, Empty)));
    assert ScorePatterns[0] == Then(Boundary, Then(Digits12, r));
    forall q | 0 <= q <= |s| ensures Match(ScorePatterns[0], s, q).None? {
      if q == 0 || q == 5 {
        ClassNeedsMember("-:", r.rest, s, q + 1);
        AfterDigitFails(r, s, q);
      } else {
        assert q == 1 || q == 2 || q == 3 || q == 4 || q == 6;
        LeadBoundary(r, s, q);
      }
    }
  }

  lemma ToNoSpacedDash(s: string)
    requires |s| == 6 && IsDigit(s[0]) && s[1] == ' ' && s[2] in "tT" && s[3] in "oO"
    requires s[4] == ' ' && IsDigit(s[5])
    ensures forall q :: 0 <= q <= |s| ==> Match(ScorePatterns[1], s, q).None?
  {
    var c := Then(OneOf("-:"), Then(Spaces, Then(Digits12, Then(Boundary, Empty))));
    var r := Then(Spaces, c);
    assert ScorePatterns[1] == Then(Boundary, Then(Digits12, r));
    forall q | 0 <= q <= |s| ensures Match(ScorePatterns[1], s, q).None? {
      if q == 0 {
        SpacesThenClassFails("-:", c.rest, s, 1, 2);
        AfterDigitFails(r, s, 0);
      } else if q == 5 {
        SpacesThenClassFails("-:", c.rest, s, 6, 6);
        AfterDigitFails(r, s, 5);
      } else {
        assert q == 1 || q == 2 || q == 3 || q == 4 || q == 6;
        LeadBoundary(r, s, q);
      }
    }
  }

  lemma ToScore()
    ensures Sanitize("3 to 1") == "***"
  {
    ToScoreAt("3 to 1");
  }

  /** An aggregate `a (b)` becomes `***` (sixth pattern); the five before it find nothing. */
  lemma AggregateScoreAt(s: string)
    requires |s| == 5 && IsDigit(s[0]) && s[1] == ' ' && s[2] == '(' && IsDigit(s[3]) && s[4] == ')'
    ensures Sanitize(s) == "***"
  {
    AggregateNoDash(s);
    AggregateNoSpaced(s);
    AggregateNoTo(s);
    AggregateNoBracketed(s);
    AggregateMatches(s);
    WholeScore(s, 5);
  }

  lemma AggregateNoDash(s: string)
    requires |s| == 5 && IsDigit(s[0]) && s[1] == ' ' && s[2] == '(' && IsDigit(s[3]) && s[4] == ')'
    ensures forall q :: 0 <= q <= |s| ==> Match(ScorePatterns[0], s, q).None?
  {
    var r := Then(OneOf("-:"), Then(Digits12, Then(Boundary, Empty)));
    assert ScorePatterns[0] == Then(Boundary, Then(Digits12, r));
    forall q | 0 <= q <= |s| ensures Match(ScorePatterns[0], s, q).None? {
      if q == 0 || q == 3 {
        ClassNeedsMember("-:", r.rest, s, q + 1);
        AfterDigitFails(r, s, q);
      } else {
        assert q == 1 || q == 2 || q == 4 || q == 5;
        LeadBoundary(r, s, q);
      }
    }
  }

  lemma AggregateNoSpaced(s: string)
    requires |s| == 5 && IsDigit(s[0]) && s[1] == ' ' && s[2] == '(' && IsDigit(s[3]) && s[4] == ')'
    ensures forall q :: 0 <= q <= |s| ==> Match(ScorePatterns[1], s, q).None?
  {
    var c := Then(OneOf("-:"), Then(Spaces, Then(Digits12, Then(Boundary, Empty))));
    var r := Then(Spaces, c);
    assert ScorePatterns[1] == Then(Boundary, Then(Digits12, r));
    forall q | 0 <= q <= |s| ensures Match(ScorePatterns[1], s, q).None? {
      if q == 0 {
        SpacesThenClassFails("-:", c.rest, s, 1, 2);
        AfterDigitFails(r, s, 0);
      } else if q == 3 {
        SpacesThenClassFails("-:", c.rest, s, 4, 4);
        AfterDigitFails(r, s, 3);
      } else {
        assert q == 1 || q == 2 || q == 4 || q == 5;
        LeadBoundary(r, s, q);
      }
    }
  }

  lemma AggregateNoTo(s: string)
    requires |s| == 5 && IsDigit(s[0]) && s[1] == ' ' && s[2] == '(' && IsDigit(s[3]) && s[4] == ')'
    ensures forall q :: 0 <= q <= |s| ==> Match(ScorePatterns[2], s, q).None?
  {
    var c := Then(OneOf("tT"), Then(OneOf("oO"), Then(Spaces, Then(Digits12, Then(Boundary, Empty)))));
    var r := Then(Spaces, c);
    assert ScorePatterns[2] == Then(Boundary, Then(Digits12, r));
    forall q | 0 <= q <= |s| ensures Match(ScorePatterns[2], s, q).None? {
      if q == 0 {
        SpacesThenClassFails("tT", c.rest, s, 1, 2);
        AfterDigitFails(r, s, 0);
      } else if q == 3 {
        SpacesThenClassFails("tT", c.rest, s, 4, 4);
        AfterDigitFails(r, s, 3);
      } else {
        assert q == 1 || q == 2 || q == 4 || q == 5;
        LeadBoundary(r, s, q);
      }
    }
  }

  /** The bracketed scores need `[` or a separator inside the parentheses. */
  lemma AggregateNoBracketed(s: string)
    requires |s| == 5 && IsDigit(s[0]) && s[1] == ' ' && s[2] == '(' && IsDigit(s[3]) && s[4] == ')'
    ensures forall q :: 0 <= q <= |s| ==> Match(ScorePatterns[3], s, q).None?
    ensures forall q :: 0 <= q <= |s| ==> Match(ScorePatterns[4], s, q).None?
  {
    var r3 := Then(OneOf("-:"), Then(Digits12, Then(OneOf("]"), Empty)));
    assert ScorePatterns[3] == Then(OneOf("["), Then(Digits12, r3));
    var r4 := Then(OneOf("-:"), Then(Digits12, Then(OneOf(")"), Empty)));
    assert ScorePatterns[4] == Then(OneOf("("), Then(Digits12, r4));
    forall q | 0 <= q <= |s|
      ensures Match(ScorePatterns[3], s, q).None? && Match(ScorePatterns[4], s, q).None?
    {
      assert q == 0 || q == 1 || q == 2 || q == 3 || q == 4 || q == 5;
      LeadClass("[", r3, s, q);
      if q == 2 {
        OneOfStep("(", Then(Digits12, r4), s, 2);
        OneDigitStep(r4, s, 3);
        ClassNeedsMember("-:", r4.rest, s, 4);
      } else {
        LeadClass("(", r4, s, q);
      }
    }
  }

  /** The aggregate pattern takes all of `a (b)`. */
  lemma AggregateMatches(s: string)
    requires |s| == 5 && IsDigit(s[0]) && s[1] == ' ' && s[2] == '(' && IsDigit(s[3]) && s[4] == ')'
    ensures Match(ScorePatterns[5], s, 0) == Some(|s|)
  {
    var close := Then(OneOf(")"), Empty);
    var d := Then(Digits12, close);
    var open := Then(OneOf("("), d);
    var sp := Then(Spaces, open);
    assert ScorePatterns[5] == Then(Boundary, Then(Digits12, sp));
    OneOfStep(")", Empty, s, 4);
    OneDigitStep(close, s, 3);
    OneOfStep("(", d, s, 2);
    SpacesStep(open, s, 1, 2);
    OneDigitStep(sp, s, 0);
    BoundaryStep(Then(Digits12, sp), s, 0);
  }

  lemma AggregateScore()
    ensures Sanitize("1 (2)") == "***"
  {
    AggregateScoreAt("1 (2)");
  }

  /** The bracket pattern takes an opening bracket, a placeholder and a closing bracket. */
  lemma WrappedMatches(t: string, i: nat, j: nat)
    requires i + 2 <= j <= |t| && t[i] in "[(" && t[j - 1] in "])" && IsPlaceholder(t[i + 1..j - 1])
    ensures Match(BracketedPlaceholder, t, i) == Some(j)
  {
    var closing := Then(OneOf("])"), Empty);
    OneOfStep("])", Empty, t, j - 1);
    MatchesTagged(closing, t, i + 1, j - 1);
    OneOfStep("[(", ScoreTag(Then(DigitsPlus, Then(OneOf("_"), Then(OneOf("_"), closing)))), t, i);
  }

  /**
   * A placeholder wrapped in one opening and one closing bracket collapses,
   * brackets included, to `***` in the bracket pass.
   */
  lemma WrappedCollapses(o: char, c: char, index: nat)
    requires o in "[(" && c in "])"
    ensures HasDigitAtom(BracketedPlaceholder)
    ensures ReplaceAll(BracketedPlaceholder, [o] + Placeholder(index) + [c], "***") == "***"
  {
    PatternsHaveDigits();
    var w := Placeholder(index);
    var t := [o] + w + [c];
    PlaceholderIsPlaceholder(index);
    assert t[1..|t| - 1] == w;
    WrappedMatches(t, 0, |t|);
    ReplaceWhole(BracketedPlaceholder, t, "***");
  }

  /** The final pass leaves `***` alone. */
  lemma StarsStay()
    ensures HasDigitAtom(PlaceholderPattern)
    ensures ReplaceAll(PlaceholderPattern, "***", "***") == "***"
  {
    PatternsHaveDigits();
    forall q | 0 <= q <= 3 ensures Match(PlaceholderPattern, "***", q).None? {
      NoDigitNoMatch(PlaceholderPattern, "***", q);
    }
    ReplaceAllNoMatch(PlaceholderPattern, "***", "***");
  }

  /**
   * A parenthesised score `(a:b)`: the first pattern replaces the score inside
   * the parentheses, then the bracket pass collapses `(__SCORE_0__)` to `***`.
   */
  lemma BracketScoreAt(s: string)
    requires |s| == 5 && s[0] == '(' && IsDigit(s[1]) && s[2] in "-:" && IsDigit(s[3]) && s[4] == ')'
    ensures Sanitize(s) == "***"
  {
    BracketFirstPass(s);
    var mid := [s[0]] + Placeholder(0) + [s[4]];
    WrappedGuarded(s[0], s[4]);
    GuardedPasses(mid, 1);
    WrappedCollapses(s[0], s[4], 0);
    StarsStay();
  }

  lemma WrappedGuarded(o: char, c: char)
    requires !IsDigit(o) && !IsDigit(c)
    ensures Guarded([o] + Placeholder(0) + [c])
  {
    PlaceholderText(0);
  }

  /** The first pattern finds the score inside the parentheses and nothing else. */
  lemma BracketFirstPass(s: string)
    requires |s| == 5 && s[0] == '(' && IsDigit(s[1]) && s[2] in "-:" && IsDigit(s[3]) && s[4] == ')'
    ensures PlaceholderPasses(s, 0) == PlaceholderPasses([s[0]] + Placeholder(0) + [s[4]], 1)
  {
    PatternsHaveDigits();
    var p := ScorePatterns[0];
    var w := Placeholder(0);
    var tail := Then(Boundary, Empty);
    var r := Then(OneOf("-:"), Then(Digits12, tail));
    assert p == Then(Boundary, Then(Digits12, r));
    BoundaryStep(Empty, s, 4);
    OneDigitStep(tail, s, 3);
    OneOfStep("-:", Then(Digits12, tail), s, 2);
    OneDigitStep(r, s, 1);
    BoundaryStep(p.rest, s, 1);
    LeadBoundary(r, s, 0);
    FindSkip(p, s, 0);
    FindHere(p, s, 1);
    ReplaceFromStep(p, s, 0, w);
    LeadBoundary(r, s, 4);
    FindSkip(p, s, 4);
    ReplaceFromStep(p, s, 4, w);
    assert s[0..1] == [s[0]] && s[4..] == [s[4]];
  }

  lemma BracketScore()
    ensures Sanitize("(5:3)") == "***"
  {
    BracketScoreAt("(5:3)");
  }
}
