/**
 * src/components/FeaturedMatches.tsx: which matches of the last week are
 * featured. Matches are ranked by a priority (both teams top clubs, one top
 * club, a high score, the rest), ties broken by the most recent kickoff; the
 * first nine are shown. Kickoff times are integer millisecond timestamps and
 * the calendar year of a kickoff is given where it is needed.
 */
module FeaturedMatches {
  import opened Wrappers
  import opened Text

  /**
   * A match of the football-data.org reply. `homeGoals`/`awayGoals` are the
   * full-time score, None where the score or its field is missing.
   */
  datatype Match = Match(
    id: int,
    homeTeam: string,
    awayTeam: string,
    homeGoals: Option<int>,
    awayGoals: Option<int>,
    competition: string,
    kickoff: int)

  /** TOP_10_CLUBS, spelled as in the source, Bayern's name included. */
  const TopClubs: seq<string> := [
    "Manchester City FC",
    "Real Madrid CF",
    "FC Bayern M\U{00C3}\U{00BC}nchen",
    "Paris Saint-Germain FC",
    "Manchester United FC",
    "Liverpool FC",
    "FC Barcelona",
    "Inter Milano",
    "Arsenal FC",
    "Borussia Dortmund"
  ]

  /** `list.includes(name)`: some entry is exactly the name. */
  predicate Includes(list: seq<string>, name: string)
    decreases |list|
  {
    |list| > 0 && (list[0] == name || Includes(list[1..], name))
  }

  lemma {:induction false} IncludesIsIn(list: seq<string>, name: string)
    ensures Includes(list, name) <==> name in list
    decreases |list|
  {
    if |list| > 0 {
      IncludesIsIn(list[1..], name);
      assert list == [list[0]] + list[1..];
    }
  }

  /** isTopClub: the exact name is one of the ten. */
  predicate IsTopClub(teamName: string) {
    Includes(TopClubs, teamName)
  }

  lemma TopClubMembership(teamName: string)
    ensures IsTopClub(teamName) <==> teamName in TopClubs
  {
    IncludesIsIn(TopClubs, teamName);
  }

  /** The list holds ten distinct names. */
  lemma TopClubsDistinct()
    ensures |TopClubs| == 10
    ensures forall i, j :: 0 <= i < j < |TopClubs| ==> TopClubs[i] != TopClubs[j]
  {
  }

  /** Only the listed spelling counts: "FC Bayern München" written correctly is not a top club. */
  lemma BayernSpelling()
    ensures IsTopClub("FC Bayern M\U{00C3}\U{00BC}nchen")
    ensures !IsTopClub("FC Bayern M\U{00FC}nchen")
  {
    TopClubMembership("FC Bayern M\U{00C3}\U{00BC}nchen");
    assert TopClubs[2] == "FC Bayern M\U{00C3}\U{00BC}nchen";
    NotListed("FC Bayern M\U{00FC}nchen");
    TopClubMembership("FC Bayern M\U{00FC}nchen");
  }

  /** A 17-character name other than Borussia Dortmund's is not a top club. */
  lemma NotListed(s: string)
    requires |s| == 17 && s[0] == 'F'
    ensures s !in TopClubs
  {
    forall i | 0 <= i < |TopClubs|
      ensures TopClubs[i] != s
    {
      assert |TopClubs[i]| != 17 || TopClubs[i][0] == 'B';
    }
  }

  /** `(home || 0) + (away || 0)`. */
  function TotalGoals(m: Match): int {
    m.homeGoals.GetOr(0) + m.awayGoals.GetOr(0)
  }

  /** getMatchPriority: 1 both top clubs, 2 one top club, 3 four goals or more, 4 the rest. */
  function MatchPriority(m: Match): (p: int)
    ensures 1 <= p <= 4
  {
    var homeTop, awayTop := IsTopClub(m.homeTeam), IsTopClub(m.awayTeam);
    if homeTop && awayTop then 1
    else if homeTop || awayTop then 2
    else if TotalGoals(m) >= 4 then 3
    else 4
  }

  /** Each priority is earned by exactly one kind of match. */
  lemma PriorityMeaning(m: Match)
    ensures MatchPriority(m) == 1 <==> IsTopClub(m.homeTeam) && IsTopClub(m.awayTeam)
    ensures MatchPriority(m) == 2 <==> IsTopClub(m.homeTeam) != IsTopClub(m.awayTeam)
    ensures MatchPriority(m) == 3 <==> !IsTopClub(m.homeTeam) && !IsTopClub(m.awayTeam) && TotalGoals(m) >= 4
    ensures MatchPriority(m) == 4 <==> !IsTopClub(m.homeTeam) && !IsTopClub(m.awayTeam) && TotalGoals(m) < 4
  {
  }

  /**
   * A missing goal count weighs as much as a count of 0, so a match without
   * a score is goalless: it never earns priority 3 nor the High Score badge.
   */
  lemma MissingGoalsCountZero(m: Match)
    ensures m.homeGoals.None? ==> TotalGoals(m) == TotalGoals(m.(homeGoals := Some(0)))
    ensures m.awayGoals.None? ==> TotalGoals(m) == TotalGoals(m.(awayGoals := Some(0)))
    ensures m.homeGoals.None? && m.awayGoals.None? ==>
      TotalGoals(m) == 0 && MatchPriority(m) != 3 && !HighScoreBadge(m)
  {
  }

  /** The sort comparator: by priority, then the later kickoff first. */
  function Compare(a: Match, b: Match): int {
    var pa, pb := MatchPriority(a), MatchPriority(b);
    if pa != pb then pa - pb else b.kickoff - a.kickoff
  }

  /** The kickoff time of a match, as sort key. */
  function Kickoff(m: Match): int {
    m.kickoff
  }

  /**
   * The order of a comparator of the shape `rank(a) - rank(b)`, falling back
   * to `time(b) - time(a)` on equal ranks: `x` may come before `y` when its
   * rank is lower, or equal with a time no earlier.
   */
  predicate Before<T>(x: T, y: T, rank: T -> int, time: T -> int) {
    rank(x) < rank(y) || (rank(x) == rank(y) && time(x) >= time(y))
  }

  /** `a` may come before `b`: lower priority number, or the same one and a kickoff no earlier. */
  predicate InOrder(a: Match, b: Match) {
    Before(a, b, MatchPriority, Kickoff)
  }

  /**
   * The comparator puts `a` first exactly when it has the lower priority
   * number or, at equal priority, the later kickoff; it is antisymmetric, and
   * "not after" is total and transitive.
   */
  lemma CompareMeaning(a: Match, b: Match, c: Match)
    ensures Compare(a, b) < 0 <==> MatchPriority(a) < MatchPriority(b) || (MatchPriority(a) == MatchPriority(b) && a.kickoff > b.kickoff)
    ensures Compare(a, b) == 0 <==> MatchPriority(a) == MatchPriority(b) && a.kickoff == b.kickoff
    ensures Compare(a, b) == -Compare(b, a)
    ensures Compare(a, b) <= 0 <==> InOrder(a, b)
    ensures InOrder(a, b) || InOrder(b, a)
    ensures InOrder(a, b) && InOrder(b, c) ==> InOrder(a, c)
  {
  }

  /** No element is put after a later one. */
  predicate SortedBy<T>(s: seq<T>, rank: T -> int, time: T -> int) {
    forall i, j :: 0 <= i < j < |s| ==> Before(s[i], s[j], rank, time)
  }

  /** The matches in comparator order. */
  predicate Sorted(s: seq<Match>) {
    SortedBy(s, MatchPriority, Kickoff)
  }

  /** Sorted matches: the comparator never puts one after a later one; priorities rise and, within one, kickoffs fall. */
  lemma SortedMeaning(s: seq<Match>, i: nat, j: nat)
    requires Sorted(s) && i < j < |s|
    ensures Compare(s[i], s[j]) <= 0
    ensures MatchPriority(s[i]) <= MatchPriority(s[j])
    ensures MatchPriority(s[i]) == MatchPriority(s[j]) ==> s[i].kickoff >= s[j].kickoff
  {
    assert InOrder(s[i], s[j]);
    CompareMeaning(s[i], s[j], s[j]);
  }

  /**
   * `array.sort(cmp)` for a comparator ordering by rank and then by the later
   * time: in place, afterwards the array is in that order and holds the same
   * elements.
   */
  method Sort<T>(a: array<T>, rank: T -> int, time: T -> int)
    modifies a
    ensures SortedBy(a[..], rank, time)
    ensures multiset(a[..]) == multiset(old(a[..]))
  {
    if a.Length == 0 {
      return;
    }
    for i := 1 to a.Length
      invariant SortedBy(a[..i], rank, time)
      invariant multiset(a[..]) == multiset(old(a[..]))
    {
      Insert(a, i, rank, time);
    }
    assert a[..a.Length] == a[..];
  }

  /** Moves a[i] down into the sorted prefix a[..i]. */
  method Insert<T>(a: array<T>, i: nat, rank: T -> int, time: T -> int)
    requires 0 < i < a.Length && SortedBy(a[..i], rank, time)
    modifies a
    ensures SortedBy(a[..i + 1], rank, time)
    ensures multiset(a[..]) == multiset(old(a[..]))
  {
    var j := i;
    InsertStart(a[..], i, rank, time);
    while j > 0 && !Before(a[j - 1], a[j], rank, time)
      invariant 0 <= j <= i
      invariant Inserting(a[..], i, j, rank, time)
      invariant multiset(a[..]) == multiset(old(a[..]))
    {
      ghost var s := a[..];
      InsertStep(s, i, j, rank, time);
      a[j - 1], a[j] := a[j], a[j - 1];
      assert a[..] == s[j - 1 := s[j]][j := s[j - 1]];
      j := j - 1;
    }
    InsertDone(a[..], i, j, rank, time);
  }

  /**
   * While a[i] moves down: a[..i + 1] is in order except for the element at
   * j, which comes before everything above it.
   */
  ghost predicate Inserting<T>(s: seq<T>, i: nat, j: nat, rank: T -> int, time: T -> int)
    requires j <= i < |s|
  {
    && (forall k, l :: 0 <= k < l <= i && k != j && l != j ==> Before(s[k], s[l], rank, time))
    && (forall l :: j < l <= i ==> Before(s[j], s[l], rank, time))
  }

  lemma InsertStart<T>(s: seq<T>, i: nat, rank: T -> int, time: T -> int)
    requires i < |s| && SortedBy(s[..i], rank, time)
    ensures Inserting(s, i, i, rank, time)
  {
    forall k, l | 0 <= k < l <= i && k != i && l != i
      ensures Before(s[k], s[l], rank, time)
    {
      assert s[k] == s[..i][k] && s[l] == s[..i][l];
    }
  }

  /** Swapping a[j] with a predecessor that should come after it moves the gap down. */
  lemma InsertStep<T>(s: seq<T>, i: nat, j: nat, rank: T -> int, time: T -> int)
    requires 0 < j <= i < |s| && Inserting(s, i, j, rank, time)
    requires !Before(s[j - 1], s[j], rank, time)
    ensures Inserting(s[j - 1 := s[j]][j := s[j - 1]], i, j - 1, rank, time)
  {
  }

  /** Once a[j] is not before its predecessor, or is at the bottom, the prefix is in order. */
  lemma InsertDone<T>(s: seq<T>, i: nat, j: nat, rank: T -> int, time: T -> int)
    requires j <= i < |s| && Inserting(s, i, j, rank, time)
    requires j == 0 || Before(s[j - 1], s[j], rank, time)
    ensures SortedBy(s[..i + 1], rank, time)
  {
    var p := s[..i + 1];
    forall k, l | 0 <= k < l < |p|
      ensures Before(p[k], p[l], rank, time)
    {
      if l == j && k < j - 1 {
        assert Before(s[k], s[j - 1], rank, time);
      }
    }
  }

  /** `.slice(0, 9)`: the first nine matches, or all of them when there are fewer. */
  function TopNine(s: seq<Match>): (r: seq<Match>)
    ensures |r| == if |s| < 9 then |s| else 9
    ensures r == s[..|r|]
  {
    if |s| < 9 then s else s[..9]
  }

  /** The Top Match badge: both teams are top clubs, exactly the matches of priority 1. */
  predicate TopMatchBadge(m: Match) {
    IsTopClub(m.homeTeam) && IsTopClub(m.awayTeam)
  }

  /** The High Score badge: four goals or more, whatever the priority. */
  predicate HighScoreBadge(m: Match) {
    TotalGoals(m) >= 4
  }

  lemma BadgesAndPriority(m: Match)
    ensures TopMatchBadge(m) <==> MatchPriority(m) == 1
    ensures MatchPriority(m) == 3 ==> HighScoreBadge(m)
    ensures MatchPriority(m) == 4 ==> !HighScoreBadge(m)
  {
  }

  /** handleMatchClick's search text: "<home> vs <away> <year> full match". */
  function ClickQuery(m: Match, year: int): (q: string)
    ensures |q| == |m.homeTeam| + 4 + |m.awayTeam| + 1 + |IntToString(year)| + 11
    ensures q[..|m.homeTeam|] == m.homeTeam
    ensures q[|m.homeTeam|..|m.homeTeam| + 4] == " vs "
    ensures q[|q| - 11..] == " full match"
  {
    m.homeTeam + " vs " + m.awayTeam + " " + IntToString(year) + " full match"
  }

  /** The away team and the year sit between " vs " and " full match". */
  lemma ClickQueryParts(m: Match, year: int)
    ensures var q := ClickQuery(m, year);
      q[|m.homeTeam| + 4..|q| - 11] == m.awayTeam + " " + IntToString(year)
  {
    var middle := m.awayTeam + " " + IntToString(year);
    assert ClickQuery(m, year) == (m.homeTeam + " vs ") + middle + " full match";
    Middle(m.homeTeam + " vs ", middle, " full match");
  }

  lemma Middle(p: string, m: string, s: string)
    ensures (p + m + s)[|p|..|p| + |m|] == m
  {
  }

  /** The parsed reply body: None where it has no `matches` field. */
  datatype Body = Unreadable(message: string) | Parsed(matches: Option<array<Match>>)

  /**
   * What the request to the proxy gave: a thrown value (its message when it is
   * an Error, None otherwise), or a response with its ok flag, status and body.
   */
  datatype Reply = Threw(message: Option<string>) | Answered(ok: bool, status: int, body: Body)

  /** The array the reply's `matches` field holds, which the sort changes. */
  function SortedArray(reply: Reply): set<object> {
    if reply.Answered? && reply.ok && reply.body.Parsed? && reply.body.matches.Some?
    then {reply.body.matches.value} else {}
  }

  /** The message a failed load shows. */
  function FailureMessage(reply: Reply): (r: Option<string>)
    ensures reply.Threw? ==> r == Some(reply.message.GetOr("Failed to load matches"))
    ensures reply.Answered? && !reply.ok ==> r == Some("HTTP error! status: " + IntToString(reply.status))
    ensures reply.Answered? && reply.ok && reply.body.Unreadable? ==> r == Some(reply.body.message)
    ensures reply.Answered? && reply.ok && reply.body.Parsed? ==> r.None?
  {
    match reply
    case Threw(message) => Some(message.GetOr("Failed to load matches"))
    case Answered(ok, status, body) =>
      if !ok then Some("HTTP error! status: " + IntToString(status))
      else if body.Unreadable? then Some(body.message)
      else None
  }

  /** The component's state: the featured matches, the loading flag and the error text. */
  class FeaturedState {
    var matches: seq<Match>
    var loading: bool
    var error: Option<string>

    /** useState: no matches, loading, no error. */
    constructor ()
      ensures matches == [] && loading && error == None
    {
      matches := [];
      loading := true;
      error := None;
    }

    /**
     * fetchRecentMatches once the reply is in: the reply's matches sorted in
     * place and their first nine shown, or the failure message set with the
     * shown matches kept. Loading ends either way.
     */
    method FetchRecentMatches(reply: Reply)
      modifies this, SortedArray(reply)
      ensures !loading
      ensures FailureMessage(reply).Some? ==> error == FailureMessage(reply) && matches == old(matches)
      ensures FailureMessage(reply).None? ==> error == old(error)
      ensures FailureMessage(reply).None? && reply.body.matches.None? ==> matches == []
      ensures FailureMessage(reply).None? && reply.body.matches.Some? ==>
        var a := reply.body.matches.value;
        && Sorted(a[..]) && multiset(a[..]) == multiset(old(a[..]))
        && matches == TopNine(a[..])
    {
      loading := true;
      var failure := FailureMessage(reply);
      if failure.Some? {
        error := failure;
      } else if reply.body.matches.None? {
        matches := [];
      } else {
        var a := reply.body.matches.value;
        Sort(a, MatchPriority, Kickoff);
        matches := TopNine(a[..]);
      }
      loading := false;
    }
  }

  /** The shown list is sorted, at most nine long, and made of matches of the reply. */
  lemma ShownMatches(a: seq<Match>, sorted: seq<Match>)
    requires Sorted(sorted) && multiset(sorted) == multiset(a)
    ensures Sorted(TopNine(sorted))
    ensures |TopNine(sorted)| <= 9
    ensures multiset(TopNine(sorted)) <= multiset(a)
  {
    var r := TopNine(sorted);
    assert sorted == r + sorted[|r|..];
  }
}
