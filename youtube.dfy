/**
 * src/utils/youtube.ts: the ISO 8601 duration formatter, the id -> duration
 * record built from a videos.list reply, and the reply -> Video mapping of a
 * single-video lookup. The HTTP round trip is an input: the model receives
 * what `fetch` and `response.json()` produced.
 */
module YouTube {
  import opened Wrappers
  import opened Text
  import opened Types

  // ----- formatDuration -----

  /**
   * What one optional group `(\d+X)?` of the pattern /PT(\d+H)?(\d+M)?(\d+S)?/
   * took: its digits ("" when the group is skipped) and the text matching goes
   * on with.
   */
  datatype Group = Group(digits: string, rest: string)

  /**
   * The group `(\d+X)?` tried at i. Greedy `\d+` backtracks, but a shorter
   * run of digits is followed by a digit, so the group matches exactly when the
   * whole run of digits is followed by the designator.
   */
  function ReadGroup(s: string, designator: char): (g: Group)
    requires !IsDigit(designator)
    ensures AllDigits(g.digits)
    ensures g.digits == "" ==> g.rest == s
    ensures g.digits != "" ==> s == g.digits + [designator] + g.rest
  {
    var n := DigitRun(s, 0);
    if n > 0 && n < |s| && s[n] == designator then
      assert s == s[..n] + [designator] + s[n + 1..];
      Group(s[..n], s[n + 1..])
    else
      Group("", s)
  }

  /** The three capture groups of the duration pattern, "" for a skipped group. */
  datatype Captures = Captures(hours: string, minutes: string, seconds: string)

  /** `duration.match(/PT(\d+H)?(\d+M)?(\d+S)?/)` with the designators already removed. */
  function MatchDuration(duration: string): (c: Option<Captures>)
  {
    match IndexOf(duration, "PT")
    case None => None
    case Some(i) => Some(GroupsFrom(duration[i + 2..]))
  }

  /** The three optional groups read one after another. */
  function GroupsFrom(s: string): (c: Captures)
  {
    var h := ReadGroup(s, 'H');
    var m := ReadGroup(h.rest, 'M');
    var sec := ReadGroup(m.rest, 'S');
    Captures(h.digits, m.digits, sec.digits)
  }

  /** The pattern matches exactly when "PT" occurs, and each capture is a string of digits. */
  lemma MatchDurationFacts(duration: string)
    ensures MatchDuration(duration).None? <==> !Occurs(duration, "PT")
    ensures MatchDuration(duration).Some? ==>
      var c := MatchDuration(duration).value;
      AllDigits(c.hours) && AllDigits(c.minutes) && AllDigits(c.seconds)
  {
  }

  /** The clock text built from the captured digit strings. */
  function Clock(c: Captures): string {
    if c.hours != "" then c.hours + ":" + PadStart(c.minutes, 2, '0') + ":" + PadStart(c.seconds, 2, '0')
    else (if c.minutes != "" then c.minutes else "0") + ":" + PadStart(c.seconds, 2, '0')
  }

  /** formatDuration: "0:00" without a match, the clock text of the captures otherwise. */
  function FormatDuration(duration: string): (r: string)
  {
    match MatchDuration(duration)
    case None => "0:00"
    case Some(c) => Clock(c)
  }

  /** Without "PT" the duration reads as "0:00". */
  lemma NoMatchZero(duration: string)
    requires !Occurs(duration, "PT")
    ensures FormatDuration(duration) == "0:00"
  {
    MatchDurationFacts(duration);
  }

  // ----- properties of formatDuration -----

  /** "PT" does not start inside a prefix that holds none when the rest starts with "PT". */
  lemma NotInPrefix(pre: string, u: string, j: nat)
    requires !Occurs(pre, "PT") && OccursAt(u, "PT", 0) && j < |pre|
    ensures !OccursAt(pre + u, "PT", j)
  {
    var d := pre + u;
    if j + 2 <= |pre| {
      assert d[j..j + 2] == pre[j..j + 2];
      assert !OccursAt(pre, "PT", j);
    } else {
      assert d[j + 1] == u[0] == u[..2][0];
    }
  }

  /** "PT" first occurs right after a prefix that holds none. */
  lemma FirstPTAfter(pre: string, u: string)
    requires !Occurs(pre, "PT") && OccursAt(u, "PT", 0)
    ensures IndexOf(pre + u, "PT") == Some(|pre|)
  {
    var d := pre + u;
    assert d[|pre|..|pre| + 2] == u[..2];
    assert OccursAt(d, "PT", |pre|);
    forall j: nat | j < |pre|
      ensures !OccursAt(d, "PT", j)
    {
      NotInPrefix(pre, u, j);
    }
  }

  /** Only the text from the first "PT" on matters. */
  lemma PrefixIgnored(pre: string, u: string)
    requires !Occurs(pre, "PT") && OccursAt(u, "PT", 0)
    ensures MatchDuration(pre + u) == MatchDuration(u)
    ensures FormatDuration(pre + u) == FormatDuration(u)
  {
    FirstPTAfter(pre, u);
    PTAtStart(u);
    assert (pre + u)[|pre| + 2..] == u[2..];
  }

  /** A duration that starts with "PT" is matched at 0. */
  lemma PTAtStart(u: string)
    requires OccursAt(u, "PT", 0)
    ensures IndexOf(u, "PT") == Some(0)
  {
  }

  /** `<digits><designator>` when the group is present, nothing when it is absent. */
  function Part(o: Option<string>, designator: char): string {
    match o
    case None => ""
    case Some(ds) => ds + [designator]
  }

  predicate DigitsOrNone(o: Option<string>) {
    o.Some? ==> o.value != "" && AllDigits(o.value)
  }

  /** Zero-padded to two places: the digits, or "00" when the group is absent. */
  function Two(o: Option<string>): string {
    PadStart(o.GetOr(""), 2, '0')
  }

  /** "PT[<h>H][<m>M][<s>S]" then `rest`. */
  function IsoText(h: Option<string>, m: Option<string>, s: Option<string>, rest: string): string {
    "PT" + (Part(h, 'H') + (Part(m, 'M') + (Part(s, 'S') + rest)))
  }

  /** The captures of "PT[<h>H][<m>M][<s>S]" followed by text that does not go on with a digit. */
  lemma IsoCaptures(h: Option<string>, m: Option<string>, s: Option<string>, rest: string)
    requires DigitsOrNone(h) && DigitsOrNone(m) && DigitsOrNone(s)
    requires rest == "" || !IsDigit(rest[0])
    ensures MatchDuration(IsoText(h, m, s, rest)) == Some(Captures(h.GetOr(""), m.GetOr(""), s.GetOr("")))
  {
    var u := IsoText(h, m, s, rest);
    assert u[..2] == "PT";
    PTAtStart(u);
    assert u[2..] == IsoGroupsText(h, m, s, rest);
    IsoGroups(h, m, s, rest);
  }

  /** What follows "PT": the three optional groups, then `rest`. */
  function IsoGroupsText(h: Option<string>, m: Option<string>, s: Option<string>, rest: string): string {
    Part(h, 'H') + (Part(m, 'M') + (Part(s, 'S') + rest))
  }

  lemma IsoGroups(h: Option<string>, m: Option<string>, s: Option<string>, rest: string)
    requires DigitsOrNone(h) && DigitsOrNone(m) && DigitsOrNone(s)
    requires rest == "" || !IsDigit(rest[0])
    ensures GroupsFrom(IsoGroupsText(h, m, s, rest)) == Captures(h.GetOr(""), m.GetOr(""), s.GetOr(""))
  {
    var ps := Part(s, 'S') + rest;
    var pm := Part(m, 'M') + ps;
    ReadGroupNone(rest, 'H');
    ReadGroupNone(rest, 'M');
    ReadGroupNone(rest, 'S');
    SkipPart(s, 'S', rest, 'H');
    SkipPart(s, 'S', rest, 'M');
    SkipPart(m, 'M', ps, 'H');
    TakePart(h, 'H', pm);
    TakePart(m, 'M', ps);
    TakePart(s, 'S', rest);
  }

  /** No group is read where the text does not go on with a digit. */
  lemma ReadGroupNone(rest: string, x: char)
    requires !IsDigit(x) && (rest == "" || !IsDigit(rest[0]))
    ensures ReadGroup(rest, x) == Group("", rest)
  {
  }

  /** A group present at the head is taken, and matching goes on after it, when the text after it skips that group. */
  lemma TakePart(o: Option<string>, x: char, b: string)
    requires DigitsOrNone(o) && !IsDigit(x)
    requires ReadGroup(b, x) == Group("", b)
    ensures ReadGroup(Part(o, x) + b, x) == Group(o.GetOr(""), b)
  {
    if o.Some? {
      var d, ds := Part(o, x) + b, o.value;
      assert d == ds + [x] + b;
      assert d[|ds|] == x;
      DigitRunExact(d, 0, |ds|);
      assert d[..|ds|] == ds;
      assert d[|ds| + 1..] == b;
    } else {
      assert Part(o, x) + b == b;
    }
  }

  /** A group with another designator at the head makes the sought group be skipped. */
  lemma SkipPart(o: Option<string>, des: char, b: string, x: char)
    requires DigitsOrNone(o) && !IsDigit(des) && !IsDigit(x) && des != x
    requires ReadGroup(b, x) == Group("", b)
    ensures ReadGroup(Part(o, des) + b, x) == Group("", Part(o, des) + b)
  {
    if o.Some? {
      var d, ds := Part(o, des) + b, o.value;
      assert d == ds + [des] + b;
      assert d[|ds|] == des;
      DigitRunExact(d, 0, |ds|);
    } else {
      assert Part(o, des) + b == b;
    }
  }

  /**
   * A duration "PT[<h>H][<m>M][<s>S]" followed by text that does not go on
   * with a digit: the digit strings come out verbatim, as H:MM:SS when an
   * hours group is present and as M:SS (minutes "0" when absent) otherwise.
   */
  lemma IsoDuration(h: Option<string>, m: Option<string>, s: Option<string>, rest: string)
    requires DigitsOrNone(h) && DigitsOrNone(m) && DigitsOrNone(s)
    requires rest == "" || !IsDigit(rest[0])
    ensures var r := FormatDuration(IsoText(h, m, s, rest));
      && (h.Some? ==> r == h.value + ":" + Two(m) + ":" + Two(s))
      && (h.None? ==> r == m.GetOr("0") + ":" + Two(s))
  {
    IsoCaptures(h, m, s, rest);
  }

  // ----- formatDuration on typical inputs -----

  /** Two-digit seconds are kept as they are. */
  lemma TwoDigits(sec: string)
    requires |sec| == 2
    ensures Two(Some(sec)) == sec
  {
  }

  /** A single digit gets one leading zero. */
  lemma OneDigit(sec: string)
    requires |sec| == 1
    ensures Two(Some(sec)) == "0" + sec
  {
  }

  lemma MinutesAndSecondsShape(d: string, m: string, sec: string)
    requires m != "" && AllDigits(m) && |sec| == 2 && AllDigits(sec)
    requires d == IsoText(None, Some(m), Some(sec), [])
    ensures FormatDuration(d) == m + ":" + sec
  {
    IsoDuration(None, Some(m), Some(sec), []);
    TwoDigits(sec);
  }

  lemma MinutesAndSecondsText(d: string, m: string, sec: string)
    requires d == "PT4M13S" && m == "4" && sec == "13"
    ensures d == IsoText(None, Some(m), Some(sec), []) && m + ":" + sec == "4:13"
  {
  }

  lemma MinutesAndSeconds()
    ensures FormatDuration("PT4M13S") == "4:13"
  {
    MinutesAndSecondsText("PT4M13S", "4", "13");
    MinutesAndSecondsShape("PT4M13S", "4", "13");
  }

  lemma HoursAndSecondsShape(d: string, h: string, m: Option<string>, sec: string)
    requires h != "" && AllDigits(h) && m.None? && |sec| == 1 && AllDigits(sec)
    requires d == IsoText(Some(h), m, Some(sec), [])
    ensures FormatDuration(d) == h + ":" + "00" + ":" + ("0" + sec)
  {
    IsoCaptures(Some(h), m, Some(sec), []);
    assert MatchDuration(d) == Some(Captures(h, "", sec));
    HoursClock(h, sec);
  }

  lemma HoursClock(h: string, sec: string)
    requires h != "" && |sec| == 1
    ensures Clock(Captures(h, "", sec)) == h + ":" + "00" + ":" + ("0" + sec)
  {
    assert PadStart("", 2, '0') == "00";
    assert PadStart(sec, 2, '0') == "0" + sec;
  }

  lemma HoursPaddedText(d: string, h: string, sec: string)
    requires d == "PT1H5S" && h == "1" && sec == "5"
    ensures d == IsoText(Some(h), None, Some(sec), [])
    ensures h + ":" + "00" + ":" + ("0" + sec) == "1:00:05"
  {
  }

  /** An absent minutes group is padded to "00" once hours are present. */
  lemma HoursPadded()
    ensures FormatDuration("PT1H5S") == "1:00:05"
  {
    HoursPaddedText("PT1H5S", "1", "5");
    HoursAndSecondsShape("PT1H5S", "1", None, "5");
  }

  lemma SecondsOnlyShape(d: string, h: Option<string>, m: Option<string>, sec: string)
    requires h.None? && m.None? && |sec| == 2 && AllDigits(sec)
    requires d == IsoText(h, m, Some(sec), [])
    ensures FormatDuration(d) == "0:" + sec
  {
    IsoCaptures(h, m, Some(sec), []);
    assert MatchDuration(d) == Some(Captures("", "", sec));
    SecondsClock(sec);
  }

  lemma SecondsClock(sec: string)
    requires |sec| == 2
    ensures Clock(Captures("", "", sec)) == "0:" + sec
  {
    assert PadStart(sec, 2, '0') == sec;
  }

  lemma SecondsText(d: string, sec: string)
    requires d == "PT90S" && sec == "90"
    ensures d == IsoText(None, None, Some(sec), []) && "0:" + sec == "0:90"
  {
  }

  /** Seconds are not carried into minutes. */
  lemma SecondsNotCarried()
    ensures FormatDuration("PT90S") == "0:90"
  {
    SecondsText("PT90S", "90");
    SecondsOnlyShape("PT90S", None, None, "90");
  }

  lemma NoGroupsShape(d: string, h: Option<string>, m: Option<string>, s: Option<string>)
    requires h.None? && m.None? && s.None?
    requires d == IsoText(h, m, s, [])
    ensures FormatDuration(d) == "0:00"
  {
    IsoCaptures(h, m, s, []);
    assert MatchDuration(d) == Some(Captures("", "", ""));
    ZeroClock();
  }

  lemma ZeroClock()
    ensures Clock(Captures("", "", "")) == "0:00"
  {
    assert PadStart("", 2, '0') == "00";
  }

  /** "PT" with no group at all reads as zero. */
  lemma EmptyDuration()
    ensures FormatDuration("PT") == "0:00"
  {
    NoGroupsShape("PT", None, None, None);
  }

  /** Where the only 'P' is followed by something other than 'T', there is no "PT". */
  lemma OnlyLeadingP(d: string)
    requires |d| >= 2 && d[1] != 'T'
    requires forall k :: 1 <= k < |d| ==> d[k] != 'P'
    ensures !Occurs(d, "PT")
  {
    forall i: nat | i <= |d|
      ensures !OccursAt(d, "PT", i)
    {
      if i + 2 <= |d| {
        assert d[i..i + 2][0] == d[i] && d[i..i + 2][1] == d[i + 1];
      }
    }
  }

  /** A duration of a day or more has no "PT" and comes out as "0:00". */
  lemma DaysDropped()
    ensures FormatDuration("P1DT2H3M") == "0:00"
  {
    OnlyLeadingP("P1DT2H3M");
    NoMatchZero("P1DT2H3M");
  }

  // ----- the videos.list reply -----

  /** An item's `snippet`; `mediumThumbnail` is None where `thumbnails.medium` is missing. */
  datatype Snippet = Snippet(title: string, channelTitle: string, publishedAt: string, mediumThumbnail: Option<string>)

  /** An item of the reply; `duration` is None where `contentDetails.duration` is missing. */
  datatype Item = Item(id: string, snippet: Option<Snippet>, duration: Option<string>)

  /** The parsed body; `items` is None where the field is missing. */
  datatype Reply = Reply(items: Option<seq<Item>>)

  /**
   * What `fetch` and `response.json()` gave: a rejected request, or a response
   * with its `ok` flag and its parsed body (None where the body did not parse).
   */
  datatype Fetched = Threw | Answered(ok: bool, body: Option<Reply>)

  /** The items of an ok response whose body parsed and has an `items` field. */
  function ReplyItems(f: Fetched): (r: Option<seq<Item>>)
    ensures r.Some? <==> f.Answered? && f.ok && f.body.Some? && f.body.value.items.Some?
  {
    if f.Answered? && f.ok && f.body.Some? then f.body.value.items else None
  }

  /** Every item has a duration, so reading them all throws nowhere. */
  predicate AllTimed(items: seq<Item>) {
    forall k :: 0 <= k < |items| ==> items[k].duration.Some?
  }

  /** The duration an item's field gives, "" where it has none (that field makes the lookup throw). */
  function Formatted(item: Item): string {
    match item.duration
    case Some(d) => FormatDuration(d)
    case None => ""
  }

  /** The record `forEach` builds: each item in turn writes its id, a later item overwriting an earlier one. */
  function Durations(items: seq<Item>): map<string, string>
    decreases |items|
  {
    if |items| == 0 then map[]
    else
      var last := items[|items| - 1];
      Durations(items[..|items| - 1])[last.id := Formatted(last)]
  }

  lemma DurationsSnoc(items: seq<Item>, i: nat)
    requires i < |items|
    ensures Durations(items[..i + 1]) == Durations(items[..i])[items[i].id := Formatted(items[i])]
  {
    assert items[..i + 1][..i] == items[..i];
  }

  /** The keys of the record are the ids of the items. */
  lemma {:induction false} DurationsKeys(items: seq<Item>)
    ensures Durations(items).Keys == (set k | 0 <= k < |items| :: items[k].id)
    decreases |items|
  {
    if |items| > 0 {
      var init := items[..|items| - 1];
      DurationsKeys(init);
      assert forall k :: 0 <= k < |init| ==> init[k] == items[k];
      assert (set k | 0 <= k < |items| :: items[k].id)
          == (set k | 0 <= k < |init| :: init[k].id) + {items[|items| - 1].id};
    }
  }

  /** No later item has the id of item k. */
  predicate LastWithId(items: seq<Item>, k: nat)
    requires k < |items|
  {
    forall l :: k < l < |items| ==> items[l].id != items[k].id
  }

  /** The last item with a given id decides its value in the record. */
  lemma {:induction false} DurationsLastWins(items: seq<Item>, k: nat)
    requires k < |items| && LastWithId(items, k)
    ensures items[k].id in Durations(items) && Durations(items)[items[k].id] == Formatted(items[k])
    decreases |items|
  {
    var n := |items| - 1;
    if k < n {
      var init := items[..n];
      assert init[k] == items[k];
      assert LastWithId(init, k) by {
        forall l | k < l < |init| ensures init[l].id != init[k].id {
          assert init[l] == items[l];
        }
      }
      DurationsLastWins(init, k);
      assert items[n].id != items[k].id;
    }
  }

  /**
   * fetchVideoDetails: the id -> formatted duration record of the reply. A
   * failed request, a non-ok response, a body that does not parse, a missing
   * `items` field or an item without a duration give the empty record;
   * otherwise each item in turn writes its duration under its id.
   */
  method FetchVideoDetails(f: Fetched) returns (durations: map<string, string>)
    ensures ReplyItems(f).None? ==> durations == map[]
    ensures ReplyItems(f).Some? && !AllTimed(ReplyItems(f).value) ==> durations == map[]
    ensures ReplyItems(f).Some? && AllTimed(ReplyItems(f).value) ==> durations == Durations(ReplyItems(f).value)
  {
    var found := ReplyItems(f);
    if found.None? {
      return map[];
    }
    var items := found.value;
    durations := map[];
    for i := 0 to |items|
      invariant forall k :: 0 <= k < i ==> items[k].duration.Some?
      invariant durations == Durations(items[..i])
    {
      if items[i].duration.None? {
        assert !AllTimed(items);
        return map[];
      }
      DurationsSnoc(items, i);
      durations := durations[items[i].id := FormatDuration(items[i].duration.value)];
    }
    assert items[..|items|] == items;
  }

  /** The first item of the reply, where there is one. */
  function FirstItem(f: Fetched): (r: Option<Item>)
    ensures r.Some? <==> ReplyItems(f).Some? && |ReplyItems(f).value| > 0
    ensures r.Some? ==> r.value == ReplyItems(f).value[0]
  {
    match ReplyItems(f)
    case None => None
    case Some(items) => if |items| > 0 then Some(items[0]) else None
  }

  /** The fields the single-video lookup reads are all there. */
  predicate Readable(item: Item) {
    item.snippet.Some? && item.snippet.value.mediumThumbnail.Some? && item.duration.Some?
  }

  /**
   * fetchVideoById: the first item of the reply as a Video, shown and original
   * title both the snippet's title, the duration formatted. Anything missing on
   * the way (a failed request, a non-ok response, no items, a missing snippet,
   * thumbnail or duration) gives None.
   */
  function FetchVideoById(f: Fetched): (v: Option<Video>)
    ensures v.Some? <==> FirstItem(f).Some? && Readable(FirstItem(f).value)
    ensures v.Some? ==>
      var item := FirstItem(f).value;
      var sn := item.snippet.value;
      && v.value.id == item.id
      && v.value.title == sn.title && v.value.originalTitle == sn.title
      && v.value.thumbnail == sn.mediumThumbnail.value
      && v.value.channelTitle == sn.channelTitle && v.value.publishedAt == sn.publishedAt
      && v.value.duration == Some(FormatDuration(item.duration.value))
  {
    match FirstItem(f)
    case None => None
    case Some(item) =>
      if !Readable(item) then None
      else
        var sn := item.snippet.value;
        Some(Video(item.id, sn.title, sn.mediumThumbnail.value, sn.channelTitle, sn.publishedAt,
                   sn.title, Some(FormatDuration(item.duration.value))))
  }
}
