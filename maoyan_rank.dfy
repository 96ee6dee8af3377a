/**
 * The Maoyan ranking subscription plugin (plugins/maoyanrank/__init__.py):
 * building the ranking URLs from the settings, collecting and truncating
 * the ranked items, de-duplicating the series by title, and subscribing new
 * items against an append-only history keyed by a unique flag. The browser,
 * the page parsing, the media recogniser and the subscription chains are
 * inputs; so are today's date string and the calendar step that turns a
 * day offset into a year.
 */
module MaoyanRank {
  import opened Wrappers
  import opened Builtins

  const MovieUrl: string := "https://piaofang.maoyan.com/dashboard-ajax/movie"
  const WebHeatUrl: string := "https://piaofang.maoyan.com/dashboard/webHeatData"

  /** The ranking of all series kinds on one platform for one day. */
  function CombinedUrl(date: string, platform: int): string
  {
    WebHeatUrl + "?showDate=" + date + "&platformType=" + IntToStr(platform)
  }

  /** The ranking of one series kind on one platform for one day. */
  function SeriesUrl(date: string, series: int, platform: int): string
  {
    WebHeatUrl + "?showDate=" + date + "&seriesType=" + IntToStr(series) + "&platformType=" + IntToStr(platform)
  }

  /** How many series URLs the selection gives, by the three cases. */
  function TvUrlCount(types: seq<string>, seriesType: seq<int>): nat
  {
    if "web-heat" !in types then 0
    else if |seriesType| == 3 then 2
    else if 0 in seriesType && 1 in seriesType then 1
    else |seriesType|
  }

  /**
   * The URL part of `__refresh_maoyan`: the movie URL iff `movie` is
   * selected; series URLs only when `web-heat` is selected, namely a
   * combined one and a variety one for three series kinds, one combined URL
   * when both 0 and 1 are selected, and otherwise one per selected kind, in
   * order.
   */
  method BuildUrls(types: seq<string>, seriesType: seq<int>, platform: int, date: string)
    returns (movieUrl: string, tvUrls: seq<string>)
    ensures movieUrl != "" <==> "movie" in types
    ensures movieUrl != "" ==> movieUrl == MovieUrl
    ensures |tvUrls| == TvUrlCount(types, seriesType)
    ensures "web-heat" in types && |seriesType| == 3 ==>
      tvUrls == [CombinedUrl(date, platform), SeriesUrl(date, 2, platform)]
    ensures "web-heat" in types && |seriesType| != 3 && 0 in seriesType && 1 in seriesType ==>
      tvUrls == [CombinedUrl(date, platform)]
    ensures "web-heat" in types && |seriesType| != 3 && !(0 in seriesType && 1 in seriesType) ==>
      forall i :: 0 <= i < |tvUrls| ==> tvUrls[i] == SeriesUrl(date, seriesType[i], platform)
  {
    movieUrl := "";
    tvUrls := [];
    if "movie" in types {
      movieUrl := MovieUrl;
    }
    if "web-heat" in types {
      if |seriesType| == 3 {
        tvUrls := [CombinedUrl(date, platform), SeriesUrl(date, 2, platform)];
      } else if 0 in seriesType && 1 in seriesType {
        tvUrls := [CombinedUrl(date, platform)];
      } else {
        tvUrls := SeriesUrls(seriesType, platform, date);
      }
    }
  }

  /** The `for series in self._seriesType` loop: one URL per selected kind, in order. */
  method SeriesUrls(seriesType: seq<int>, platform: int, date: string) returns (tvUrls: seq<string>)
    ensures |tvUrls| == |seriesType|
    ensures forall i :: 0 <= i < |tvUrls| ==> tvUrls[i] == SeriesUrl(date, seriesType[i], platform)
  {
    tvUrls := [];
    ghost var want := seq(|seriesType|, j requires 0 <= j < |seriesType| => SeriesUrl(date, seriesType[j], platform));
    for i := 0 to |seriesType|
      invariant tvUrls == want[..i]
    {
      var url := SeriesUrl(date, seriesType[i], platform);
      assert want[..i + 1] == want[..i] + [url];
      tvUrls := tvUrls + [url];
    }
    assert want[..|seriesType|] == want;
  }

  /** Every series URL is a web-heat URL for the given day. */
  lemma SeriesUrlsAreWebHeat(date: string, series: int, platform: int)
    ensures WebHeatUrl + "?showDate=" + date <= SeriesUrl(date, series, platform)
    ensures WebHeatUrl + "?showDate=" + date <= CombinedUrl(date, platform)
  {
    var head := WebHeatUrl + "?showDate=" + date;
    assert SeriesUrl(date, series, platform) == head + ("&seriesType=" + IntToStr(series) + "&platformType=" + IntToStr(platform));
    assert CombinedUrl(date, platform) == head + ("&platformType=" + IntToStr(platform));
  }

  /** A ranked item: its title, its `releaseInfo` and (series only) its `platformDesc`. */
  datatype RankItem = RankItem(title: string, releaseInfo: Option<string>, platformDesc: Option<string>)

  predicate HasTitle(d: seq<RankItem>, t: string)
  {
    exists i :: 0 <= i < |d| && d[i].title == t
  }

  /** The first index of an item titled `t`, or the length. */
  function FirstTitle(items: seq<RankItem>, t: string): (k: nat)
    ensures k <= |items|
    ensures forall j :: 0 <= j < k ==> items[j].title != t
    ensures k < |items| ==> items[k].title == t
    ensures k < |items| <==> HasTitle(items, t)
  {
    if |items| == 0 || items[0].title == t then 0 else 1 + FirstTitle(items[1..], t)
  }

  /** `d[title] = x` on an insertion-ordered dict held as a list of its values. */
  function Absorb(d: seq<RankItem>, x: RankItem): (r: seq<RankItem>)
    ensures |r| == if HasTitle(d, x.title) then |d| else |d| + 1
    ensures forall i :: 0 <= i < |d| ==> r[i] == if i == FirstTitle(d, x.title) then x else d[i]
    ensures forall i :: 0 <= i < |d| ==> r[i].title == d[i].title
    ensures !HasTitle(d, x.title) ==> r[|d|] == x
  {
    var p := FirstTitle(d, x.title);
    if p < |d| then d[p := x] else d + [x]
  }

  /** `list({item['title']: item for item in items}.values())`. */
  function Dedup(items: seq<RankItem>): (r: seq<RankItem>)
    ensures |r| <= |items|
  {
    if |items| == 0 then [] else Absorb(Dedup(items[..|items| - 1]), items[|items| - 1])
  }

  predicate UniqueTitles(d: seq<RankItem>)
  {
    forall i, j :: 0 <= i < j < |d| ==> d[i].title != d[j].title
  }

  lemma HasTitleSnoc(items: seq<RankItem>, x: RankItem, t: string)
    ensures HasTitle(items + [x], t) <==> HasTitle(items, t) || x.title == t
  {
    var s := items + [x];
    if HasTitle(items, t) {
      var i :| 0 <= i < |items| && items[i].title == t;
      assert s[i] == items[i];
    }
    if x.title == t {
      assert s[|items|] == x;
    }
    if HasTitle(s, t) && !HasTitle(items, t) {
      var i :| 0 <= i < |s| && s[i].title == t;
      if i < |items| {
        assert s[i] == items[i];
      }
    }
  }

  /** Absorbing a record adds its title, and only that one, and keeps titles unique. */
  lemma AbsorbTitles(d: seq<RankItem>, x: RankItem, t: string)
    ensures HasTitle(Absorb(d, x), t) <==> HasTitle(d, t) || t == x.title
    ensures UniqueTitles(d) ==> UniqueTitles(Absorb(d, x))
  {
    var r := Absorb(d, x);
    if HasTitle(d, x.title) {
      assert forall i :: 0 <= i < |r| ==> r[i].title == d[i].title;
      if HasTitle(d, t) {
        var i :| 0 <= i < |d| && d[i].title == t;
        assert r[i].title == t;
      }
      if HasTitle(r, t) {
        var i :| 0 <= i < |r| && r[i].title == t;
        assert d[i].title == t;
      }
    } else {
      assert r == d + [x];
      HasTitleSnoc(d, x, t);
      if UniqueTitles(d) {
        forall i | 0 <= i < |d| ensures r[i].title != x.title {
          assert r[i].title == d[i].title;
        }
      }
    }
  }

  /** After de-duplication no two items share a title, and the titles are exactly those of the input. */
  lemma {:induction false} DedupTitles(items: seq<RankItem>)
    ensures UniqueTitles(Dedup(items))
    ensures forall t :: HasTitle(Dedup(items), t) <==> HasTitle(items, t)
    decreases |items|
  {
    if |items| > 0 {
      var init := items[..|items| - 1];
      var x := items[|items| - 1];
      assert items == init + [x];
      DedupTitles(init);
      forall t ensures HasTitle(Dedup(items), t) <==> HasTitle(items, t) {
        AbsorbTitles(Dedup(init), x, t);
        HasTitleSnoc(init, x, t);
      }
      AbsorbTitles(Dedup(init), x, x.title);
    }
  }

  lemma FirstTitleSnoc(items: seq<RankItem>, x: RankItem, t: string)
    ensures FirstTitle(items + [x], t) ==
      if FirstTitle(items, t) < |items| then FirstTitle(items, t)
      else if x.title == t then |items| else |items| + 1
  {
    var k := FirstTitle(items, t);
    var s := items + [x];
    assert forall j :: 0 <= j < |items| ==> s[j] == items[j];
    if k < |items| {
      assert s[k].title == t;
    } else if x.title == t {
      assert s[|items|].title == t;
    }
  }

  /** The last record of a title: no later record carries it. */
  predicate LastOfTitle(items: seq<RankItem>, k: nat)
  {
    k < |items| && forall m :: k < m < |items| ==> items[m].title != items[k].title
  }

  /** A last record stays last when a record of another title follows it. */
  lemma LastOfTitleSnoc(init: seq<RankItem>, x: RankItem, k: nat)
    requires LastOfTitle(init, k) && init[k].title != x.title
    ensures LastOfTitle(init + [x], k) && (init + [x])[k] == init[k]
  {
    var items := init + [x];
    forall m | k < m < |items| ensures items[m].title != items[k].title {
      if m < |init| {
        assert items[m] == init[m];
      }
    }
  }

  /** For a repeated title the last record is kept. */
  lemma {:induction false} DedupLastWins(items: seq<RankItem>, i: nat)
    requires i < |Dedup(items)|
    ensures exists k: nat :: LastOfTitle(items, k) && items[k] == Dedup(items)[i]
    decreases |items|
  {
    var init := items[..|items| - 1];
    var x := items[|items| - 1];
    assert items == init + [x];
    var d := Dedup(init);
    var p := FirstTitle(d, x.title);
    if i < |d| && i != p {
      DedupTitles(init);
      DedupLastWins(init, i);
      var k: nat :| LastOfTitle(init, k) && init[k] == d[i];
      if p < |d| {
        assert d[p].title == x.title;
      }
      LastOfTitleSnoc(init, x, k);
    } else {
      assert LastOfTitle(items, |items| - 1);
    }
  }

  /** Each kept title sits where that title first occurred: the order is the order of first occurrences. */
  lemma {:induction false} DedupFirstPositions(items: seq<RankItem>, i: nat, j: nat)
    requires i < j < |Dedup(items)|
    ensures FirstTitle(items, Dedup(items)[i].title) < FirstTitle(items, Dedup(items)[j].title)
    decreases |items|
  {
    var init := items[..|items| - 1];
    var x := items[|items| - 1];
    assert items == init + [x];
    var d := Dedup(init);
    var r := Dedup(items);
    DedupTitles(init);
    FirstTitleSnoc(init, x, r[i].title);
    FirstTitleSnoc(init, x, r[j].title);
    assert r[i].title == d[i].title;
    assert HasTitle(d, d[i].title);
    assert HasTitle(init, d[i].title);
    if j < |d| {
      assert r[j].title == d[j].title;
      assert HasTitle(d, d[j].title);
      assert HasTitle(init, d[j].title);
      DedupFirstPositions(init, i, j);
    } else {
      assert r[j] == x && !HasTitle(d, x.title);
      assert !HasTitle(init, x.title);
    }
  }

  /** How a page fetch ends: the items it yields, or `None` when loading or parsing raises. */
  datatype Browser = Browser(launches: bool, page: string -> Option<seq<RankItem>>)

  function PageItems(b: Browser, url: string): seq<RankItem>
  {
    match b.page(url) case None => [] case Some(items) => items
  }

  /** The series records the URL loop collects: at most `num` per URL, in URL order. */
  function Collected(b: Browser, tvUrls: seq<string>, num: int): (r: seq<RankItem>)
    ensures 0 <= num ==> |r| <= |tvUrls| * num
  {
    if |tvUrls| == 0 then []
    else
      var init := tvUrls[..|tvUrls| - 1];
      var r := Collected(b, init, num) + SliceTo(PageItems(b, tvUrls[|tvUrls| - 1]), num);
      assert 0 <= num ==> |r| <= |init| * num + num;
      r
  }

  /**
   * `__get_url_info`: when the browser cannot be launched the call raises
   * (`raised`) and both lists are empty. Otherwise the movie list is the
   * first `num` movies of the movie page (none when there is no movie URL or
   * the page fails), and the series list is the first `num` records of each
   * series page, concatenated and de-duplicated by title.
   */
  method GetUrlInfo(movieUrl: string, tvUrls: seq<string>, num: int, b: Browser)
    returns (raised: bool, moviesList: seq<RankItem>, tvList: seq<RankItem>)
    ensures raised <==> !b.launches
    ensures raised ==> moviesList == [] && tvList == []
    ensures !raised ==> moviesList == (if movieUrl == "" then [] else SliceTo(PageItems(b, movieUrl), num))
    ensures !raised ==> tvList == (if tvUrls == [] then [] else Dedup(Collected(b, tvUrls, num)))
    ensures 0 <= num ==> |moviesList| <= num && |tvList| <= |tvUrls| * num
  {
    moviesList := [];
    tvList := [];
    if !b.launches {
      return true, [], [];
    }
    raised := false;
    if movieUrl != "" {
      match b.page(movieUrl) {
        case None =>
        case Some(data) => moviesList := SliceTo(data, num);
      }
    }
    if tvUrls != [] {
      for i := 0 to |tvUrls|
        invariant tvList == Collected(b, tvUrls[..i], num)
      {
        assert tvUrls[..i + 1][..i] == tvUrls[..i];
        match b.page(tvUrls[i]) {
          case None =>
          case Some(data) => tvList := tvList + SliceTo(data, num);
        }
      }
      assert tvUrls[..|tvUrls|] == tvUrls;
      tvList := Dedup(tvList);
    }
  }

  // Subscription

  datatype MediaKind = Movie | Tv

  /** `f"{mtype}"` for the `MediaType` enum member. */
  function MediaTypeText(k: MediaKind): string
  {
    match k case Movie => "MediaType.MOVIE" case Tv => "MediaType.TV"
  }

  /** `''.join(re.findall(r'\d', s))`. */
  function Digits(s: string): (d: string)
    ensures forall i :: 0 <= i < |d| ==> IsDigit(d[i])
    ensures |d| <= |s|
    ensures (forall i :: 0 <= i < |s| ==> !IsDigit(s[i])) <==> d == ""
  {
    if |s| == 0 then ""
    else
      var rest := Digits(s[1..]);
      assert forall i :: 1 <= i < |s| ==> s[i] == s[1..][i - 1];
      if IsDigit(s[0]) then [s[0]] + rest else rest
  }

  /**
   * The year of an item: all digits of `releaseInfo`, read as a number of
   * days before today, then `yearBefore` (the calendar step, `None` when it
   * raises). A missing `releaseInfo` or one without digits gives `None`.
   */
  function YearOf(releaseInfo: Option<string>, yearBefore: nat -> Option<int>): (y: Option<int>)
    ensures releaseInfo.None? ==> y.None?
    ensures releaseInfo.Some? && Digits(releaseInfo.value) == "" ==> y.None?
    ensures releaseInfo.Some? && Digits(releaseInfo.value) != "" ==>
      y == yearBefore(ParseDecimal(Digits(releaseInfo.value)))
  {
    match releaseInfo
    case None => None
    case Some(info) =>
      var d := Digits(info);
      if d == "" then None else yearBefore(ParseDecimal(d))
  }

  /** The digits are picked out of any text free of other digits. */
  lemma DigitsIgnoreText(prefix: string, digits: string, suffix: string)
    requires forall i :: 0 <= i < |prefix| ==> !IsDigit(prefix[i])
    requires forall i :: 0 <= i < |digits| ==> IsDigit(digits[i])
    requires forall i :: 0 <= i < |suffix| ==> !IsDigit(suffix[i])
    ensures Digits(prefix + digits + suffix) == digits
  {
    DigitsAppend(prefix, digits);
    DigitsOfDigits(digits);
    assert Digits(prefix) == "";
    assert Digits(prefix + digits) == digits;
    DigitsAppend(prefix + digits, suffix);
    assert Digits(suffix) == "";
  }

  /** A `releaseInfo` such as "上映3天" gives the year `yearBefore(3)`. */
  lemma YearOfDaysAgo(prefix: string, n: nat, suffix: string, yearBefore: nat -> Option<int>)
    requires forall i :: 0 <= i < |prefix| ==> !IsDigit(prefix[i])
    requires forall i :: 0 <= i < |suffix| ==> !IsDigit(suffix[i])
    ensures YearOf(Some(prefix + NatToStr(n) + suffix), yearBefore) == yearBefore(n)
  {
    var digits := NatToStr(n);
    DigitsIgnoreText(prefix, digits, suffix);
    ParseNatToStr(n);
  }

  lemma {:induction false} DigitsAppend(a: string, b: string)
    ensures Digits(a + b) == Digits(a) + Digits(b)
    decreases |a|
  {
    if |a| == 0 {
      assert a + b == b;
    } else {
      assert (a + b)[1..] == a[1..] + b;
      DigitsAppend(a[1..], b);
    }
  }

  lemma {:induction false} DigitsOfDigits(s: string)
    requires forall i :: 0 <= i < |s| ==> IsDigit(s[i])
    ensures Digits(s) == s
    decreases |s|
  {
    if |s| > 0 {
      DigitsOfDigits(s[1..]);
    }
  }

  function YearText(y: Option<int>): string
  {
    match y case None => "None" case Some(v) => IntToStr(v)
  }

  /** `f"maoyanrank: {mtype}_{title}_{year}"`. */
  function Flag(k: MediaKind, title: string, year: Option<int>): (f: string)
    ensures "maoyanrank: " <= f
  {
    "maoyanrank: " + MediaTypeText(k) + "_" + title + "_" + YearText(year)
  }

  /** What the recogniser reports about a media item (title, year, TMDB id). */
  datatype MediaInfo = MediaInfo(title: string, year: string, tmdbId: int)

  /**
   * The chains `set_sub` consults: the recogniser (`None` when nothing is
   * recognised), whether the media is already in the library, whether it is
   * already subscribed, whether adding the subscription raises (caught for
   * the item, so its record is not appended), and the calendar step.
   */
  datatype Chains = Chains(
    recognize: (string, Option<int>, MediaKind) -> Option<MediaInfo>,
    inLibrary: MediaInfo -> bool,
    subscribed: MediaInfo -> bool,
    addRaises: MediaInfo -> bool,
    yearBefore: nat -> Option<int>)

  /** One history record; `platformDesc` falls back to `未知` when the item has none. */
  datatype HistoryEntry = HistoryEntry(
    title: string, releaseInfo: Option<string>, platformDesc: string, media: MediaInfo, unique: string)

  function Flags(h: seq<HistoryEntry>): (r: seq<string>)
    ensures |r| == |h| && forall i :: 0 <= i < |h| ==> r[i] == h[i].unique
  {
    seq(|h|, i requires 0 <= i < |h| => h[i].unique)
  }

  /** The history after considering one item. */
  function SubStep(h: seq<HistoryEntry>, x: RankItem, k: MediaKind, c: Chains): seq<HistoryEntry>
  {
    var year := YearOf(x.releaseInfo, c.yearBefore);
    var flag := Flag(k, x.title, year);
    if flag in Flags(h) then h
    else match c.recognize(x.title, year, k)
      case None => h
      case Some(m) =>
        if c.inLibrary(m) || c.subscribed(m) || c.addRaises(m) then h
        else h + [HistoryEntry(x.title, x.releaseInfo, match x.platformDesc case None => "未知" case Some(p) => p, m, flag)]
  }

  /** The history after `set_sub` over `items`, one item at a time. */
  function SubFold(h: seq<HistoryEntry>, items: seq<RankItem>, k: MediaKind, c: Chains): seq<HistoryEntry>
  {
    if |items| == 0 then h else SubStep(SubFold(h, items[..|items| - 1], k, c), items[|items| - 1], k, c)
  }

  predicate DistinctFlags(h: seq<HistoryEntry>)
  {
    forall i, j :: 0 <= i < j < |h| ==> h[i].unique != h[j].unique
  }

  /**
   * The history only grows at the end; each new record carries the flag
   * of its own title and year; its flag was not in the history before; and
   * distinct flags stay distinct.
   */
  lemma {:induction false} SubFoldHistory(h: seq<HistoryEntry>, items: seq<RankItem>, k: MediaKind, c: Chains)
    ensures h <= SubFold(h, items, k, c)
    ensures forall i :: |h| <= i < |SubFold(h, items, k, c)| ==>
      SubFold(h, items, k, c)[i].unique !in Flags(h) &&
      SubFold(h, items, k, c)[i].unique ==
        Flag(k, SubFold(h, items, k, c)[i].title, YearOf(SubFold(h, items, k, c)[i].releaseInfo, c.yearBefore))
    ensures DistinctFlags(h) ==> DistinctFlags(SubFold(h, items, k, c))
    decreases |items|
  {
    if |items| > 0 {
      var init := items[..|items| - 1];
      SubFoldHistory(h, init, k, c);
      var g := SubFold(h, init, k, c);
      var r := SubFold(h, items, k, c);
      if |r| > |g| {
        assert r == g + [r[|g|]];
        assert r[|g|].unique !in Flags(g);
        forall i | |h| <= i < |r| ensures r[i].unique !in Flags(h) {
          if i < |g| {
            assert r[i] == g[i];
          } else {
            assert forall j :: 0 <= j < |h| ==> g[j] == h[j];
            assert forall j :: 0 <= j < |h| ==> Flags(h)[j] == Flags(g)[j];
          }
        }
        assert forall i :: 0 <= i < |g| ==> r[i] == g[i];
      }
    }
  }

  /** An item whose flag is already recorded changes nothing. */
  lemma SubStepSkipsKnown(h: seq<HistoryEntry>, x: RankItem, k: MediaKind, c: Chains)
    requires Flag(k, x.title, YearOf(x.releaseInfo, c.yearBefore)) in Flags(h)
    ensures SubStep(h, x, k, c) == h
  {
  }

  /** A flag recorded in a history stays recorded in any extension of it. */
  lemma FlagsGrow(h: seq<HistoryEntry>, h': seq<HistoryEntry>)
    requires h <= h'
    ensures forall f :: f in Flags(h) ==> f in Flags(h')
  {
    forall f | f in Flags(h) ensures f in Flags(h') {
      var j :| 0 <= j < |h| && Flags(h)[j] == f;
      assert Flags(h')[j] == f;
    }
  }

  /**
   * An item the history has settled: its flag is recorded, or the chains
   * turn it away (a raising `add` raises again on the same chains).
   */
  predicate Settled(h: seq<HistoryEntry>, x: RankItem, k: MediaKind, c: Chains)
  {
    var year := YearOf(x.releaseInfo, c.yearBefore);
    Flag(k, x.title, year) in Flags(h) ||
    match c.recognize(x.title, year, k)
      case None => true
      case Some(m) => c.inLibrary(m) || c.subscribed(m) || c.addRaises(m)
  }

  lemma SettledGrows(h: seq<HistoryEntry>, h': seq<HistoryEntry>, x: RankItem, k: MediaKind, c: Chains)
    requires h <= h' && Settled(h, x, k, c)
    ensures Settled(h', x, k, c)
  {
    var flag := Flag(k, x.title, YearOf(x.releaseInfo, c.yearBefore));
    if flag in Flags(h) {
      var j :| 0 <= j < |h| && Flags(h)[j] == flag;
      assert Flags(h')[j] == flag;
    }
  }

  /** After a pass every item of the pass is settled. */
  lemma {:induction false} SubFoldSettles(h: seq<HistoryEntry>, items: seq<RankItem>, k: MediaKind, c: Chains)
    ensures forall i :: 0 <= i < |items| ==> Settled(SubFold(h, items, k, c), items[i], k, c)
    decreases |items|
  {
    if |items| > 0 {
      var init := items[..|items| - 1];
      var x := items[|items| - 1];
      var g := SubFold(h, init, k, c);
      var r := SubStep(g, x, k, c);
      assert SubFold(h, items, k, c) == r;
      SubFoldSettles(h, init, k, c);
      SubStepSettles(g, x, k, c);
      forall i | 0 <= i < |items| ensures Settled(r, items[i], k, c) {
        if i < |init| {
          assert items[i] == init[i];
          SettledGrows(g, r, items[i], k, c);
        }
      }
    }
  }

  /** One step settles its own item and only appends. */
  lemma SubStepSettles(h: seq<HistoryEntry>, x: RankItem, k: MediaKind, c: Chains)
    ensures h <= SubStep(h, x, k, c)
    ensures Settled(SubStep(h, x, k, c), x, k, c)
  {
    var r := SubStep(h, x, k, c);
    if r != h {
      assert Flags(r)[|h|] == Flag(k, x.title, YearOf(x.releaseInfo, c.yearBefore));
    }
  }

  /** A pass over settled items changes nothing. */
  lemma {:induction false} SettledFoldIsIdentity(h: seq<HistoryEntry>, items: seq<RankItem>, k: MediaKind, c: Chains)
    requires forall i :: 0 <= i < |items| ==> Settled(h, items[i], k, c)
    ensures SubFold(h, items, k, c) == h
    decreases |items|
  {
    if |items| > 0 {
      var init := items[..|items| - 1];
      assert forall i :: 0 <= i < |init| ==> init[i] == items[i];
      SettledFoldIsIdentity(h, init, k, c);
    }
  }

  /** Considering the same items twice subscribes nothing the second time. */
  lemma SubFoldRerun(h: seq<HistoryEntry>, items: seq<RankItem>, k: MediaKind, c: Chains)
    ensures SubFold(SubFold(h, items, k, c), items, k, c) == SubFold(h, items, k, c)
  {
    SubFoldSettles(h, items, k, c);
    SettledFoldIsIdentity(SubFold(h, items, k, c), items, k, c);
  }

  class RankHistory {
    var entries: seq<HistoryEntry>

    /** `self.get_data('history') or []`. */
    constructor(saved: seq<HistoryEntry>)
      ensures entries == saved
    {
      entries := saved;
    }

    /**
     * `set_sub`: for each item, skip it when its flag is already in the
     * history, when it is not recognised, when it is in the library or
     * already subscribed, or when adding the subscription raises; otherwise
     * subscribe it (the returned media) and append its record.
     */
    method SetSub(items: seq<RankItem>, k: MediaKind, c: Chains) returns (added: seq<MediaInfo>)
      modifies this
      ensures entries == SubFold(old(entries), items, k, c)
      ensures |entries| == |old(entries)| + |added|
      ensures forall i :: 0 <= i < |added| ==> entries[|old(entries)| + i].media == added[i]
    {
      added := [];
      for i := 0 to |items|
        invariant entries == SubFold(old(entries), items[..i], k, c)
        invariant |entries| == |old(entries)| + |added|
        invariant forall j :: 0 <= j < |added| ==> entries[|old(entries)| + j].media == added[j]
      {
        assert items[..i + 1][..i] == items[..i];
        var m := SubscribeOne(items[i], k, c);
        if m.Some? {
          added := added + [m.value];
        }
      }
      assert items[..|items|] == items;
    }

    /**
     * The body of the `set_sub` loop for one item; `continue` becomes an
     * early return. The subscribed media, if any, is returned.
     */
    method SubscribeOne(x: RankItem, k: MediaKind, c: Chains) returns (subscribed: Option<MediaInfo>)
      modifies this
      ensures entries == SubStep(old(entries), x, k, c)
      ensures subscribed.None? ==> entries == old(entries)
      ensures subscribed.Some? ==> |entries| == |old(entries)| + 1 && entries[|old(entries)|].media == subscribed.value
    {
      var year := YearOf(x.releaseInfo, c.yearBefore);
      var uniqueFlag := Flag(k, x.title, year);
      if uniqueFlag in Flags(entries) {
        return None;
      }
      var mediainfo := c.recognize(x.title, year, k);
      if mediainfo.None? {
        return None;
      }
      var m := mediainfo.value;
      if c.inLibrary(m) {
        return None;
      }
      if c.subscribed(m) {
        return None;
      }
      if c.addRaises(m) {
        return None;
      }
      var platformDesc := match x.platformDesc case None => "未知" case Some(p) => p;
      entries := entries + [HistoryEntry(x.title, x.releaseInfo, platformDesc, m, uniqueFlag)];
      return Some(m);
    }

    /**
     * `__refresh_maoyan`: build the URLs, fetch (a raising fetch leaves both
     * lists empty), subscribe the movies, then the series, and return the
     * history to be saved, which happens in every case.
     */
    method Refresh(types: seq<string>, seriesType: seq<int>, platform: int, num: int, date: string,
                   b: Browser, c: Chains) returns (saved: seq<HistoryEntry>)
      modifies this
      ensures !b.launches ==> entries == old(entries)
      ensures old(entries) <= entries && saved == entries
      ensures forall i :: |old(entries)| <= i < |entries| ==> entries[i].unique !in Flags(old(entries))
      ensures DistinctFlags(old(entries)) ==> DistinctFlags(entries)
    {
      var movieUrl, tvUrls := BuildUrls(types, seriesType, platform, date);
      var tvList: seq<RankItem> := [];
      var movieList: seq<RankItem> := [];
      var raised, movies, tv := GetUrlInfo(movieUrl, tvUrls, num, b);
      if !raised {
        movieList, tvList := movies, tv;
      }
      ghost var before := entries;
      var _ := SetSub(movieList, Movie, c);
      SubFoldHistory(before, movieList, Movie, c);
      ghost var middle := entries;
      var _ := SetSub(tvList, Tv, c);
      SubFoldHistory(middle, tvList, Tv, c);
      forall i | |before| <= i < |entries| ensures entries[i].unique !in Flags(before) {
        if i < |middle| {
          assert entries[i] == middle[i];
        } else {
          FlagsGrow(before, middle);
        }
      }
      saved := entries;
    }
  }
}
