/**
 * The NetEase Cloud Music adapter (plugins/syncmusiclist/cloudmusic.py):
 * the bounded retry around the playlist fetch, the per-track normalisation
 * of names and artists, the daily-recommendation slice and the choice of
 * login endpoint. The API client itself is not modelled: what each call
 * returns is an input.
 */
module CloudMusic {
  import opened Wrappers
  import opened Builtins
  import opened TextUtils

  /** A song as the API returns it: its name and the names of its artists (`ar`). */
  datatype RawSong = RawSong(name: string, artists: seq<string>)

  /** `[name, ars]` as the adapter emits it. */
  datatype WyTrack = WyTrack(name: string, artists: seq<string>)

  /**
   * The outcome of one call to `playlist`: it raises, it returns `None`
   * (the response has no `songs`), or it returns the songs.
   */
  datatype PlaylistFetch = FetchRaised | NoSongs | Songs(songs: seq<RawSong>)

  /** The number of attempts `songofplaylist` makes before giving up. */
  const MaxRetryTimes: nat := 5

  /** The per-track rule: `sub_str` on the name, `change_str` on every artist, artist order kept. */
  function MapTrack(s: RawSong): (t: WyTrack)
    ensures |t.artists| == |s.artists|
    ensures NoBracketSpan(t.name)
  {
    SubStrNoBracketSpan(s.name);
    WyTrack(SubStr(s.name), seq(|s.artists|, i requires 0 <= i < |s.artists| => ChangeStr(s.artists[i])))
  }

  /** Feeding a mapped track through the rule again changes nothing. */
  lemma MapTrackIdempotent(s: RawSong)
    ensures MapTrack(RawSong(MapTrack(s).name, MapTrack(s).artists)) == MapTrack(s)
  {
    var t := MapTrack(s);
    var u := MapTrack(RawSong(t.name, t.artists));
    SubStrIdempotent(s.name);
    forall i | 0 <= i < |t.artists| ensures u.artists[i] == t.artists[i] {
      ChangeStrIdempotent(s.artists[i]);
    }
  }

  /** The `for i in tracks` loop shared by `songofplaylist` and `get_song_daily`. */
  method MapTracks(songs: seq<RawSong>) returns (trackNames: seq<WyTrack>)
    ensures |trackNames| == |songs|
    ensures forall i :: 0 <= i < |songs| ==> trackNames[i] == MapTrack(songs[i])
  {
    trackNames := [];
    for i := 0 to |songs|
      invariant |trackNames| == i
      invariant forall j :: 0 <= j < i ==> trackNames[j] == MapTrack(songs[j])
    {
      trackNames := trackNames + [MapTrack(songs[i])];
    }
  }

  /**
   * The index of the first attempt, from `from` on, whose fetch does not
   * raise, or `MaxRetryTimes` when all remaining attempts raise.
   */
  function FirstSuccess(fetch: nat -> PlaylistFetch, from: nat): (k: nat)
    requires from <= MaxRetryTimes
    ensures from <= k <= MaxRetryTimes
    ensures forall j :: from <= j < k ==> fetch(j).FetchRaised?
    ensures k < MaxRetryTimes ==> !fetch(k).FetchRaised?
    decreases MaxRetryTimes - from
  {
    if from == MaxRetryTimes || !fetch(from).FetchRaised? then from else FirstSuccess(fetch, from + 1)
  }

  /**
   * What `songofplaylist` ends up iterating: the songs of the first call
   * that does not raise, `[]` when all raise, and `None` when that call
   * returned `None`, which `for i in tracks` cannot iterate.
   */
  function Fetched(fetch: nat -> PlaylistFetch): Option<seq<RawSong>>
  {
    var k := FirstSuccess(fetch, 0);
    if k == MaxRetryTimes then Some([])
    else match fetch(k) case Songs(songs) => Some(songs) case _ => None
  }

  /**
   * `songofplaylist`: `fetch(n)` is the outcome of the `n`-th call to
   * `playlist`. At most five calls are made and the loop stops at the
   * first one that does not raise. When all five raise, the result is
   * empty; when that call returned `None`, iterating it raises (`None`
   * result); otherwise the result maps the fetched songs one by one.
   */
  method SongOfPlaylist(fetch: nat -> PlaylistFetch) returns (trackNames: Option<seq<WyTrack>>, calls: nat)
    ensures 1 <= calls <= MaxRetryTimes
    ensures forall j :: 0 <= j < calls - 1 ==> fetch(j).FetchRaised?
    ensures calls == MaxRetryTimes || !fetch(calls - 1).FetchRaised?
    ensures FirstSuccess(fetch, 0) == MaxRetryTimes ==> calls == MaxRetryTimes && trackNames == Some([])
    ensures trackNames.None? <==> fetch(calls - 1).NoSongs?
    ensures trackNames.None? <==> Fetched(fetch).None?
    ensures trackNames.Some? ==>
      |trackNames.value| == |Fetched(fetch).value| &&
      forall i :: 0 <= i < |trackNames.value| ==> trackNames.value[i] == MapTrack(Fetched(fetch).value[i])
  {
    var tracks: Option<seq<RawSong>> := Some([]);
    var retryTimes := 0;
    calls := 0;
    while retryTimes < MaxRetryTimes
      invariant retryTimes <= MaxRetryTimes && calls == retryTimes
      invariant forall j :: 0 <= j < retryTimes ==> fetch(j).FetchRaised?
      invariant tracks == Some([])
    {
      calls := calls + 1;
      var res := fetch(retryTimes);
      if !res.FetchRaised? {
        tracks := if res.Songs? then Some(res.songs) else None;
        break;
      }
      retryTimes := retryTimes + 1;
    }
    assert tracks == Fetched(fetch);
    if tracks.None? {
      return None, calls;
    }
    var mapped := MapTracks(tracks.value);
    trackNames := Some(mapped);
  }

  /** `get_song_daily`: the same per-track rule over the `dailySongs` of the response. */
  method GetSongDaily(dailySongs: seq<RawSong>) returns (trackNames: seq<WyTrack>)
    ensures |trackNames| == |dailySongs|
    ensures forall i :: 0 <= i < |dailySongs| ==> trackNames[i] == MapTrack(dailySongs[i])
  {
    trackNames := MapTracks(dailySongs);
  }

  /** One entry of `recommend`; the id is `None` when absent. */
  datatype Recommendation = Recommendation(id: Option<int>, name: string)

  /** Python truthiness of `i.get("id")`: present and non-zero. */
  predicate HasId(r: Recommendation)
  {
    r.id.Some? && r.id.value != 0
  }

  /** `[id, name]` pairs of the recommendations with a truthy id, in order. */
  function KeepWithId(recs: seq<Recommendation>): (r: seq<(int, string)>)
    ensures |r| <= |recs|
    ensures forall p :: p in r <==> exists i :: 0 <= i < |recs| && HasId(recs[i]) && p == (recs[i].id.value, recs[i].name)
  {
    if |recs| == 0 then []
    else
      var rest := KeepWithId(recs[1..]);
      assert forall i :: 1 <= i < |recs| ==> recs[i] == recs[1..][i - 1];
      if HasId(recs[0]) then [(recs[0].id.value, recs[0].name)] + rest else rest
  }

  /** Filtering keeps order: the pairs of a concatenation are the pairs of each part, in turn. */
  lemma {:induction false} KeepWithIdAppend(a: seq<Recommendation>, b: seq<Recommendation>)
    ensures KeepWithId(a + b) == KeepWithId(a) + KeepWithId(b)
    decreases |a|
  {
    if |a| == 0 {
      assert a + b == b;
    } else {
      assert (a + b)[1..] == a[1..] + b;
      KeepWithIdAppend(a[1..], b);
    }
  }

  /** `get_list_days`: the pairs with a truthy id among the first `nums` recommendations. */
  function GetListDays(recommend: seq<Recommendation>, nums: int): (r: seq<(int, string)>)
    ensures 0 <= nums ==> |r| <= nums
    ensures forall p :: p in r <==>
      exists i :: 0 <= i < |SliceTo(recommend, nums)| && HasId(recommend[i]) && p == (recommend[i].id.value, recommend[i].name)
  {
    var firsts := SliceTo(recommend, nums);
    assert forall i :: 0 <= i < |firsts| ==> firsts[i] == recommend[i];
    KeepWithId(firsts)
  }

  /** Recommendations past the first `nums` cannot change the result. */
  lemma GetListDaysIgnoresTail(recommend: seq<Recommendation>, more: seq<Recommendation>, nums: nat)
    requires nums <= |recommend|
    ensures GetListDays(recommend + more, nums) == GetListDays(recommend, nums)
  {
    assert (recommend + more)[..nums] == recommend[..nums];
  }

  /** The request `login` issues. */
  datatype LoginRequest =
    | NoRequest
    | Cellphone(phone: string, password: string)
    | Email(email: string, password: string)

  /**
   * `login`: nothing when a cookie is cached; otherwise the cellphone endpoint
   * exactly when the username is all digits (so an empty username goes to the
   * email endpoint). The response code is only logged.
   */
  function Login(hasCookie: bool, username: string, password: string): (r: LoginRequest)
    ensures r.NoRequest? <==> hasCookie
    ensures r.Cellphone? <==> !hasCookie && IsDigits(username)
    ensures r.Cellphone? ==> r.phone == username && r.password == password
    ensures r.Email? ==> r.email == username && r.password == password
    ensures !hasCookie && username == "" ==> r.Email?
  {
    if hasCookie then NoRequest
    else if IsDigits(username) then Cellphone(username, password)
    else Email(username, password)
  }
}
