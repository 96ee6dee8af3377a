/**
 * The QQ Music adapter (plugins/syncmusiclist/QQmusic.py): turning the
 * playlist response into `(name, singer)` tracks. The POST itself, the
 * session headers and the request id are not modelled; the decoded response
 * is an input.
 */
module QQMusic {
  import opened Wrappers
  import opened Builtins

  datatype Singer = Singer(name: string)
  datatype Song = Song(name: string, singer: seq<Singer>)

  /** The `getMusicPlaylist` part of the response; a missing `data` or `songlist` reads as `[]`. */
  datatype PlaylistResponse = PlaylistResponse(code: int, songlist: seq<Song>)

  /** A track as the sync consumes it: a cleaned name and the first singer's name. */
  datatype Track = Track(name: string, singer: string)

  /** `name.split(' (')[0].split('(')[0].split('（')[0]`. */
  function CleanName(name: string): string
  {
    SplitFirst(SplitFirst(SplitFirst(name, " ("), "("), "（")
  }

  lemma OneCharOccurs(s: string, c: char, i: nat)
    requires i < |s|
    ensures [c] <= s[i..] <==> s[i] == c
  {
  }

  /** A prefix free of both brackets survives the two single-character splits. */
  lemma BracketFreeSurvives(s: string)
    requires forall i :: 0 <= i < |s| ==> s[i] != '(' && s[i] != '（'
    ensures SplitFirst(SplitFirst(s, "("), "（") == s
  {
    forall i | 0 <= i < |s| ensures !("(" <= s[i..]) && !("（" <= s[i..]) {
      OneCharOccurs(s, '(', i);
      OneCharOccurs(s, '（', i);
    }
    SplitFirstAbsent(s, "(");
    SplitFirstAbsent(s, "（");
  }

  /** When the first bracket is a `(` right after a space, the space goes too. */
  lemma CleanNameSpaceParen(name: string, k: nat)
    requires 0 < k < |name| && name[k] == '(' && name[k - 1] == ' '
    requires forall i :: 0 <= i < k ==> name[i] != '(' && name[i] != '（'
    ensures CleanName(name) == name[..k - 1]
  {
    assert " (" <= name[k - 1..] by { assert name[k - 1..][..2] == [name[k - 1], name[k]]; }
    forall i | 0 <= i < k - 1 ensures !(" (" <= name[i..]) {
    }
    SplitFirstAt(name, " (", k - 1);
    BracketFreeSurvives(name[..k - 1]);
  }

  /** Otherwise the first split keeps at least the bracket-free prefix. */
  lemma FirstSplitKeeps(name: string, k: nat)
    requires k <= |name|
    requires forall i :: 0 <= i < k ==> name[i] != '(' && name[i] != '（'
    requires k == |name| || name[k] == '(' || name[k] == '（'
    requires !(0 < k < |name| && name[k] == '(' && name[k - 1] == ' ')
    ensures k <= |SplitFirst(name, " (")| && SplitFirst(name, " (") <= name
  {
    forall i | 0 <= i < k ensures !(" (" <= name[i..]) {
      assert name[i..][0] == name[i];
      if i + 1 < |name| { assert name[i..][1] == name[i + 1]; }
    }
    SplitFirstKeeps(name, " (", k);
  }

  /** A prefix of the name that reaches `k` is cut back to `name[..k]` by the two single-character splits. */
  lemma SecondSplits(name: string, r1: string, k: nat)
    requires k <= |r1| && r1 <= name
    requires forall i :: 0 <= i < k ==> name[i] != '(' && name[i] != '（'
    requires k == |name| || name[k] == '(' || name[k] == '（'
    ensures SplitFirst(SplitFirst(r1, "("), "（") == name[..k]
  {
    forall i | 0 <= i < k ensures !("(" <= r1[i..]) {
      OneCharOccurs(r1, '(', i);
      assert r1[i] == name[i];
    }
    SplitFirstKeeps(r1, "(", k);
    SplitFirstSpec(r1, "(");
    var r2 := SplitFirst(r1, "(");
    forall i | 0 <= i < k ensures !("（" <= r2[i..]) {
      OneCharOccurs(r2, '（', i);
      assert r2[i] == name[i];
    }
    if |r2| == k {
      assert r2 == name[..k];
      SplitFirstAbsent(r2, "（");
    } else {
      assert r2[k] == r1[k] == name[k];
      OneCharOccurs(r1, '(', k);
      assert name[k] == '（';
      OneCharOccurs(r2, '（', k);
      SplitFirstAt(r2, "（", k);
      assert r2[..k] == name[..k];
    }
  }

  /**
   * The cleaned name, characterised by `k`, the index of the first `(` or
   * `（` (or the length when there is none): the name up to `k`, one
   * character shorter when that first bracket is an ASCII `(` directly
   * preceded by a space. No other whitespace is trimmed.
   */
  lemma CleanNameCut(name: string, k: nat)
    requires k <= |name|
    requires forall i :: 0 <= i < k ==> name[i] != '(' && name[i] != '（'
    requires k == |name| || name[k] == '(' || name[k] == '（'
    ensures CleanName(name) ==
      if 0 < k < |name| && name[k] == '(' && name[k - 1] == ' ' then name[..k - 1] else name[..k]
  {
    if 0 < k < |name| && name[k] == '(' && name[k - 1] == ' ' {
      CleanNameSpaceParen(name, k);
    } else {
      FirstSplitKeeps(name, k);
      SecondSplits(name, SplitFirst(name, " ("), k);
    }
  }

  /** Index of the first `(` or `（` of `name`, or its length when there is none. */
  function FirstBracket(name: string): (k: nat)
    ensures k <= |name|
    ensures forall i :: 0 <= i < k ==> name[i] != '(' && name[i] != '（'
    ensures k == |name| || name[k] == '(' || name[k] == '（'
  {
    if |name| == 0 || name[0] == '(' || name[0] == '（' then 0 else 1 + FirstBracket(name[1..])
  }

  /** The cleaned name is a prefix of the name and holds neither kind of opening parenthesis. */
  lemma CleanNameBracketFree(name: string)
    ensures CleanName(name) <= name
    ensures forall i :: 0 <= i < |CleanName(name)| ==> CleanName(name)[i] != '(' && CleanName(name)[i] != '（'
  {
    CleanNameCut(name, FirstBracket(name));
  }

  /** A name without `(` and `（` is kept exactly, surrounding whitespace included. */
  lemma CleanNameUnchanged(name: string)
    requires forall i :: 0 <= i < |name| ==> name[i] != '(' && name[i] != '（'
    ensures CleanName(name) == name
  {
    CleanNameCut(name, |name|);
  }

  /** Cleaning twice is cleaning once. */
  lemma CleanNameIdempotent(name: string)
    ensures CleanName(CleanName(name)) == CleanName(name)
  {
    CleanNameBracketFree(name);
    CleanNameUnchanged(CleanName(name));
  }

  /** The comprehension over the song list; `None` when a song has no singer (indexing `[0]` raises). */
  function ToTracks(songs: seq<Song>): (r: Option<seq<Track>>)
    ensures r.Some? <==> forall i :: 0 <= i < |songs| ==> |songs[i].singer| > 0
    ensures r.Some? ==> |r.value| == |songs|
    ensures r.Some? ==> forall i :: 0 <= i < |songs| ==>
      r.value[i] == Track(CleanName(songs[i].name), songs[i].singer[0].name)
  {
    if |songs| == 0 then Some([])
    else if |songs[0].singer| == 0 then None
    else match ToTracks(songs[1..])
      case None => None
      case Some(rest) => Some([Track(CleanName(songs[0].name), songs[0].singer[0].name)] + rest)
  }

  /**
   * `get_playlist_by_id` after the POST: a non-zero code gives no tracks;
   * otherwise one track per song, in order; a song without singers makes the
   * call raise (`None`).
   */
  function GetPlaylistById(resp: PlaylistResponse): (r: Option<seq<Track>>)
    ensures resp.code != 0 ==> r == Some([])
    ensures resp.code == 0 ==> r == ToTracks(resp.songlist)
  {
    if resp.code == 0 then ToTracks(resp.songlist) else Some([])
  }

  /** Every returned track name is a bracket-free prefix of its song's name. */
  lemma PlaylistNamesClean(resp: PlaylistResponse, i: nat)
    requires GetPlaylistById(resp).Some? && i < |GetPlaylistById(resp).value|
    ensures resp.code == 0 && i < |resp.songlist|
    ensures GetPlaylistById(resp).value[i].name <= resp.songlist[i].name
    ensures forall j :: 0 <= j < |GetPlaylistById(resp).value[i].name| ==>
      GetPlaylistById(resp).value[i].name[j] != '(' && GetPlaylistById(resp).value[i].name[j] != '（'
  {
    CleanNameBracketFree(resp.songlist[i].name);
  }
}
