/**
 * The Plex music wrapper (plugins/syncmusiclist/plex_music.py): the music
 * library and audio playlist registries it keeps as fields, the playlist
 * track lookup and the candidate selection of `search_music`. The Plex
 * server is not modelled: its section listing, playlists, playlist items
 * and search results are inputs.
 */
module PlexMusic {
  import opened Wrappers
  import opened Builtins

  /** A library section as the server lists it. */
  datatype Section = Section(key: string, title: string, locations: seq<string>, sectionType: string)

  /** `MediaServerLibrary(id, name, path, type)`. */
  datatype Library = Library(id: string, name: string, path: seq<string>, libraryType: string)

  /** A server playlist: its title and whether it is an audio playlist. */
  datatype Playlist = Playlist(title: string, isAudio: bool)

  /**
   * A track search hit: its server `key`, which is what two hits compare by
   * (so equal titles and artists on different tracks stay apart), its title
   * and its artist (`grandparentTitle`).
   */
  datatype Hit = Hit(key: string, title: string, grandparentTitle: string)

  /** The library type recorded for an `artist` section. */
  const MusicType: string := "音乐"

  /** The registry entries the `artist` sections of a listing contribute, in listing order. */
  function ArtistLibraries(sections: seq<Section>): (r: seq<Library>)
    ensures |r| <= |sections|
    ensures forall l :: l in r ==> l.libraryType == MusicType
    ensures forall l :: l in r <==>
      exists i :: 0 <= i < |sections| && sections[i].sectionType == "artist" &&
        l == Library(sections[i].key, sections[i].title, sections[i].locations, MusicType)
  {
    if |sections| == 0 then []
    else
      var init := sections[..|sections| - 1];
      var last := sections[|sections| - 1];
      assert forall i :: 0 <= i < |init| ==> init[i] == sections[i];
      ArtistLibraries(init) +
        (if last.sectionType == "artist" then [Library(last.key, last.title, last.locations, MusicType)] else [])
  }

  /** The registry keeps listing order: the entries of a concatenation are those of each part, in turn. */
  lemma {:induction false} ArtistLibrariesAppend(a: seq<Section>, b: seq<Section>)
    ensures ArtistLibraries(a + b) == ArtistLibraries(a) + ArtistLibraries(b)
    decreases |b|
  {
    if |b| == 0 {
      assert a + b == a;
    } else {
      var b' := b[..|b| - 1];
      var last := b[|b| - 1];
      var tail := if last.sectionType == "artist" then [Library(last.key, last.title, last.locations, MusicType)] else [];
      calc {
        ArtistLibraries(a + b);
        == { assert (a + b)[..|a + b| - 1] == a + b' && (a + b)[|a + b| - 1] == last; }
        ArtistLibraries(a + b') + tail;
        == { ArtistLibrariesAppend(a, b'); }
        ArtistLibraries(a) + ArtistLibraries(b') + tail;
        ==
        ArtistLibraries(a) + ArtistLibraries(b);
      }
    }
  }

  /** The titles of the audio playlists of a listing, in listing order. */
  function AudioTitles(playlists: seq<Playlist>): (r: seq<string>)
    ensures |r| <= |playlists|
    ensures forall t :: t in r <==> exists i :: 0 <= i < |playlists| && playlists[i].isAudio && t == playlists[i].title
  {
    if |playlists| == 0 then []
    else
      var init := playlists[..|playlists| - 1];
      var last := playlists[|playlists| - 1];
      assert forall i :: 0 <= i < |init| ==> init[i] == playlists[i];
      AudioTitles(init) + (if last.isAudio then [last.title] else [])
  }

  /** The titles keep listing order: the titles of a concatenation are those of each part, in turn. */
  lemma {:induction false} AudioTitlesAppend(a: seq<Playlist>, b: seq<Playlist>)
    ensures AudioTitles(a + b) == AudioTitles(a) + AudioTitles(b)
    decreases |b|
  {
    if |b| == 0 {
      assert a + b == a;
    } else {
      var b' := b[..|b| - 1];
      var last := b[|b| - 1];
      calc {
        AudioTitles(a + b);
        == { assert (a + b)[..|a + b| - 1] == a + b' && (a + b)[|a + b| - 1] == last; }
        AudioTitles(a + b') + (if last.isAudio then [last.title] else []);
        == { AudioTitlesAppend(a, b'); }
        AudioTitles(a) + AudioTitles(b') + (if last.isAudio then [last.title] else []);
        ==
        AudioTitles(a) + AudioTitles(b);
      }
    }
  }

  /** The comprehension `[i for i in search_res if singer in i.grandparentTitle]`. */
  function WithSinger(hits: seq<Hit>, singer: string): (r: seq<Hit>)
    ensures |r| <= |hits|
    ensures forall h :: h in r <==> h in hits && Contains(h.grandparentTitle, singer)
  {
    if |hits| == 0 then []
    else if Contains(hits[0].grandparentTitle, singer) then [hits[0]] + WithSinger(hits[1..], singer)
    else WithSinger(hits[1..], singer)
  }

  /** The filter keeps search order: the hits of a concatenation are those of each part, in turn. */
  lemma {:induction false} WithSingerAppend(a: seq<Hit>, b: seq<Hit>, singer: string)
    ensures WithSinger(a + b, singer) == WithSinger(a, singer) + WithSinger(b, singer)
    decreases |a|
  {
    if |a| == 0 {
      assert a + b == b;
    } else {
      var head := if Contains(a[0].grandparentTitle, singer) then [a[0]] else [];
      calc {
        WithSinger(a + b, singer);
        == { assert (a + b)[0] == a[0] && (a + b)[1..] == a[1..] + b; }
        head + WithSinger(a[1..] + b, singer);
        == { WithSingerAppend(a[1..], b, singer); }
        head + (WithSinger(a[1..], singer) + WithSinger(b, singer));
        ==
        (head + WithSinger(a[1..], singer)) + WithSinger(b, singer);
        ==
        WithSinger(a, singer) + WithSinger(b, singer);
      }
    }
  }


  /** The index of the first hit whose artist contains `singer`, or the number of hits. */
  function FirstWithSinger(hits: seq<Hit>, singer: string): (k: nat)
    ensures k <= |hits|
    ensures forall j :: 0 <= j < k ==> !Contains(hits[j].grandparentTitle, singer)
    ensures k < |hits| ==> Contains(hits[k].grandparentTitle, singer)
  {
    if |hits| == 0 || Contains(hits[0].grandparentTitle, singer) then 0
    else 1 + FirstWithSinger(hits[1..], singer)
  }

  /** The filtered list starts with the first matching hit, so `[:1]` of it is that hit alone. */
  lemma {:induction false} WithSingerHead(hits: seq<Hit>, singer: string)
    ensures SliceTo(WithSinger(hits, singer), 1) ==
      if FirstWithSinger(hits, singer) < |hits| then [hits[FirstWithSinger(hits, singer)]] else []
  {
    if |hits| > 0 && !Contains(hits[0].grandparentTitle, singer) {
      WithSingerHead(hits[1..], singer);
    }
  }

  /** `a` is an order-preserving subsequence of `b`. */
  predicate IsSubsequence<T(==)>(a: seq<T>, b: seq<T>)
    decreases |b|
  {
    |a| == 0 || (|b| > 0 && ((a[0] == b[0] && IsSubsequence(a[1..], b[1..])) || IsSubsequence(a, b[1..])))
  }

  lemma {:induction false} SingletonSubsequence<T>(b: seq<T>, i: nat)
    requires i < |b|
    ensures IsSubsequence([b[i]], b)
    decreases i
  {
    if i > 0 {
      SingletonSubsequence(b[1..], i - 1);
    } else {
      assert [b[0]][1..] == [];
    }
  }

  lemma {:induction false} SelfSubsequence<T>(b: seq<T>)
    ensures IsSubsequence(b, b)
    decreases |b|
  {
    if |b| > 0 {
      SelfSubsequence(b[1..]);
    }
  }

  /**
   * The selection policy of `search_music` over the raw hits: at most one
   * hit is returned unchanged; with several, the exact policy keeps the first
   * hit whose artist contains `singer` (none if no artist does) and the fuzzy
   * policy keeps the first hit.
   */
  function SelectHits(hits: seq<Hit>, singer: string, exactMatch: bool): (r: seq<Hit>)
    ensures |hits| <= 1 ==> r == hits
    ensures |hits| > 1 && exactMatch ==>
      var k := FirstWithSinger(hits, singer);
      r == if k < |hits| then [hits[k]] else []
    ensures |hits| > 1 && !exactMatch ==> r == [hits[0]]
  {
    if |hits| > 1 then
      if exactMatch then WithSingerHead(hits, singer); SliceTo(WithSinger(hits, singer), 1)
      else SliceTo(hits, 1)
    else hits
  }

  /** Under the exact policy with several hits, nothing is returned iff no artist contains `singer`. */
  lemma SelectHitsExactEmpty(hits: seq<Hit>, singer: string)
    requires |hits| > 1
    ensures SelectHits(hits, singer, true) == [] <==>
      forall j :: 0 <= j < |hits| ==> !Contains(hits[j].grandparentTitle, singer)
  {
  }

  /** The selection is always an ordered subsequence of the hits, and a single hit at most once there were several. */
  lemma SelectHitsSubsequence(hits: seq<Hit>, singer: string, exactMatch: bool)
    ensures IsSubsequence(SelectHits(hits, singer, exactMatch), hits)
    ensures |hits| > 1 ==> |SelectHits(hits, singer, exactMatch)| <= 1
  {
    var r := SelectHits(hits, singer, exactMatch);
    if |hits| <= 1 {
      SelfSubsequence(hits);
    } else if |r| == 1 {
      var k := if exactMatch then FirstWithSinger(hits, singer) else 0;
      SingletonSubsequence(hits, k);
    }
  }

  class PlexMusic {
    var musicLibraries: seq<Library>
    var musicPlaylists: seq<string>
    var musicNames: seq<string>

    /** `music_names` and `music_libraries` grow in lockstep: the i-th name is the i-th library's name. */
    predicate Valid()
      reads this
    {
      |musicNames| == |musicLibraries| &&
      forall i :: 0 <= i < |musicNames| ==> musicNames[i] == musicLibraries[i].name
    }

    constructor()
      ensures Valid()
      ensures musicLibraries == [] && musicPlaylists == [] && musicNames == []
    {
      musicLibraries := [];
      musicPlaylists := [];
      musicNames := [];
    }

    /**
     * `get_music_library`: without a server, or when listing the sections
     * raises (`None`), nothing changes and `[]` is returned; otherwise every
     * `artist` section is appended to both registries and the library
     * registry is returned.
     */
    method GetMusicLibrary(connected: bool, listing: Option<seq<Section>>) returns (r: seq<Library>)
      requires Valid()
      modifies this
      ensures Valid()
      ensures musicPlaylists == old(musicPlaylists)
      ensures !connected || listing.None? ==>
        r == [] && musicLibraries == old(musicLibraries) && musicNames == old(musicNames)
      ensures connected && listing.Some? ==>
        musicLibraries == old(musicLibraries) + ArtistLibraries(listing.value) && r == musicLibraries
    {
      if !connected || listing.None? {
        return [];
      }
      var libraries := listing.value;
      for i := 0 to |libraries|
        invariant Valid()
        invariant musicPlaylists == old(musicPlaylists)
        invariant musicLibraries == old(musicLibraries) + ArtistLibraries(libraries[..i])
      {
        var library := libraries[i];
        assert libraries[..i + 1][..i] == libraries[..i];
        if library.sectionType != "artist" {
          continue;
        }
        var libraryType := MusicType;
        musicNames := musicNames + [library.title];
        musicLibraries := musicLibraries + [Library(library.key, library.title, library.locations, libraryType)];
      }
      assert libraries[..|libraries|] == libraries;
      r := musicLibraries;
    }

    /** `get_playlists`: appends the titles of the audio playlists, in order, and returns the registry. */
    method GetPlaylists(playlists: seq<Playlist>) returns (r: seq<string>)
      modifies this
      ensures musicPlaylists == old(musicPlaylists) + AudioTitles(playlists) && r == musicPlaylists
      ensures musicLibraries == old(musicLibraries) && musicNames == old(musicNames)
    {
      for i := 0 to |playlists|
        invariant musicPlaylists == old(musicPlaylists) + AudioTitles(playlists[..i])
        invariant musicLibraries == old(musicLibraries) && musicNames == old(musicNames)
      {
        assert playlists[..i + 1][..i] == playlists[..i];
        if playlists[i].isAudio {
          musicPlaylists := musicPlaylists + [playlists[i].title];
        }
      }
      assert playlists[..|playlists|] == playlists;
      r := musicPlaylists;
    }

    /**
     * `get_tracks_by_playlist`: `[]` for a title that is not a known audio
     * playlist; otherwise the titles of that playlist's items, in order.
     * `itemsOf` stands for the server's `playlist(title).items()`.
     */
    function GetTracksByPlaylist(title: string, itemsOf: string -> seq<Hit>): (r: seq<string>)
      reads this
      ensures title !in musicPlaylists ==> r == []
      ensures title in musicPlaylists ==>
        |r| == |itemsOf(title)| && forall i :: 0 <= i < |r| ==> r[i] == itemsOf(title)[i].title
    {
      if title !in musicPlaylists then []
      else seq(|itemsOf(title)|, i requires 0 <= i < |itemsOf(title)| => itemsOf(title)[i].title)
    }

    /** The section a search is confined to: the sole music library's id iff exactly one is known. */
    function SearchScope(): (scope: Option<string>)
      reads this
      ensures scope.Some? <==> |musicLibraries| == 1
      ensures scope.Some? ==> scope.value == musicLibraries[0].id
    {
      if |musicLibraries| == 1 then Some(musicLibraries[0].id) else None
    }

    /**
     * `search_music` for the track `(name, singer)`: `search(name, scope)`
     * stands for the server's track search, confined to `scope` when given.
     * The result is an ordered subsequence of the hits, at most one of them
     * once there are several.
     */
    function SearchMusic(name: string, singer: string, exactMatch: bool,
                         search: (string, Option<string>) -> seq<Hit>): (r: seq<Hit>)
      reads this
      ensures IsSubsequence(r, search(name, SearchScope()))
      ensures |search(name, SearchScope())| <= 1 ==> r == search(name, SearchScope())
      ensures |search(name, SearchScope())| > 1 ==> |r| <= 1
    {
      var hits := search(name, SearchScope());
      SelectHitsSubsequence(hits, singer, exactMatch);
      SelectHits(hits, singer, exactMatch)
    }
  }
}
