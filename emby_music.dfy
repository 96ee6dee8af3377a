/**
 * The Emby music wrapper (plugins/syncmusiclist/emby_music.py): the music
 * library and playlist registries it keeps as fields, the playlist lookup by
 * name, the single-hit search and its batched form, and the success rule of
 * the two POST operations. HTTP is not modelled: what each request returns
 * is an input.
 */
module EmbyMusic {
  import opened Wrappers
  import opened Builtins

  /**
   * An item of an Emby listing. `name` is `None` when the item has no
   * `Name`; an absent `Id`, `Type`, `CollectionType` or `Path` reads as "",
   * which no comparison below can confuse with a real value. In the source
   * an absent `Id` of an audio item is `None`, and the later `','.join` of
   * the ids raises on it; that failure is not modelled.
   */
  datatype Item = Item(name: Option<string>, id: string, itemType: string, collectionType: string, path: string)

  /** `MediaServerLibrary(server="emby", id, name, path, type)`. */
  datatype Library = Library(id: string, name: Option<string>, path: string, libraryType: string)

  /**
   * A search answer: `None` total stands for a missing `TotalRecordCount`,
   * `None` items for a missing `Items`.
   */
  datatype SearchResponse = Failed | Answer(total: Option<int>, items: Option<seq<Item>>)

  /**
   * The outcome of `res.json().get("Items")` on a child listing: the request
   * or the decoding raises (caught, read as `[]`), the answer has no
   * `Items` (the value is `None`, which nothing catches later), or the items.
   */
  datatype Listing = ListingRaised | NoItems | Items(items: seq<Item>)

  /** The outcome of a POST: it raises, or it answers with a status and a body that does or does not decode as JSON. */
  datatype PostResponse = PostRaised | Posted(status: int, bodyDecodes: bool)

  /** The library one view contributes. */
  function ViewLibraries(v: Item): seq<Library>
  {
    if v.collectionType == "music" then [Library(v.id, v.name, v.path, "music")] else []
  }

  /** The playlists one view contributes. */
  function ViewPlaylists(v: Item, childrenOf: string -> Listing): seq<Item>
  {
    if v.collectionType != "playlists" then []
    else match childrenOf(v.id) case Items(items) => items case _ => []
  }

  /** The music libraries a view listing contributes, in order. */
  function MusicLibraries(views: seq<Item>): (r: seq<Library>)
    ensures |r| <= |views|
    ensures forall l :: l in r <==>
      exists i :: 0 <= i < |views| && views[i].collectionType == "music" &&
        l == Library(views[i].id, views[i].name, views[i].path, "music")
  {
    if |views| == 0 then []
    else
      var init := views[..|views| - 1];
      assert forall i :: 0 <= i < |init| ==> init[i] == views[i];
      MusicLibraries(init) + ViewLibraries(views[|views| - 1])
  }

  /** The libraries keep view order: those of a concatenation are those of each part, in turn. */
  lemma {:induction false} MusicLibrariesAppend(a: seq<Item>, b: seq<Item>)
    ensures MusicLibraries(a + b) == MusicLibraries(a) + MusicLibraries(b)
    decreases |b|
  {
    if |b| == 0 {
      assert a + b == a;
    } else {
      var b' := b[..|b| - 1];
      var last := b[|b| - 1];
      calc {
        MusicLibraries(a + b);
        == { assert (a + b)[..|a + b| - 1] == a + b' && (a + b)[|a + b| - 1] == last; }
        MusicLibraries(a + b') + ViewLibraries(last);
        == { MusicLibrariesAppend(a, b'); }
        MusicLibraries(a) + MusicLibraries(b') + ViewLibraries(last);
        ==
        MusicLibraries(a) + MusicLibraries(b);
      }
    }
  }

  /**
   * The playlists a view listing contributes: the children of every
   * `playlists` view, in order, `childrenOf(id)` being the child listing of
   * the view with that id; a listing that raises contributes nothing. A
   * listing without `Items` contributes nothing here either: the method
   * stops before it (see `FirstBroken`).
   */
  function PlaylistItems(views: seq<Item>, childrenOf: string -> Listing): (r: seq<Item>)
    ensures forall p :: p in r ==>
      exists i :: 0 <= i < |views| && views[i].collectionType == "playlists" &&
        childrenOf(views[i].id).Items? && p in childrenOf(views[i].id).items
  {
    if |views| == 0 then []
    else
      var init := views[..|views| - 1];
      assert forall i :: 0 <= i < |init| ==> init[i] == views[i];
      PlaylistItems(init, childrenOf) + ViewPlaylists(views[|views| - 1], childrenOf)
  }

  /** A `playlists` view whose child listing has no `Items`: `+=` with `None` raises on it. */
  predicate Broken(view: Item, childrenOf: string -> Listing)
  {
    view.collectionType == "playlists" && childrenOf(view.id).NoItems?
  }

  /** The index of the first broken view at or after `from`, or the number of views. */
  function FirstBrokenFrom(views: seq<Item>, from: nat, childrenOf: string -> Listing): (k: nat)
    requires from <= |views|
    ensures from <= k <= |views|
    ensures forall j :: from <= j < k ==> !Broken(views[j], childrenOf)
    ensures k < |views| ==> Broken(views[k], childrenOf)
    decreases |views| - from
  {
    if from == |views| || Broken(views[from], childrenOf) then from else FirstBrokenFrom(views, from + 1, childrenOf)
  }

  /** The index of the first broken view, or the number of views. */
  function FirstBroken(views: seq<Item>, childrenOf: string -> Listing): (k: nat)
    ensures k <= |views|
    ensures forall j :: 0 <= j < k ==> !Broken(views[j], childrenOf)
    ensures k < |views| ==> Broken(views[k], childrenOf)
  {
    FirstBrokenFrom(views, 0, childrenOf)
  }


  /** What one more view contributes to each registry. */
  lemma ViewsNext(views: seq<Item>, i: nat, childrenOf: string -> Listing)
    requires i < |views|
    ensures MusicLibraries(views[..i + 1]) == MusicLibraries(views[..i]) + ViewLibraries(views[i])
    ensures PlaylistItems(views[..i + 1], childrenOf) == PlaylistItems(views[..i], childrenOf) + ViewPlaylists(views[i], childrenOf)
  {
    assert views[..i + 1][..i] == views[..i];
  }

  /** The ids of the `Audio` items, in order. */
  function AudioIds(items: seq<Item>): (r: seq<string>)
    ensures |r| <= |items|
    ensures forall x :: x in r <==> exists i :: 0 <= i < |items| && items[i].itemType == "Audio" && x == items[i].id
  {
    if |items| == 0 then []
    else
      var rest := AudioIds(items[1..]);
      assert forall i :: 1 <= i < |items| ==> items[i] == items[1..][i - 1];
      if items[0].itemType == "Audio" then [items[0].id] + rest else rest
  }

  /** The ids keep listing order: the ids of a concatenation are those of each part, in turn. */
  lemma {:induction false} AudioIdsAppend(a: seq<Item>, b: seq<Item>)
    ensures AudioIds(a + b) == AudioIds(a) + AudioIds(b)
    decreases |a|
  {
    if |a| == 0 {
      assert a + b == b;
    } else {
      assert (a + b)[1..] == a[1..] + b;
      AudioIdsAppend(a[1..], b);
    }
  }

  /** The index of the first `Audio` item, or the number of items. */
  function FirstAudio(items: seq<Item>): (k: nat)
    ensures k <= |items|
    ensures forall j :: 0 <= j < k ==> items[j].itemType != "Audio"
    ensures k < |items| ==> items[k].itemType == "Audio"
  {
    if |items| == 0 || items[0].itemType == "Audio" then 0 else 1 + FirstAudio(items[1..])
  }

  lemma {:induction false} AudioIdsHead(items: seq<Item>)
    ensures SliceTo(AudioIds(items), 1) == if FirstAudio(items) < |items| then [items[FirstAudio(items)].id] else []
  {
    if |items| > 0 && items[0].itemType != "Audio" {
      AudioIdsHead(items[1..]);
    }
  }

  /**
   * `search_music`: the id of the first `Audio` item when the answer counts
   * more than zero records; nothing when the request raises, the count is
   * missing (`None > 0` raises, and is caught) or not positive, the items
   * are missing (iterating `None` raises, and is caught) or no item is audio.
   */
  function SearchMusic(resp: SearchResponse): (r: seq<string>)
    ensures |r| <= 1
    ensures r != [] <==>
      resp.Answer? && resp.total.Some? && resp.total.value > 0 && resp.items.Some? &&
      FirstAudio(resp.items.value) < |resp.items.value|
    ensures r != [] ==> r[0] == resp.items.value[FirstAudio(resp.items.value)].id
  {
    match resp
    case Failed => []
    case Answer(total, items) =>
      if total.None? then []
      else if total.value > 0 then
        match items
        case None => []
        case Some(found) => AudioIdsHead(found); SliceTo(AudioIds(found), 1)
      else []
  }

  /** The concatenation, in order, of the searches for each name. */
  function AllIds(names: seq<string>, search: string -> SearchResponse): (r: seq<string>)
    ensures |r| <= |names|
  {
    if |names| == 0 then []
    else AllIds(names[..|names| - 1], search) + SearchMusic(search(names[|names| - 1]))
  }

  /** Searching a concatenation of name lists finds the ids of each list, in turn. */
  lemma {:induction false} AllIdsAppend(a: seq<string>, b: seq<string>, search: string -> SearchResponse)
    ensures AllIds(a + b, search) == AllIds(a, search) + AllIds(b, search)
    decreases |b|
  {
    if |b| == 0 {
      assert a + b == a;
    } else {
      var b' := b[..|b| - 1];
      var last := SearchMusic(search(b[|b| - 1]));
      calc {
        AllIds(a + b, search);
        == { assert (a + b)[..|a + b| - 1] == a + b' && (a + b)[|a + b| - 1] == b[|b| - 1]; }
        AllIds(a + b', search) + last;
        == { AllIdsAppend(a, b', search); }
        AllIds(a, search) + AllIds(b', search) + last;
        ==
        AllIds(a, search) + AllIds(b, search);
      }
    }
  }

  /**
   * `create_playlist`: the POST is issued whether or not a playlist of that
   * name is already known (that is only logged), and the result is true iff
   * the response status is 200 and its body decodes (`res.json()` runs inside
   * the `try`, so a body that does not decode gives false).
   */
  function CreatePlaylist(knownNames: seq<Option<string>>, name: string, resp: PostResponse): (ok: bool)
    ensures ok <==> resp == Posted(200, true)
  {
    match resp
    case PostRaised => false
    case Posted(code, decodes) => code == 200 && decodes
  }

  /** `set_tracks_to_playlist`: true iff the status is 200 and the body decodes. */
  function SetTracksToPlaylist(playlistId: string, ids: string, resp: PostResponse): (ok: bool)
    ensures ok <==> resp == Posted(200, true)
  {
    match resp
    case PostRaised => false
    case Posted(code, decodes) => code == 200 && decodes
  }

  class EmbyMusic {
    var musicLibraries: seq<Library>
    var musicPlaylists: seq<Item>

    constructor()
      ensures musicLibraries == [] && musicPlaylists == []
    {
      musicLibraries := [];
      musicPlaylists := [];
    }

    /**
     * `get_music_library`: without a host or an API key nothing changes and
     * `[]` is returned. Otherwise, over the view listing (a failed listing
     * reads as `[]`), each `music` view is appended to the libraries, the
     * children of each `playlists` view are appended to the playlists, and
     * other views are skipped; the libraries are returned. A `playlists`
     * view whose listing has no `Items` makes the method raise (`None`
     * result) with the registries as the views before it left them.
     */
    method GetMusicLibrary(hasHost: bool, hasApiKey: bool, views: seq<Item>,
                           childrenOf: string -> Listing) returns (r: Option<seq<Library>>)
      modifies this
      ensures !hasHost || !hasApiKey ==>
        r == Some([]) && musicLibraries == old(musicLibraries) && musicPlaylists == old(musicPlaylists)
      ensures hasHost && hasApiKey ==>
        var k := FirstBroken(views, childrenOf);
        musicLibraries == old(musicLibraries) + MusicLibraries(views[..k]) &&
        musicPlaylists == old(musicPlaylists) + PlaylistItems(views[..k], childrenOf) &&
        r == (if k < |views| then None else Some(musicLibraries))
    {
      if !hasHost || !hasApiKey {
        return Some([]);
      }
      for i := 0 to |views|
        invariant FirstBrokenFrom(views, i, childrenOf) == FirstBroken(views, childrenOf)
        invariant musicLibraries == old(musicLibraries) + MusicLibraries(views[..i])
        invariant musicPlaylists == old(musicPlaylists) + PlaylistItems(views[..i], childrenOf)
      {
        ViewsNext(views, i, childrenOf);
        AppendAssoc(old(musicLibraries), MusicLibraries(views[..i]), ViewLibraries(views[i]));
        AppendAssoc(old(musicPlaylists), PlaylistItems(views[..i], childrenOf), ViewPlaylists(views[i], childrenOf));
        var raised := AddView(views[i], childrenOf);
        if raised {
          return None;
        }
      }
      assert views[..|views|] == views;
      r := Some(musicLibraries);
    }

    /**
     * One round of the `get_music_library` loop: a `music` view is appended
     * to the libraries, the children of a `playlists` view to the playlists
     * (none when the listing raises), and other views are skipped. A
     * `playlists` view whose listing has no `Items` raises (`true`) and
     * changes nothing.
     */
    method AddView(library: Item, childrenOf: string -> Listing) returns (raised: bool)
      modifies this
      ensures raised <==> Broken(library, childrenOf)
      ensures raised ==> musicLibraries == old(musicLibraries) && musicPlaylists == old(musicPlaylists)
      ensures !raised ==>
        musicLibraries == old(musicLibraries) + ViewLibraries(library) &&
        musicPlaylists == old(musicPlaylists) + ViewPlaylists(library, childrenOf)
    {
      if library.collectionType == "music" {
        musicLibraries := musicLibraries + [Library(library.id, library.name, library.path, library.collectionType)];
      } else if library.collectionType == "playlists" {
        var playlist: seq<Item>;
        match childrenOf(library.id) {
          case ListingRaised => playlist := [];
          case NoItems => return true;
          case Items(items) => playlist := items;
        }
        musicPlaylists := musicPlaylists + playlist;
      }
      return false;
    }

    /** The position of the first known playlist named `title`, if any. */
    function FirstNamed(title: string): (k: nat)
      reads this
      ensures k <= |musicPlaylists|
      ensures forall j :: 0 <= j < k ==> musicPlaylists[j].name != Some(title)
      ensures k < |musicPlaylists| ==> musicPlaylists[k].name == Some(title)
    {
      FirstNamedFrom(musicPlaylists, title)
    }

    /**
     * `get_tracks_by_playlist`: the id of the first playlist named `title`
     * and the ids of its audio tracks (`itemsOf(id)`; a fetch that raises
     * gives no tracks, one without `Items` makes the comprehension raise,
     * the `None` result). When no playlist has that name, or its id is
     * empty, the result is `("", [])`. Nothing changes.
     */
    method GetTracksByPlaylist(title: string, itemsOf: string -> Listing)
      returns (r: Option<(string, seq<string>)>)
      ensures var k := FirstNamed(title);
        k == |musicPlaylists| || musicPlaylists[k].id == "" ==> r == Some(("", []))
      ensures var k := FirstNamed(title);
        k < |musicPlaylists| && musicPlaylists[k].id != "" ==>
          var id := musicPlaylists[k].id;
          r == (match TracksOf(itemsOf(id)) case None => None case Some(ids) => Some((id, ids)))
    {
      var playlistId := "";
      var i := 0;
      while i < |musicPlaylists|
        invariant i <= |musicPlaylists|
        invariant forall j :: 0 <= j < i ==> musicPlaylists[j].name != Some(title)
        invariant playlistId == ""
      {
        if Some(title) == musicPlaylists[i].name {
          playlistId := musicPlaylists[i].id;
          break;
        }
        i := i + 1;
      }
      if playlistId == "" {
        return Some(("", []));
      }
      var tracks: seq<Item>;
      match itemsOf(playlistId) {
        case ListingRaised => tracks := [];
        case NoItems => return None;
        case Items(items) => tracks := items;
      }
      var musicIds := AudioIds(tracks);
      r := Some((playlistId, musicIds));
    }

    /** `mul_search_music`: the search results for each name, concatenated in order. */
    method MulSearchMusic(names: seq<string>, search: string -> SearchResponse) returns (allIds: seq<string>)
      ensures allIds == AllIds(names, search)
      ensures |allIds| <= |names|
    {
      allIds := [];
      for i := 0 to |names|
        invariant allIds == AllIds(names[..i], search)
      {
        assert names[..i + 1][..i] == names[..i];
        var idsList := SearchMusic(search(names[i]));
        allIds := allIds + idsList;
      }
      assert names[..|names|] == names;
    }
  }

  /**
   * The audio ids of a fetched playlist: none when the fetch raises, and
   * `None` when the listing has no `Items`, where the comprehension raises.
   */
  function TracksOf(l: Listing): (r: Option<seq<string>>)
    ensures r.None? <==> l.NoItems?
    ensures l.ListingRaised? ==> r == Some([])
    ensures l.Items? ==> r == Some(AudioIds(l.items))
  {
    match l
    case ListingRaised => Some([])
    case NoItems => None
    case Items(items) => Some(AudioIds(items))
  }

  function FirstNamedFrom(playlists: seq<Item>, title: string): (k: nat)
    ensures k <= |playlists|
    ensures forall j :: 0 <= j < k ==> playlists[j].name != Some(title)
    ensures k < |playlists| ==> playlists[k].name == Some(title)
  {
    if |playlists| == 0 || playlists[0].name == Some(title) then 0
    else 1 + FirstNamedFrom(playlists[1..], title)
  }
}
