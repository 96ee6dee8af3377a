# MoviePilot plugins: music playlist sync and Maoyan ranking subscription

This project is a Dafny model of the rule-bearing core of two MoviePilot
plugins.

**Music playlist sync** (`syncmusiclist`)
- Text normalisation:
  - `sub_str` erases bracket spans.
  - `contains_chinese` and `extract_chinese` test for and extract runs of Chinese characters.
  - `change_str` composes the two.
- Source adapters:
  - QQ Music's response-to-track mapping.
  - NetEase Cloud Music's bounded retry, track mapping, daily recommendations and login endpoint choice.
- Media-server wrappers, Plex and Emby:
  - the library and playlist registries they keep as fields;
  - playlist lookup;
  - search candidate selection.
- The reconciliation itself:
  - the parsing of `id:playlist` setting lines;
  - the Emby "searched ids not yet in the playlist" delta;
  - the Plex merge and create / append / no-op decision.

**Maoyan ranking subscription** (`maoyanrank`)
- The ranking URL construction.
- Truncation of each page to `num` records.
- De-duplication of series by title.
- The append-only subscription history, keyed by a unique flag.

**How the model is built**
- Every network or foreign-library call is an input of the model:
  - Plex, Emby, the NetEase API, the QQ POST, the browser;
  - the media recogniser and the subscription chains.
- A call whose exception the source catches is an `Option` (or a datatype with a case for it), where `None` means it raised. Where a call can also return `None` without raising, its outcome has a case for that too, and a member that then raises uncaught returns `None` itself. Calls whose exception the source does not catch are modelled on their non-raising outcome only (see "## Left out").
- Code that updates fields in place (the Plex and Emby wrappers, the history list) is a `class` whose methods say how the fields change.
- Loops are methods with loop invariants, proved against a recursive specification function. What the source promises is then proved about that function as lemmas.

Modules:
- `Wrappers` holds `Option`.
- `Builtins` holds the Python built-ins the core relies on: `split`, `in` on strings, slices, `str(n)` and `int(s)`.
- `TextUtils` models `utils.py`.
- `QQMusic` models `QQmusic.py` and `CloudMusic` models `cloudmusic.py`.
- `PlexMusic` models `plex_music.py` and `EmbyMusic` models `emby_music.py`.
- `SyncMusicList` models the plugin entry points in `syncmusiclist/__init__.py`.
- `MaoyanRank` models `maoyanrank/__init__.py`.

Some properties hold of the code as written rather than of what it seems meant to do:
- The Plex skip test compares a whole `(name, singer)` track against title strings, so it never skips anything (`SyncMusicList.NeverInTitles`).
- A trailing newline in a playlist setting produces an empty line, which makes the unpacking `a, b = line.split(':')` raise and stops the run (`SyncMusicList.EmptyLineAborts`).
- `create_playlist` posts even when a playlist of that name is already known.

## Model

| member | source | states |
|---|---|---|
| Builtins.Split | plugins/syncmusiclist/__init__.py:360-362 | `str.split(sep)` gives one part more than there are separators, no part holds the separator, and joining the parts with it gives the string back |
| Builtins.SplitJoin | plugins/syncmusiclist/__init__.py:362 | splitting a join of separator-free parts gives exactly those parts back |
| Builtins.SplitFirstSpec | plugins/syncmusiclist/QQmusic.py:79 | `s.split(sep)[0]` is the prefix of `s` before the first occurrence of `sep`, or all of `s` when `sep` does not occur |
| Builtins.Contains | plugins/syncmusiclist/plex_music.py:95 | `needle in hay` holds iff `needle` occurs at some position of `hay` |
| Builtins.SliceTo | plugins/syncmusiclist/cloudmusic.py:83 | Python's `[:n]` is a prefix of length `min(n, len)` for `n >= 0`, and `len + n` clipped at 0 for negative `n` |
| Builtins.NatToStr | plugins/maoyanrank/__init__.py:564 | `str(n)` of a natural number is a non-empty string of decimal digits |
| Builtins.ParseNatToStr | plugins/maoyanrank/__init__.py:555 | `int(str(n)) == n`: reading back a printed number gives the number |
| TextUtils.MatchAtSpec | plugins/syncmusiclist/utils.py:5 | the regex matches at the start iff some opener, preceded only by whitespace, has a closer after it; the match runs from any such whitespace through the first closer after the opener and all whitespace behind it |
| TextUtils.SubStrFixpoint | plugins/syncmusiclist/utils.py:4-5 | a string in which no opener has a closer after it is returned unchanged |
| TextUtils.SubStrNoBracketSpan | plugins/syncmusiclist/utils.py:4-5 | the output of `sub_str` contains no opener that has a closer anywhere after it |
| TextUtils.SubStrIdempotent | plugins/syncmusiclist/utils.py:4-5 | `sub_str(sub_str(x)) == sub_str(x)` |
| TextUtils.SubStrErasesSpan | plugins/syncmusiclist/utils.py:5 | a string that is one bracket span with only whitespace around it (opener and closer of any kinds) is erased completely |
| TextUtils.SubStrKeepsPrefix | plugins/syncmusiclist/utils.py:5 | a prefix free of whitespace and openers passes through unchanged in front of whatever `sub_str` makes of the rest |
| TextUtils.SubStrDropsLiveSuffix | plugins/syncmusiclist/utils.py:5 | `sub_str(t + " (Live)") == t` for a title free of whitespace and openers, such as "有何不可" |
| TextUtils.SubStrDropsAccompaniment | plugins/syncmusiclist/utils.py:5 | `sub_str(t + "（伴奏）") == t` for a title free of whitespace and openers, such as "稻香" |
| TextUtils.SubStrExamplePlain | plugins/syncmusiclist/utils.py:5 | `sub_str("Plain Title") == "Plain Title"` |
| TextUtils.ContainsChinese | plugins/syncmusiclist/utils.py:7-10 | true iff some character lies in U+4E00..U+9FA5 |
| TextUtils.ExtractChinese | plugins/syncmusiclist/utils.py:12-15 | the first maximal run of such characters; `None` (the `[0]` raises) iff there is none |
| TextUtils.FirstChineseRunUnique | plugins/syncmusiclist/utils.py:12-15 | the first maximal run is unique: its position and its text are determined by the string |
| TextUtils.ChangeStr | plugins/syncmusiclist/utils.py:17-21 | the first Chinese run of `sub_str(text)` when it has one, otherwise `sub_str(text)`; defined on every string |
| TextUtils.ChangeStrIdempotent | plugins/syncmusiclist/utils.py:17-21 | `change_str(change_str(x)) == change_str(x)` |
| TextUtils.ChangeStrExampleMixed | plugins/syncmusiclist/utils.py:17-21 | `change_str("Eason Chan 陈奕迅") == "陈奕迅"` |
| TextUtils.ChangeStrExampleLatin | plugins/syncmusiclist/utils.py:17-21 | `change_str("Beyond") == "Beyond"` |
| QQMusic.CleanNameCut | plugins/syncmusiclist/QQmusic.py:79 | with `k` the first `(` or `（`, the cleaned name is `name[:k]`, one character shorter when that bracket is `(` directly after a space; no other whitespace is trimmed |
| QQMusic.CleanNameSpaceParen | plugins/syncmusiclist/QQmusic.py:79 | when the first bracket is ` (`, the space is dropped as well (`"abc (x)"` gives `"abc"`) |
| QQMusic.CleanNameBracketFree | plugins/syncmusiclist/QQmusic.py:79 | the cleaned name is a prefix of the name and holds neither `(` nor `（` |
| QQMusic.CleanNameUnchanged | plugins/syncmusiclist/QQmusic.py:79 | a name without `(` and `（` is returned unchanged |
| QQMusic.CleanNameIdempotent | plugins/syncmusiclist/QQmusic.py:79 | cleaning a cleaned name changes nothing |
| QQMusic.ToTracks | plugins/syncmusiclist/QQmusic.py:79-80 | defined iff every song has a singer; same length and order as the song list; each track is the cleaned name with the first singer's name |
| QQMusic.GetPlaylistById | plugins/syncmusiclist/QQmusic.py:67-80 | a non-zero code gives `[]`; code 0 gives the mapped song list |
| QQMusic.PlaylistNamesClean | plugins/syncmusiclist/QQmusic.py:79-80 | every returned name is a bracket-free prefix of its song's name |
| CloudMusic.MapTrack | plugins/syncmusiclist/cloudmusic.py:130-135 | a mapped track keeps its artist count, and its name holds no opener followed by a closer |
| CloudMusic.MapTrackIdempotent | plugins/syncmusiclist/cloudmusic.py:132-134 | mapping a mapped track again changes nothing |
| CloudMusic.MapTracks | plugins/syncmusiclist/cloudmusic.py:129-135 | same length and order as the songs; entry `i` is `[sub_str(name), [change_str(a) for a in artists]]` of song `i` |
| CloudMusic.FirstSuccess | plugins/syncmusiclist/cloudmusic.py:118-128 | the first attempt that does not raise, or 5; every earlier attempt raised |
| CloudMusic.SongOfPlaylist | plugins/syncmusiclist/cloudmusic.py:108-136 | between 1 and 5 calls; every call but the last raised, and the last did not raise unless there were 5; all five raising gives `[]`; the method raises (`None`) iff that last call returned no `songs`; otherwise the fetched songs mapped one by one |
| CloudMusic.GetSongDaily | plugins/syncmusiclist/cloudmusic.py:89-97 | the same per-track mapping over `dailySongs`, in order |
| CloudMusic.KeepWithId | plugins/syncmusiclist/cloudmusic.py:83 | the `[id, name]` pairs exactly of the recommendations with a truthy id, no more pairs than recommendations |
| CloudMusic.KeepWithIdAppend | plugins/syncmusiclist/cloudmusic.py:83 | the filter keeps order: the pairs of a concatenation are the pairs of each part in turn |
| CloudMusic.GetListDays | plugins/syncmusiclist/cloudmusic.py:79-84 | at most `nums` pairs, drawn exactly from the first `nums` recommendations with a truthy id |
| CloudMusic.GetListDaysIgnoresTail | plugins/syncmusiclist/cloudmusic.py:83 | recommendations past the first `nums` do not affect the result |
| CloudMusic.Login | plugins/syncmusiclist/cloudmusic.py:60-66 | no request iff a cookie is cached; the cellphone endpoint iff there is no cookie and the username is all digits; an empty username goes to the email endpoint |
| PlexMusic.ArtistLibraries | plugins/syncmusiclist/plex_music.py:33-47 | the entries, all of type 音乐, are exactly those of the `artist` sections |
| PlexMusic.ArtistLibrariesAppend | plugins/syncmusiclist/plex_music.py:33-47 | the entries keep listing order: those of a concatenation are those of each part, in turn |
| PlexMusic.AudioTitles | plugins/syncmusiclist/plex_music.py:53-62 | the titles are exactly those of the audio playlists |
| PlexMusic.AudioTitlesAppend | plugins/syncmusiclist/plex_music.py:53-62 | the titles keep listing order across concatenation |
| PlexMusic.WithSinger | plugins/syncmusiclist/plex_music.py:95 | the filter keeps exactly the hits whose artist contains `singer` |
| PlexMusic.WithSingerAppend | plugins/syncmusiclist/plex_music.py:95 | the filter keeps search order: the hits of a concatenation are those of each part, in turn |
| PlexMusic.WithSingerHead | plugins/syncmusiclist/plex_music.py:95 | `[:1]` of the filter is the first hit whose artist contains `singer`, or `[]` |
| PlexMusic.SelectHits | plugins/syncmusiclist/plex_music.py:93-98 | at most one hit: unchanged; several under exact match: the first hit whose artist contains `singer`, or `[]`; several otherwise: the first hit |
| PlexMusic.SelectHitsExactEmpty | plugins/syncmusiclist/plex_music.py:94-95 | under exact match with several hits, nothing is returned iff no artist contains `singer` |
| PlexMusic.SelectHitsSubsequence | plugins/syncmusiclist/plex_music.py:93-98 | the selection is an order-preserving subsequence of the hits, of length at most 1 once there were several |
| PlexMusic.PlexMusic.GetMusicLibrary | plugins/syncmusiclist/plex_music.py:26-48 | without a server or when listing raises: no change and `[]`; otherwise the `artist` sections are appended and the registry returned; names and libraries stay in lockstep |
| PlexMusic.PlexMusic.GetPlaylists | plugins/syncmusiclist/plex_music.py:52-63 | appends the audio playlist titles in order and returns the registry; the library registries are unchanged |
| PlexMusic.PlexMusic.GetTracksByPlaylist | plugins/syncmusiclist/plex_music.py:67-74 | `[]` for a title that is not a known audio playlist; otherwise the item titles, in order |
| PlexMusic.PlexMusic.SearchScope | plugins/syncmusiclist/plex_music.py:89-92 | the search is confined to a section iff exactly one music library is known, and then to that library's section |
| PlexMusic.PlexMusic.SearchMusic | plugins/syncmusiclist/plex_music.py:85-98 | an ordered subsequence of the scoped search results: all of them when there is at most one, at most one otherwise |
| EmbyMusic.MusicLibraries | plugins/syncmusiclist/emby_music.py:46-56 | exactly the `music` views, as libraries |
| EmbyMusic.MusicLibrariesAppend | plugins/syncmusiclist/emby_music.py:46-56 | the music libraries keep view order across concatenation |
| EmbyMusic.PlaylistItems | plugins/syncmusiclist/emby_music.py:57-65 | every playlist comes from the child listing of a `playlists` view |
| EmbyMusic.AudioIds | plugins/syncmusiclist/emby_music.py:88 | exactly the ids of the `Audio` items |
| EmbyMusic.AudioIdsAppend | plugins/syncmusiclist/emby_music.py:88 | the audio ids keep listing order: those of a concatenation are those of each part, in turn |
| EmbyMusic.AudioIdsHead | plugins/syncmusiclist/emby_music.py:141 | `[:1]` of the audio ids is the id of the first `Audio` item, or `[]` |
| EmbyMusic.SearchMusic | plugins/syncmusiclist/emby_music.py:132-147 | at most one id; one iff the request succeeds, the count is present and positive, the items are present and some item is audio; and then the first audio item's id |
| EmbyMusic.AllIds | plugins/syncmusiclist/emby_music.py:149-154 | no more ids than names |
| EmbyMusic.AllIdsAppend | plugins/syncmusiclist/emby_music.py:149-154 | the ids of a concatenation of name lists are those of each list, in turn |
| EmbyMusic.CreatePlaylist | plugins/syncmusiclist/emby_music.py:91-111 | true iff the request does not raise, the status is 200 and the body decodes as JSON, whether or not the name is already known |
| EmbyMusic.SetTracksToPlaylist | plugins/syncmusiclist/emby_music.py:113-130 | true iff the request does not raise, the status is 200 and the body decodes as JSON |
| EmbyMusic.FirstBroken | plugins/syncmusiclist/emby_music.py:57-65 | the first `playlists` view whose child listing has no `Items`, or the number of views; no earlier view is such |
| EmbyMusic.EmbyMusic.GetMusicLibrary | plugins/syncmusiclist/emby_music.py:43-69 | without host or API key: no change and `[]`; otherwise, over the views before the first one without `Items`, the `music` views are appended to the libraries and the `playlists` children to the playlists; the libraries are returned, or the method raises (`None`) when such a view exists |
| EmbyMusic.EmbyMusic.AddView | plugins/syncmusiclist/emby_music.py:46-67 | one round of the view loop: a `music` view adds its library, a `playlists` view adds its children (none when the listing raises), others are skipped; it raises, changing nothing, iff the view's listing has no `Items` |
| EmbyMusic.EmbyMusic.FirstNamed | plugins/syncmusiclist/emby_music.py:74-77 | the position of the first known playlist with that name, or the number of playlists |
| EmbyMusic.EmbyMusic.GetTracksByPlaylist | plugins/syncmusiclist/emby_music.py:71-89 | `('', [])` when no playlist has that name or its id is empty; otherwise the first such playlist's id and its audio ids, `[]` when the fetch raises, and the method raises (`None`) when the listing has no `Items` |
| EmbyMusic.EmbyMusic.MulSearchMusic | plugins/syncmusiclist/emby_music.py:149-154 | the per-name results concatenated in order, no longer than the name list |
| SyncMusicList.ParseLine | plugins/syncmusiclist/__init__.py:362 | the unpacking succeeds iff the line holds exactly one `:`, and the line is then `a + ":" + b` with colon-free, untrimmed parts |
| SyncMusicList.ParseLineRoundTrip | plugins/syncmusiclist/__init__.py:362 | any two colon-free strings come back from the line they make |
| SyncMusicList.ServersOf | plugins/syncmusiclist/__init__.py:367-370 | Plex is selected iff `plex` is in the setting, Emby iff `emby` is |
| SyncMusicList.LineJobs | plugins/syncmusiclist/__init__.py:364-370 | one job per selected server, in order, and none when either part is empty |
| SyncMusicList.PlanLinesStopped | plugins/syncmusiclist/__init__.py:361-362 | once a line fails to unpack, later lines change nothing |
| SyncMusicList.PlanLinesAborts | plugins/syncmusiclist/__init__.py:360-372 | the plan of a source's lines stops iff some line does not hold exactly one `:` |
| SyncMusicList.PlanLinesJobs | plugins/syncmusiclist/__init__.py:360-372 | every job has both parts non-empty, targets a selected server and comes from the line `id + ":" + name` |
| SyncMusicList.PlanRunGuards | plugins/syncmusiclist/__init__.py:342-347 | nothing is synced when both path settings are empty or no server is selected |
| SyncMusicList.PlanRunQQAbortSkipsNetEase | plugins/syncmusiclist/__init__.py:358-389 | a malformed QQ line stops the run before any NetEase playlist is synced |
| SyncMusicList.EmptyLineAborts | plugins/syncmusiclist/__init__.py:360-362 | an empty line stops the run |
| SyncMusicList.SyncLines | plugins/syncmusiclist/__init__.py:360-372 | the line loop computes the run plan of its lines |
| SyncMusicList.JobsFor | plugins/syncmusiclist/__init__.py:367-370 | the two `in self._media_server` tests give one job per selected server, Plex first |
| SyncMusicList.RunSyncPlaylist | plugins/syncmusiclist/__init__.py:337-390 | the guards, then the QQ lines, then the NetEase lines |
| SyncMusicList.Delta | plugins/syncmusiclist/__init__.py:397 | an id is in the delta iff it was searched and is not in the playlist; never longer than the searched ids |
| SyncMusicList.DeltaAppend | plugins/syncmusiclist/__init__.py:397 | the delta keeps search order: the delta of a concatenation is the delta of each part, in turn |
| SyncMusicList.DeltaKeepsRepeats | plugins/syncmusiclist/__init__.py:397 | each new id occurs in the delta as often as it was found |
| SyncMusicList.DeltaAllNew | plugins/syncmusiclist/__init__.py:397 | when no searched id is present, the delta is the searched ids in order |
| SyncMusicList.DeltaAllPresent | plugins/syncmusiclist/__init__.py:397 | when every searched id is present, the delta is empty |
| SyncMusicList.DeltaRerun | plugins/syncmusiclist/__init__.py:396-398 | after the delta is appended, an unchanged re-run finds nothing new |
| SyncMusicList.TEmby | plugins/syncmusiclist/__init__.py:392-402 | a playlist found by name gets the comma-joined delta appended, even when it is empty; otherwise a playlist of that name is created with all searched ids; no request when reading the found playlist's tracks raises |
| SyncMusicList.NeverInTitles | plugins/syncmusiclist/__init__.py:411 | a track tuple equals no title string, so the skip test never skips |
| SyncMusicList.PlexDecision | plugins/syncmusiclist/__init__.py:418-433 | no request iff there are no tracks; create iff there are tracks and the playlist is empty; append iff there are tracks and it is not |
| SyncMusicList.TPlex | plugins/syncmusiclist/__init__.py:404-435 | the merged hits are exactly those of the exact searches of the tracks, without duplicates, and the decision is taken on them and the playlist's titles; a raising create or append is caught |
| MaoyanRank.BuildUrls | plugins/maoyanrank/__init__.py:513-534 | a movie URL iff `movie` is selected; no series URLs unless `web-heat` is; then two URLs (combined, then variety) for three kinds, one combined URL when 0 and 1 are both selected, otherwise one per kind in order |
| MaoyanRank.SeriesUrls | plugins/maoyanrank/__init__.py:531-534 | one URL per selected kind, in order |
| MaoyanRank.SeriesUrlsAreWebHeat | plugins/maoyanrank/__init__.py:519-534 | every series URL is a web-heat URL for the given day |
| MaoyanRank.Absorb | plugins/maoyanrank/__init__.py:663 | `d[title] = item` on an insertion-ordered dict: a known title is overwritten in place, a new one is added at the end, other entries unchanged |
| MaoyanRank.DedupTitles | plugins/maoyanrank/__init__.py:663-665 | after de-duplication the titles are unique and are exactly those of the input |
| MaoyanRank.DedupLastWins | plugins/maoyanrank/__init__.py:663-665 | every kept record is the last record of its title |
| MaoyanRank.DedupFirstPositions | plugins/maoyanrank/__init__.py:663-665 | kept records are ordered by the first occurrence of their titles |
| MaoyanRank.Collected | plugins/maoyanrank/__init__.py:641-661 | each series page contributes at most `num` records |
| MaoyanRank.GetUrlInfo | plugins/maoyanrank/__init__.py:607-671 | no browser: it raises and both lists are empty; otherwise the first `num` movies and the de-duplicated first `num` records of each series page; a page that raises contributes nothing |
| MaoyanRank.Digits | plugins/maoyanrank/__init__.py:555 | only digits, never longer than the text, and empty iff the text has none |
| MaoyanRank.DigitsAppend | plugins/maoyanrank/__init__.py:555 | the digits come in text order: the digits of a concatenation are those of each part, in turn |
| MaoyanRank.YearOf | plugins/maoyanrank/__init__.py:553-560 | no `releaseInfo` or no digit in it gives no year; otherwise the calendar step of the digits read as a day count |
| MaoyanRank.DigitsIgnoreText | plugins/maoyanrank/__init__.py:555 | the digits are picked out of surrounding digit-free text |
| MaoyanRank.YearOfDaysAgo | plugins/maoyanrank/__init__.py:553-557 | a `releaseInfo` such as "上映3天" gives the year 3 days before today |
| MaoyanRank.Flag | plugins/maoyanrank/__init__.py:564 | every flag carries the `maoyanrank: ` prefix |
| MaoyanRank.SubFoldHistory | plugins/maoyanrank/__init__.py:564-603 | the history only grows at the end; each new record carries its own flag, which was not in the history; distinct flags stay distinct |
| MaoyanRank.SubStepSkipsKnown | plugins/maoyanrank/__init__.py:564-567 | an item whose flag is already recorded changes nothing |
| MaoyanRank.SubFoldSettles | plugins/maoyanrank/__init__.py:547-605 | after a pass every item of the pass is recorded or turned away by the chains |
| MaoyanRank.SettledFoldIsIdentity | plugins/maoyanrank/__init__.py:547-605 | a pass over settled items changes nothing |
| MaoyanRank.SubFoldRerun | plugins/maoyanrank/__init__.py:547-605 | running `set_sub` twice on the same items subscribes nothing the second time |
| MaoyanRank.RankHistory.SetSub | plugins/maoyanrank/__init__.py:547-605 | the history becomes the fold of the items into it; one record per subscribed media, in order |
| MaoyanRank.RankHistory.SubscribeOne | plugins/maoyanrank/__init__.py:551-605 | skip on a known flag, no recognition, already in the library, already subscribed, or an `add` that raises; otherwise append one record for the returned media |
| MaoyanRank.RankHistory.Refresh | plugins/maoyanrank/__init__.py:495-545 | the history is only appended to and is returned for saving in every case; unchanged when the browser cannot start; new records carry fresh flags; distinct flags stay distinct |

## Left out

- Network and foreign libraries are inputs, not models:
  - the HTTP requests, `plexapi`, the NetEase API client and the QQ POST;
  - Playwright, lxml and JSON page scraping;
  - the media recogniser, library check and subscription chains.
- The models treat those inputs as pure: repeating a call gives the same answer.
- An exception raised inside `set_sub`'s recogniser, library check or subscription check is not a separate outcome: like a falsy answer, it leaves the history unchanged. A raising `add` is a separate outcome.
- `time.sleep` in the retry loop, the random user agent and `uuid` are not modelled; they do not affect results.
- The calendar step (`now - timedelta(days=n)`, then `.year`) is an input function `yearBefore`.
  - Only the digit extraction is modelled.
  - Today's date string for the URLs is an input too.
- `\d` in `re.findall(r'\d', …)` is modelled as ASCII digits. Python's `\d` also matches other Unicode decimal digits.
- `str.isdigit` in `login` is modelled as non-empty and all ASCII digits.
- The `MediaType` rendering inside the flag is taken as `MediaType.MOVIE` / `MediaType.TV`, the enum's `str`.
- `addr.get('platformDesc', '未知')`:
  - The default replaces a missing key.
  - The model replaces a `None` value too, since it does not tell a missing key from a `None` one.
- Titles are strings: a missing `title` (`None`) is not modelled.
- History records keep title, `releaseInfo`, `platformDesc`, media and flag.
  - `time`, `poster` and `overview` are not modelled: they are opaque to every rule here.
  - The TV season passed to the subscription is not modelled either.
  - The library check, the subscription check and `add` see only the recognised media. The source also passes them the parsed `meta` (title, year, season), which the model does not.
- `PlexMusic.PlexMusic.GetPlaylists`, `PlexMusic.PlexMusic.GetTracksByPlaylist`, `PlexMusic.PlexMusic.SearchMusic`, `SyncMusicList.TPlex`, `CloudMusic.GetSongDaily` and `QQMusic.GetPlaylistById` are modelled on their non-raising outcome only. Two kinds of exception are not modelled, and neither is caught at those points, so either ends the run:
  - a raising foreign call: Plex `playlists()`, `playlist(title).items()`, `search`, the NetEase `/recommend/songs` request, the QQ POST;
  - a failing key lookup: `res['data']['data']['dailySongs']`, `playlist["code"]`.
- An Emby item without `Id` is read with the id `""`. In the source its id is `None`, and `','.join` of the ids in `__t_emby` then raises; that is not modelled.
- `SyncMusicList.TEmby`: the search term of a track (its text form in the URL) is an input function, and the outcome of the final request is only logged.
- `SyncMusicList.TPlex`: `list(set(...))` is modelled as a set of hits compared by value, so the order of the merged tracks is not modelled. Hits carry their `key`, so distinct tracks with the same title and artist stay apart. A hit's other fields are taken to follow from its key.
- The NetEase tracks' list-valued singer is not modelled: Plex search is modelled with a string singer.
- `_wylogin_user`, which reads the password key, is not modelled.
- The `login(..., phone=True)` call in the run is not modelled: the keyword is not accepted.
- `SyncMusicList.PlanLinesAborts` is about the plan: an exception raised inside a job also stops the source's loop, and the plan does not model that. Examples are `int(play_id)` on a non-numeric QQ id, or a fetch without `songs` / `Items`.
- `SyncMusicList.RunSyncPlaylist` models the run as its plan of jobs.
  - The server initialisation (`get_music_library`, `get_playlists`) and the per-job fetch and reconciliation are separate members here.
  - They are not chained inside the run.
- `MaoyanRank.RankHistory.Refresh` states the history invariants, not the full content of the new history; `SetSub` and `GetUrlInfo` state the content.
- `PlexMusic.PlexMusic.SearchMusic`:
  - the `int()` conversion of the section id is not modelled;
  - the search is an input of name and optional section.
- `EmbyMusic.PlaylistItems` states where each playlist comes from, not the full order. The method's postcondition gives the exact sequence.
- Not modelled:
  - `login_status`, captcha and `signin`;
  - `playlist` as a raw call;
  - Plex `create_playlist` / `set_tracks_to_playlist` (single foreign calls);
  - `get_user_name`.
- Plugin lifecycle is not modelled: `init_plugin`, `stop_service`, the scheduler and events, the config update, and the `get_form` / `get_page` UI schemas.
