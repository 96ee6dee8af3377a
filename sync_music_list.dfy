/**
 * The playlist synchronisation of the music plugin
 * (plugins/syncmusiclist/__init__.py): reading the `id:name` configuration
 * lines into sync jobs, and reconciling one fetched playlist with an Emby or
 * a Plex playlist.
 */
module SyncMusicList {
  import opened Wrappers
  import opened Builtins
  import P = PlexMusic
  import E = EmbyMusic

  datatype Source = QQ | NetEase
  datatype Server = Plex | Emby

  /** One `__t_plex` / `__t_emby` call the run makes, for a playlist id of a source. */
  datatype Job = Job(source: Source, playId: string, mediaPlaylist: string, server: Server)

  /** The jobs a run makes, and whether it stopped on a malformed line (the unpacking raises). */
  datatype RunResult = RunResult(jobs: seq<Job>, aborted: bool)

  /** `a, b = line.split(':')`: defined iff the line holds exactly one `:`; the parts are not trimmed. */
  function ParseLine(line: string): (r: Option<(string, string)>)
    ensures r.Some? <==> Count(line, ':') == 1
    ensures r.Some? ==> line == r.value.0 + ":" + r.value.1
    ensures r.Some? ==> ':' !in r.value.0 && ':' !in r.value.1
  {
    var parts := Split(line, ':');
    if |parts| == 2 then
      assert parts[1..] == [parts[1]];
      assert Join(parts, ':') == parts[0] + [':'] + parts[1];
      Some((parts[0], parts[1]))
    else None
  }

  /** Any two colon-free strings come back from the line they make, untrimmed. */
  lemma ParseLineRoundTrip(a: string, b: string)
    requires ':' !in a && ':' !in b
    ensures ParseLine(a + ":" + b) == Some((a, b))
  {
    var parts := [a, b];
    assert parts[1..] == [b];
    assert Join(parts, ':') == a + ":" + b;
    SplitJoin(parts, ':');
  }

  /** The servers a run syncs to, Plex first. */
  function ServersOf(mediaServer: seq<string>): (r: seq<Server>)
    ensures Plex in r <==> "plex" in mediaServer
    ensures Emby in r <==> "emby" in mediaServer
    ensures |r| <= 2
  {
    (if "plex" in mediaServer then [Plex] else []) + (if "emby" in mediaServer then [Emby] else [])
  }

  /** The jobs of one well-formed line: one per selected server, but none when either part is empty. */
  function LineJobs(source: Source, id: string, name: string, servers: seq<Server>): (r: seq<Job>)
    ensures |r| == if id != "" && name != "" then |servers| else 0
    ensures forall i :: 0 <= i < |r| ==> r[i] == Job(source, id, name, servers[i])
  {
    if id != "" && name != "" then seq(|servers|, i requires 0 <= i < |servers| => Job(source, id, name, servers[i]))
    else []
  }

  /** Once the loop has stopped, later lines change nothing. */
  lemma {:induction false} PlanLinesStopped(lines: seq<string>, i: nat, source: Source, servers: seq<Server>)
    requires i <= |lines| && PlanLines(lines[..i], source, servers).aborted
    ensures PlanLines(lines, source, servers) == PlanLines(lines[..i], source, servers)
    decreases |lines|
  {
    if i < |lines| {
      var init := lines[..|lines| - 1];
      assert init[..i] == lines[..i];
      PlanLinesStopped(init, i, source, servers);
    } else {
      assert lines[..i] == lines;
    }
  }

  /** The result of the line loop over `lines`, one line at a time, stopping at the first malformed line. */
  function PlanLines(lines: seq<string>, source: Source, servers: seq<Server>): RunResult
  {
    if |lines| == 0 then RunResult([], false)
    else
      var done := PlanLines(lines[..|lines| - 1], source, servers);
      if done.aborted then done
      else match ParseLine(lines[|lines| - 1])
        case None => RunResult(done.jobs, true)
        case Some(p) => RunResult(done.jobs + LineJobs(source, p.0, p.1, servers), false)
  }

  /** The loop stops iff some line does not hold exactly one `:`. */
  lemma {:induction false} PlanLinesAborts(lines: seq<string>, source: Source, servers: seq<Server>)
    ensures PlanLines(lines, source, servers).aborted <==> exists i :: 0 <= i < |lines| && Count(lines[i], ':') != 1
  {
    if |lines| > 0 {
      var init := lines[..|lines| - 1];
      PlanLinesAborts(init, source, servers);
      assert forall i :: 0 <= i < |init| ==> init[i] == lines[i];
    }
  }

  /** Every job comes from a line with both parts non-empty, for a selected server. */
  lemma {:induction false} PlanLinesJobs(lines: seq<string>, source: Source, servers: seq<Server>)
    ensures forall j :: j in PlanLines(lines, source, servers).jobs ==>
      j.source == source && j.server in servers && j.playId != "" && j.mediaPlaylist != "" &&
      exists i :: 0 <= i < |lines| && lines[i] == j.playId + ":" + j.mediaPlaylist
  {
    if |lines| > 0 {
      var init := lines[..|lines| - 1];
      PlanLinesJobs(init, source, servers);
      assert forall i :: 0 <= i < |init| ==> init[i] == lines[i];
    }
  }

  /** What `__run_sync_paylist` does, given its three settings. */
  function PlanRun(qqPaths: string, wyPaths: string, mediaServer: seq<string>): RunResult
  {
    if (qqPaths == "" && wyPaths == "") || |mediaServer| == 0 then RunResult([], false)
    else
      var servers := ServersOf(mediaServer);
      var qq := if qqPaths != "" then PlanLines(Split(qqPaths, '\n'), QQ, servers) else RunResult([], false);
      if qq.aborted then qq
      else
        var wy := if wyPaths != "" then PlanLines(Split(wyPaths, '\n'), NetEase, servers) else RunResult([], false);
        RunResult(qq.jobs + wy.jobs, wy.aborted)
  }

  /** Nothing is synced when both path settings are empty or no media server is selected. */
  lemma PlanRunGuards(qqPaths: string, wyPaths: string, mediaServer: seq<string>)
    requires (qqPaths == "" && wyPaths == "") || mediaServer == []
    ensures PlanRun(qqPaths, wyPaths, mediaServer) == RunResult([], false)
  {
  }

  /** A malformed QQ line stops the run before any NetEase playlist is touched. */
  lemma PlanRunQQAbortSkipsNetEase(qqPaths: string, wyPaths: string, mediaServer: seq<string>, i: nat)
    requires mediaServer != [] && qqPaths != ""
    requires i < |Split(qqPaths, '\n')| && Count(Split(qqPaths, '\n')[i], ':') != 1
    ensures PlanRun(qqPaths, wyPaths, mediaServer).aborted
    ensures forall j :: j in PlanRun(qqPaths, wyPaths, mediaServer).jobs ==> j.source == QQ
  {
    var servers := ServersOf(mediaServer);
    PlanLinesAborts(Split(qqPaths, '\n'), QQ, servers);
    PlanLinesJobs(Split(qqPaths, '\n'), QQ, servers);
  }

  /** An empty line, such as the one a trailing newline leaves, is malformed and stops the run. */
  lemma EmptyLineAborts(qqPaths: string, i: nat, source: Source, servers: seq<Server>)
    requires i < |Split(qqPaths, '\n')| && Split(qqPaths, '\n')[i] == ""
    ensures PlanLines(Split(qqPaths, '\n'), source, servers).aborted
  {
    PlanLinesAborts(Split(qqPaths, '\n'), source, servers);
  }

  /**
   * The line loop of `__run_sync_paylist` for one source: each line must
   * unpack into an id and a playlist name, or the run stops; a line with
   * both parts non-empty is synced to each selected server in turn.
   */
  method SyncLines(lines: seq<string>, source: Source, mediaServer: seq<string>) returns (result: RunResult)
    ensures result == PlanLines(lines, source, ServersOf(mediaServer))
  {
    var servers := ServersOf(mediaServer);
    var jobs: seq<Job> := [];
    for i := 0 to |lines|
      invariant PlanLines(lines[..i], source, servers) == RunResult(jobs, false)
    {
      PlanLinesNext(lines, i, source, servers);
      var parsed := ParseLine(lines[i]);
      if parsed.None? {
        PlanLinesStopped(lines, i + 1, source, servers);
        return RunResult(jobs, true);
      }
      var (playId, mediaPlaylist) := parsed.value;
      if playId != "" && mediaPlaylist != "" {
        var lineJobs := JobsFor(source, playId, mediaPlaylist, mediaServer);
        jobs := jobs + lineJobs;
      } else {
        assert jobs + LineJobs(source, playId, mediaPlaylist, servers) == jobs;
      }
    }
    assert lines[..|lines|] == lines;
    result := RunResult(jobs, false);
  }

  /** One more line of the loop, from a run that has not stopped. */
  lemma PlanLinesNext(lines: seq<string>, i: nat, source: Source, servers: seq<Server>)
    requires i < |lines| && !PlanLines(lines[..i], source, servers).aborted
    ensures PlanLines(lines[..i + 1], source, servers) ==
      match ParseLine(lines[i])
        case None => RunResult(PlanLines(lines[..i], source, servers).jobs, true)
        case Some(p) => RunResult(PlanLines(lines[..i], source, servers).jobs + LineJobs(source, p.0, p.1, servers), false)
  {
    assert lines[..i + 1][..i] == lines[..i];
  }

  /** The two `if 'plex' / if 'emby' in self._media_server` calls for one line with both parts set. */
  method JobsFor(source: Source, playId: string, mediaPlaylist: string, mediaServer: seq<string>) returns (lineJobs: seq<Job>)
    requires playId != "" && mediaPlaylist != ""
    ensures lineJobs == LineJobs(source, playId, mediaPlaylist, ServersOf(mediaServer))
  {
    lineJobs := [];
    if "plex" in mediaServer {
      lineJobs := lineJobs + [Job(source, playId, mediaPlaylist, Plex)];
    }
    if "emby" in mediaServer {
      lineJobs := lineJobs + [Job(source, playId, mediaPlaylist, Emby)];
    }
  }

  /**
   * `__run_sync_paylist`: the guards, then the QQ lines, then the NetEase
   * lines, each line synced to Plex before Emby. Fetching the playlists and
   * the two reconciliations are the methods below.
   */
  method RunSyncPlaylist(qqPaths: string, wyPaths: string, mediaServer: seq<string>) returns (result: RunResult)
    ensures result == PlanRun(qqPaths, wyPaths, mediaServer)
  {
    if qqPaths == "" && wyPaths == "" {
      return RunResult([], false);
    }
    if |mediaServer| == 0 {
      return RunResult([], false);
    }
    var servers := ServersOf(mediaServer);
    var jobs: seq<Job> := [];
    if qqPaths != "" {
      var qq := SyncLines(Split(qqPaths, '\n'), QQ, mediaServer);
      if qq.aborted {
        return qq;
      }
      jobs := qq.jobs;
    }
    if wyPaths != "" {
      var wy := SyncLines(Split(wyPaths, '\n'), NetEase, mediaServer);
      return RunResult(jobs + wy.jobs, wy.aborted);
    }
    assert jobs + [] == jobs;
    result := RunResult(jobs, false);
  }

  // Emby

  /** `[i for i in tracks if i not in music_ids]`. */
  function Delta(searched: seq<string>, existing: seq<string>): (r: seq<string>)
    ensures |r| <= |searched|
    ensures forall x :: x in r <==> x in searched && x !in existing
  {
    if |searched| == 0 then []
    else
      var rest := Delta(searched[1..], existing);
      assert forall x :: x in searched <==> x == searched[0] || x in searched[1..];
      if searched[0] !in existing then [searched[0]] + rest else rest
  }

  /** Repeats among the searched ids are kept: a new id occurs in the delta as often as it was found. */
  lemma {:induction false} DeltaKeepsRepeats(searched: seq<string>, existing: seq<string>, x: string)
    requires x !in existing
    ensures multiset(Delta(searched, existing))[x] == multiset(searched)[x]
  {
    if |searched| > 0 {
      DeltaKeepsRepeats(searched[1..], existing, x);
      assert searched == [searched[0]] + searched[1..];
    }
  }

  /** Ids that are all new are appended exactly as found, in order. */
  lemma {:induction false} DeltaAllNew(searched: seq<string>, existing: seq<string>)
    requires forall i :: 0 <= i < |searched| ==> searched[i] !in existing
    ensures Delta(searched, existing) == searched
  {
    if |searched| > 0 {
      DeltaAllNew(searched[1..], existing);
      assert searched == [searched[0]] + searched[1..];
    }
  }

  /** When every searched id is already present, the delta is empty. */
  lemma {:induction false} DeltaAllPresent(searched: seq<string>, existing: seq<string>)
    requires forall i :: 0 <= i < |searched| ==> searched[i] in existing
    ensures Delta(searched, existing) == []
  {
    if |searched| > 0 {
      DeltaAllPresent(searched[1..], existing);
    }
  }

  /** The delta keeps search order: the delta of a concatenation is the delta of each part, in turn. */
  lemma {:induction false} DeltaAppend(a: seq<string>, b: seq<string>, existing: seq<string>)
    ensures Delta(a + b, existing) == Delta(a, existing) + Delta(b, existing)
    decreases |a|
  {
    if |a| == 0 {
      assert a + b == b;
    } else {
      assert (a + b)[1..] == a[1..] + b;
      DeltaAppend(a[1..], b, existing);
    }
  }

  /** Once the delta is in the playlist, running the sync again appends nothing. */
  lemma DeltaRerun(searched: seq<string>, existing: seq<string>)
    ensures Delta(searched, existing + Delta(searched, existing)) == []
  {
    DeltaAllPresent(searched, existing + Delta(searched, existing));
  }

  /** The Emby request the sync issues. */
  datatype EmbyAction =
    | AppendTo(playlistId: string, ids: string)
    | CreateNew(name: string, ids: string)

  /**
   * `__t_emby`: search every track (`searchTerm` is the text the track takes
   * in the search URL), look the playlist up by name, then append the ids
   * not already in it (the append is issued even when there are none), or
   * create the playlist with all ids when it was not found. The response of
   * the final request is only logged, so it is not modelled. When reading
   * the playlist's tracks raises, no request is issued (`None`).
   */
  method TEmby(em: E.EmbyMusic, tTracks: seq<SyncTrack>, mediaPlaylist: string,
               searchTerm: SyncTrack -> string, search: string -> E.SearchResponse,
               itemsOf: string -> E.Listing) returns (action: Option<EmbyAction>)
    ensures var terms := seq(|tTracks|, i requires 0 <= i < |tTracks| => searchTerm(tTracks[i]));
      var k := em.FirstNamed(mediaPlaylist);
      var found := k < |em.musicPlaylists| && em.musicPlaylists[k].id != "";
      (!found ==> action == Some(CreateNew(mediaPlaylist, Join(E.AllIds(terms, search), ',')))) &&
      (found ==>
         action == match E.TracksOf(itemsOf(em.musicPlaylists[k].id))
           case None => None
           case Some(existing) => Some(AppendTo(em.musicPlaylists[k].id, Join(Delta(E.AllIds(terms, search), existing), ','))))
  {
    var terms := seq(|tTracks|, i requires 0 <= i < |tTracks| => searchTerm(tTracks[i]));
    var tracks := em.MulSearchMusic(terms, search);
    var fetched := em.GetTracksByPlaylist(mediaPlaylist, itemsOf);
    if fetched.None? {
      return None;
    }
    var (playlistId, musicIds) := fetched.value;
    if playlistId != "" {
      var ids := Delta(tracks, musicIds);
      action := Some(AppendTo(playlistId, Join(ids, ',')));
    } else {
      action := Some(CreateNew(mediaPlaylist, Join(tracks, ',')));
    }
  }

  // Plex

  /** A track handed to the reconciliation: its name and its singer. */
  datatype SyncTrack = SyncTrack(name: string, singer: string)

  /** The Python values the skip test compares: a title string or a `(name, singer)` track. */
  datatype PyValue = PyStr(s: string) | PyTrack(name: string, singer: string)

  /** `t_track in plex_tracks`: the whole track against each title, by Python equality. */
  predicate InTitles(t: SyncTrack, titles: seq<string>)
  {
    exists i :: 0 <= i < |titles| && PyTrack(t.name, t.singer) == PyStr(titles[i])
  }

  /** A track never equals a title string, so the skip test never skips. */
  lemma NeverInTitles(t: SyncTrack, titles: seq<string>)
    ensures !InTitles(t, titles)
  {
  }

  /** The Plex request the sync issues. */
  datatype PlexAction =
    | NoOp
    | Create(title: string, tracks: set<P.Hit>)
    | Append(title: string, tracks: set<P.Hit>)

  /** No tracks: nothing; an empty existing playlist: create; otherwise: append. */
  function PlexDecision(title: string, existing: seq<string>, added: set<P.Hit>): (a: PlexAction)
    ensures a.NoOp? <==> added == {}
    ensures a.Create? <==> added != {} && existing == []
    ensures a.Append? <==> added != {} && existing != []
    ensures !a.NoOp? ==> a.title == title && a.tracks == added
  {
    if |added| > 0 then
      if |existing| < 1 then Create(title, added) else Append(title, added)
    else NoOp
  }

  /**
   * `__t_plex`: read the playlist's current titles, search every track not
   * skipped (always exact), merge the hits without duplicates and decide.
   * A create or append that raises is caught, so the decision is the whole
   * outcome.
   */
  method TPlex(pm: P.PlexMusic, tTracks: seq<SyncTrack>, mediaPlaylist: string,
               itemsOf: string -> seq<P.Hit>, search: (string, Option<string>) -> seq<P.Hit>)
    returns (action: PlexAction, addTracks: set<P.Hit>)
    ensures forall h :: h in addTracks <==>
      exists i :: 0 <= i < |tTracks| && h in pm.SearchMusic(tTracks[i].name, tTracks[i].singer, true, search)
    ensures action == PlexDecision(mediaPlaylist, pm.GetTracksByPlaylist(mediaPlaylist, itemsOf), addTracks)
  {
    var found: seq<P.Hit> := [];
    var plexTracks := pm.GetTracksByPlaylist(mediaPlaylist, itemsOf);
    for i := 0 to |tTracks|
      invariant forall h :: h in found <==>
        exists j :: 0 <= j < i && h in pm.SearchMusic(tTracks[j].name, tTracks[j].singer, true, search)
    {
      var t := tTracks[i];
      NeverInTitles(t, plexTracks);
      if InTitles(t, plexTracks) {
        continue;
      }
      var tracks := pm.SearchMusic(t.name, t.singer, true, search);
      found := found + tracks;
    }
    addTracks := set h | h in found;
    action := PlexDecision(mediaPlaylist, plexTracks, addTracks);
  }
}
