/**
  `PlaylistSync`: looks up the playlist, names its tracks, compares them with the `.mp3`
  files under the root, then removes the surplus files (pruning the folder each one
  leaves empty) and downloads the missing tracks.
*/
module SyncPlaylist {
  import opened Wrappers
  import opened Python
  import opened PosixPath
  import opened TrackNaming
  import opened TagMap
  import opened LocalScan
  import opened Reconcile
  import opened Disk

  /** A call of `remove_track` or `add_track`, by the file it was given. */
  datatype Call = RemoveTrackCall(file: string) | AddTrackCall(file: string)

  /** `playlist_id, = user_playlists[name]`: the playlist must exist and hold exactly one id. */
  function PlaylistId(userPlaylists: map<string, seq<string>>, name: string): (r: Result<string, Error>)
    ensures name !in userPlaylists ==> r == Err(PlaylistNotFound(name))
    ensures name in userPlaylists && |userPlaylists[name]| != 1 ==> r == Err(ValueError)
    ensures r.Ok? <==> name in userPlaylists && |userPlaylists[name]| == 1
    ensures r.Ok? ==> r.value in userPlaylists[name]
  {
    if name !in userPlaylists then Err(PlaylistNotFound(name))
    else if |userPlaylists[name]| != 1 then Err(ValueError)
    else Ok(userPlaylists[name][0])
  }

  /** The pairs `(name(track), track)` for a list of tracks, in order, consumed by
      `dict(...)`: the first track `name` fails on aborts with its error. */
  function NamePairs(songs: seq<Track>, name: Track -> Result<string, Error>): Result<seq<(string, Track)>, Error>
  {
    if songs == [] then Ok([])
    else
      match name(songs[0])
      case Err(e) => Err(e)
      case Ok(p) =>
        match NamePairs(songs[1..], name)
        case Err(e) => Err(e)
        case Ok(pairs) => Ok([(p, songs[0])] + pairs)
  }

  /** The pairs `get_playlist_tracks` yields: each track under its file name below `root`. */
  function PlaylistTracks(root: string, songs: seq<Track>): Result<seq<(string, Track)>, Error>
  {
    NamePairs(songs, track => TrackFileName(root, track))
  }

  lemma {:induction false} NamePairsOk(songs: seq<Track>, name: Track -> Result<string, Error>)
    ensures NamePairs(songs, name).Ok? <==> forall i :: 0 <= i < |songs| ==> name(songs[i]).Ok?
  {
    if songs != [] {
      var rest := songs[1..];
      NamePairsOk(rest, name);
      assert forall i :: 1 <= i < |songs| ==> songs[i] == rest[i - 1];
    }
  }

  lemma {:induction false} NamePairsValues(songs: seq<Track>, name: Track -> Result<string, Error>)
    requires NamePairs(songs, name).Ok?
    ensures var pairs := NamePairs(songs, name).value;
      && |pairs| == |songs|
      && forall i :: 0 <= i < |songs| ==> name(songs[i]) == Ok(pairs[i].0) && pairs[i].1 == songs[i]
  {
    if songs != [] {
      var rest := songs[1..];
      NamePairsValues(rest, name);
      assert forall i :: 1 <= i < |songs| ==> songs[i] == rest[i - 1];
    }
  }

  lemma {:induction false} NamePairsFirstError(songs: seq<Track>, name: Track -> Result<string, Error>)
    ensures var r := NamePairs(songs, name);
      r.Err? ==> (exists i :: && 0 <= i < |songs| && name(songs[i]) == Err(r.error)
                              && forall j :: 0 <= j < i ==> name(songs[j]).Ok?)
  {
    if songs != [] && name(songs[0]).Ok? {
      var rest := songs[1..];
      NamePairsFirstError(rest, name);
      var r := NamePairs(rest, name);
      if r.Err? {
        var i :| 0 <= i < |rest| && name(rest[i]) == Err(r.error)
                 && forall j :: 0 <= j < i ==> name(rest[j]).Ok?;
        assert songs[i + 1] == rest[i];
        assert forall j :: 1 <= j < i + 1 ==> songs[j] == rest[j - 1];
      }
    }
  }

  /** The pairs are named exactly when every track can be named. */
  lemma PlaylistTracksOk(root: string, songs: seq<Track>)
    ensures PlaylistTracks(root, songs).Ok? <==> forall i :: 0 <= i < |songs| ==> Nameable(songs[i])
  {
    NamePairsOk(songs, track => TrackFileName(root, track));
  }

  /** Then there is one pair per track, in playlist order: its path and the track. */
  lemma PlaylistTracksValues(root: string, songs: seq<Track>)
    requires PlaylistTracks(root, songs).Ok?
    ensures var pairs := PlaylistTracks(root, songs).value;
      && |pairs| == |songs|
      && forall i :: 0 <= i < |songs| ==> TrackFileName(root, songs[i]) == Ok(pairs[i].0) && pairs[i].1 == songs[i]
  {
    NamePairsValues(songs, track => TrackFileName(root, track));
  }

  /** Otherwise the error is that of the first track that cannot be named. */
  lemma PlaylistTracksFirstError(root: string, songs: seq<Track>)
    ensures var r := PlaylistTracks(root, songs);
      r.Err? ==> (exists i :: && 0 <= i < |songs| && TrackFileName(root, songs[i]) == Err(r.error)
                              && forall j :: 0 <= j < i ==> Nameable(songs[j]))
  {
    NamePairsFirstError(songs, track => TrackFileName(root, track));
  }

  /** The directory `remove_track` lists after deleting `file`:
      `join(root, split(relpath(file, root))[0])`. */
  function PruneCandidate(root: string, file: string): string
    requires UnderRoot(file, root)
  {
    Join(root, Split(RelPath(file, root)).0)
  }

  /** The `remove_track` calls for a list of entries, in order. */
  function RemoveCalls(entries: seq<Entry>): seq<Call> {
    seq(|entries|, i requires 0 <= i < |entries| => RemoveTrackCall(entries[i].1))
  }

  /** The `add_track` calls for a list of entries, in order. */
  function AddCalls(entries: seq<Entry>): seq<Call> {
    seq(|entries|, i requires 0 <= i < |entries| => AddTrackCall(entries[i].1))
  }

  /** Every entry's path lies below `root`. */
  predicate AllUnderRoot(entries: seq<Entry>, root: string) {
    forall i :: 0 <= i < |entries| ==> UnderRoot(entries[i].1, root)
  }

  /** The calls `sync` makes, in order: every removal, then every addition. */
  function Planned(toRemove: seq<Entry>, toAdd: seq<Entry>): seq<Call> {
    RemoveCalls(toRemove) + AddCalls(toAdd)
  }

  class PlaylistSync {
    /** The destination folder. */
    const root: string
    const playlistName: string
    const disk: FileSystem
    /** The `remove_track` and `add_track` calls made so far. */
    ghost var calls: seq<Call>

    constructor (root: string, playlistName: string, disk: FileSystem)
      ensures this.root == root && this.playlistName == playlistName && this.disk == disk
      ensures calls == []
    {
      this.root := root;
      this.playlistName := playlistName;
      this.disk := disk;
      calls := [];
    }

    /** `remove_track(file)`: deletes the file, then deletes its folder when that is left
        empty. Only the folder holding the file is looked at, never the ones above it, and
        for a file directly under the root that folder is the root itself. */
    method RemoveTrack(file: string) returns (outcome: Outcome<Error>)
      requires UnderRoot(file, root)
      modifies this, disk
      ensures calls == old(calls) + [RemoveTrackCall(file)]
      ensures Canon(file) !in old(disk.files) ==>
                outcome == Fail(OSError) && disk.files == old(disk.files) && disk.dirs == old(disk.dirs)
      ensures Canon(file) in old(disk.files) ==>
                && disk.files == old(disk.files) - {Canon(file)}
                && var parent := Split(file).0;
                && (parent !in old(disk.dirs) ==> outcome == Fail(OSError) && disk.dirs == old(disk.dirs))
                && (parent in old(disk.dirs) ==>
                      && outcome == Pass
                      && disk.dirs == if EmptyDir(disk.files, old(disk.dirs), parent)
                                      then old(disk.dirs) - {parent} else old(disk.dirs))
    {
      calls := calls + [RemoveTrackCall(file)];
      outcome := disk.Remove(file);
      if outcome.Fail? {
        return;
      }
      var rel := RelPath(file, root);
      var dirs := [Split(rel).0];
      PruneDirPath(root, file, dirs);
      ghost var parent := Split(file).0;
      ghost var dirs0 := disk.dirs;
      ghost var files1 := disk.files;
      for i := 1 to |dirs| + 1
        invariant calls == old(calls) + [RemoveTrackCall(file)]
        invariant disk.files == files1
        invariant i == 1 ==> disk.dirs == dirs0
        invariant i > 1 ==> parent in dirs0 && disk.dirs == if EmptyDir(files1, dirs0, parent)
                                                               then dirs0 - {parent} else dirs0
      {
        var dirPath := JoinAll(root, dirs[..i]);
        assert i == 1;
        var listing := disk.ListDir(dirPath);
        ListingEmpty(files1, dirs0, parent);
        if listing.Err? {
          return Fail(listing.error);
        }
        if listing.value == {} {
          disk.RemoveDir(dirPath);
        }
      }
      return Pass;
    }

    /** `add_track(track, file)`: creates the file's folder when it does not exist, writes
        the downloaded file (the download itself is not modelled), then saves its tags. */
    method AddTrack(track: Track, file: string) returns (outcome: Outcome<Error>)
      modifies this, disk
      ensures calls == old(calls) + [AddTrackCall(file)]
      ensures var made := if ExistsIn(old(disk.files), old(disk.dirs), Split(file).0) then Ok(old(disk.dirs))
                          else MakeDirsSpec(old(disk.files), old(disk.dirs), Split(file).0);
        && (made.Err? ==> outcome == Fail(made.error) && disk.files == old(disk.files) && disk.dirs == old(disk.dirs))
        && (made.Ok? ==> disk.dirs == made.value)
        && (made.Ok? && "id" !in track ==> outcome == Fail(KeyError("id")) && disk.files == old(disk.files))
        && (made.Ok? && "id" in track && (Canon(file) in made.value || !ParentIsDir(made.value, file)) ==>
              outcome == Fail(IOError) && disk.files == old(disk.files))
        && (made.Ok? && "id" in track && Canon(file) !in made.value && ParentIsDir(made.value, file)
            && TagErrors(track) == {} ==>
              outcome == Pass && disk.files == old(disk.files)[Canon(file) := TrackTags(track)])
        && (made.Ok? && "id" in track && Canon(file) !in made.value && ParentIsDir(made.value, file)
            && TagErrors(track) != {} ==>
              && outcome.Fail? && outcome.error in TagErrors(track)
              && disk.files == old(disk.files)[Canon(file) := map[]])
    {
      calls := calls + [AddTrackCall(file)];
      var folder := Split(file).0;
      if !disk.Exists(folder) {
        outcome := disk.MakeDirs(folder);
        if outcome.Fail? {
          return;
        }
      }
      if "id" !in track {
        return Fail(KeyError("id"));
      }
      outcome := disk.WriteFile(file);
      if outcome.Fail? {
        return;
      }
      var tags := CopyTrackMetadata(track);
      if tags.Err? {
        return Fail(tags.error);
      }
      ghost var written := disk.files;
      disk.SaveTags(file, tags.value);
      UpdateTwice(old(disk.files), Canon(file), map[], tags.value);
      return Pass;
    }

    /** One pass of the loop over `to_remove`: `remove_track(file_name)`, of which the
        loop only needs the call made. */
    method RemoveEntry(entry: Entry) returns (outcome: Outcome<Error>)
      requires UnderRoot(entry.1, root)
      modifies this, disk
      ensures calls == old(calls) + [RemoveTrackCall(entry.1)]
    {
      outcome := RemoveTrack(entry.1);
    }

    /** The loop of `sync` over `to_remove`, the first exception ending it. `done` counts
        the calls made, the failing one included. */
    method RemoveAll(toRemove: seq<Entry>) returns (outcome: Outcome<Error>, ghost done: nat)
      requires AllUnderRoot(toRemove, root)
      modifies this, disk
      ensures done <= |toRemove|
      ensures calls == old(calls) + RemoveCalls(toRemove)[..done]
      ensures outcome.Pass? ==> done == |toRemove|
      ensures outcome.Fail? ==> done >= 1
    {
      ghost var planned := RemoveCalls(toRemove);
      outcome := Pass;
      var i := 0;
      while i < |toRemove|
        invariant 0 <= i <= |toRemove|
        invariant calls == old(calls) + planned[..i]
      {
        PrefixStep(planned, i);
        outcome := RemoveEntry(toRemove[i]);
        if outcome.Fail? {
          return outcome, i + 1;
        }
        i := i + 1;
      }
      assert planned[..i] == planned;
      return Pass, i;
    }

    /** One pass of the loop over `to_add`: `add_track(track, file_name)`, of which the
        loop only needs the call made. */
    method AddEntry(entry: Entry) returns (outcome: Outcome<Error>)
      modifies this, disk
      ensures calls == old(calls) + [AddTrackCall(entry.1)]
    {
      outcome := AddTrack(entry.0, entry.1);
    }

    /** The loop of `sync` over `to_add`, the first exception ending it. */
    method AddAll(toAdd: seq<Entry>) returns (outcome: Outcome<Error>, ghost done: nat)
      modifies this, disk
      ensures done <= |toAdd|
      ensures calls == old(calls) + AddCalls(toAdd)[..done]
      ensures outcome.Pass? ==> done == |toAdd|
      ensures outcome.Fail? ==> done >= 1
    {
      ghost var planned := AddCalls(toAdd);
      outcome := Pass;
      var j := 0;
      while j < |toAdd|
        invariant 0 <= j <= |toAdd|
        invariant calls == old(calls) + planned[..j]
      {
        PrefixStep(planned, j);
        outcome := AddEntry(toAdd[j]);
        if outcome.Fail? {
          return outcome, j + 1;
        }
        j := j + 1;
      }
      assert planned[..j] == planned;
      return Pass, j;
    }

    /** The two loops at the end of `sync`: every removal, then every addition, the first
        exception ending the run. `done` counts the calls made, the failing one included. */
    method Execute(toRemove: seq<Entry>, toAdd: seq<Entry>) returns (outcome: Outcome<Error>, ghost done: nat)
      requires AllUnderRoot(toRemove, root)
      modifies this, disk
      ensures done <= |Planned(toRemove, toAdd)|
      ensures calls == old(calls) + Planned(toRemove, toAdd)[..done]
      ensures outcome.Pass? ==> done == |Planned(toRemove, toAdd)|
      ensures outcome.Fail? ==> done >= 1
    {
      ghost var removes, adds := RemoveCalls(toRemove), AddCalls(toAdd);
      outcome, done := RemoveAll(toRemove);
      if outcome.Fail? {
        PrefixOfConcat(removes, adds, done);
        return;
      }
      assert removes[..done] == removes;
      ghost var added;
      outcome, added := AddAll(toAdd);
      done := |removes| + added;
      ConcatPrefix(removes, adds, added);
    }

    /** `sync(confirm, remove)`: scans the root, looks up and names the playlist's tracks,
        plans the changes and carries them out. Whatever fails before the plan is carried
        out leaves the disk untouched. */
    method Sync(walk: seq<WalkStep>, userPlaylists: map<string, seq<string>>,
                songsOf: string -> seq<Track>, remove: bool)
      returns (outcome: Outcome<Error>, toAdd: seq<Entry>, toRemove: seq<Entry>, ghost done: nat)
      requires WalkOf(root, walk)
      modifies this, disk
      ensures var id := PlaylistId(userPlaylists, playlistName);
        && (id.Err? ==> outcome == Fail(id.error) && calls == old(calls)
                        && disk.files == old(disk.files) && disk.dirs == old(disk.dirs))
        && (id.Ok? && PlaylistTracks(root, songsOf(id.value)).Err? ==>
              && outcome == Fail(PlaylistTracks(root, songsOf(id.value)).error) && calls == old(calls)
              && disk.files == old(disk.files) && disk.dirs == old(disk.dirs))
      ensures var id := PlaylistId(userPlaylists, playlistName);
        id.Ok? && PlaylistTracks(root, songsOf(id.value)).Ok? ==>
          var local := DictOf(ScanTracks(walk));
          var playlist := DictOf(PlaylistTracks(root, songsOf(id.value)).value);
          && ListsExactly(toAdd, playlist, playlist.Keys - local.Keys)
          && ListsExactly(toRemove, local, if remove then local.Keys - playlist.Keys else {})
          && done <= |Planned(toRemove, toAdd)|
          && calls == old(calls) + Planned(toRemove, toAdd)[..done]
          && (outcome.Pass? ==> done == |Planned(toRemove, toAdd)|)
    {
      var scanned := GetLocalTracks(walk);
      var local := DictOf(scanned);
      toAdd, toRemove, done := [], [], 0;
      var id := PlaylistId(userPlaylists, playlistName);
      if id.Err? {
        return Fail(id.error), toAdd, toRemove, done;
      }
      var named := PlaylistTracks(root, songsOf(id.value));
      if named.Err? {
        return Fail(named.error), toAdd, toRemove, done;
      }
      var playlist := DictOf(named.value);
      toAdd, toRemove := ComputePlan(local, playlist, remove);
      forall i | 0 <= i < |toRemove|
        ensures UnderRoot(toRemove[i].1, root)
      {
        ScanPathUnderRoot(root, walk, toRemove[i].1);
      }
      outcome, done := Execute(toRemove, toAdd);
    }
  }

  // ---------------------------------------------------------------- properties

  lemma PrefixStep<T>(s: seq<T>, i: int)
    requires 0 <= i < |s|
    ensures s[..i + 1] == s[..i] + [s[i]]
  {
  }

  lemma PrefixOfConcat<T>(a: seq<T>, b: seq<T>, k: int)
    requires 0 <= k <= |a|
    ensures (a + b)[..k] == a[..k]
  {
  }

  lemma ConcatPrefix<T>(a: seq<T>, b: seq<T>, k: int)
    requires 0 <= k <= |b|
    ensures (a + b)[..|a| + k] == a + b[..k]
  {
  }

  lemma UpdateTwice<K, V>(m: map<K, V>, k: K, a: V, b: V)
    ensures m[k := a][k := b] == m[k := b]
  {
  }

  /** Every key of the scanned dictionary is a path below the root. */
  lemma ScanPathUnderRoot(root: string, walk: seq<WalkStep>, p: string)
    requires WalkOf(root, walk) && p in DictOf(ScanTracks(walk))
    ensures UnderRoot(p, root)
  {
    var scanned := ScanTracks(walk);
    DictOfKeys(scanned);
    var k :| 0 <= k < |scanned| && scanned[k].0 == p;
    ScanUnderRoot(root, walk, p, scanned[k].1);
  }

  /** The path the pruning loop of `remove_track` lists, `join(root, *dirs[0:1])`. */
  lemma PruneDirPath(root: string, file: string, dirs: seq<string>)
    requires UnderRoot(file, root) && dirs == [Split(RelPath(file, root)).0]
    ensures Canon(JoinAll(root, dirs[..1])) == Split(file).0
    ensures Canon(Split(file).0) == Split(file).0
  {
    var rel := RelPath(file, root);
    var h := Split(rel).0;
    assert dirs[..1] == [h];
    assert JoinAll(root, [h]) == JoinAll(Join(root, h), []);
    PruneCandidateIsParent(root, rel);
    SplitHeadCanonical(file);
  }

  /** The directory the track remover lists is the folder that held the file. */
  lemma PruneCandidateIsFileParent(root: string, file: string)
    requires UnderRoot(file, root)
    ensures Canon(PruneCandidate(root, file)) == Split(file).0
  {
    PruneCandidateIsParent(root, RelPath(file, root));
  }

  /** For a file directly under the root the folder the remover lists is the root itself:
      removing the last such file deletes the root when nothing else is in it. */
  lemma TopLevelFilePrunesRoot(root: string, f: string)
    requires f != [] && NoSlash(f)
    ensures UnderRoot(Base(root) + f, root)
    ensures Canon(PruneCandidate(root, Base(root) + f)) == Canon(root)
  {
    BaseThenNameUnderRoot(root, f);
    PruneCandidateIsFileParent(root, Base(root) + f);
    BareNameParent(root, f);
  }

  lemma BareNameParent(root: string, f: string)
    requires f != [] && NoSlash(f)
    ensures Split(Base(root) + f).0 == Canon(root)
  {
    assert RFind(f, '/') < 0;
    SplitBareBelowBase(Base(root), f);
    BaseIsRoot(root);
  }

  /** For a track stored as `root/artist/album/file`, the remover lists the album folder
      only; the artist folder above it is never pruned. */
  lemma TrackPrunesAlbumOnly(root: string, track: Track)
    requires Nameable(track)
    requires AlbumName(track) != [] && NoSlash(AlbumName(track)) && NoSlash(ArtistName(track))
    requires NoSlash(FileName(track))
    ensures var p := TrackFileName(root, track).value;
      && UnderRoot(p, root)
      && Canon(PruneCandidate(root, p)) == Split(p).0
      && Split(Split(p).0).1 == AlbumName(track)
      && Split(Split(Split(p).0).0) == (Canon(root), ArtistName(track))
  {
    var p := TrackFileName(root, track).value;
    FileNameShape(track);
    TrackPathUnderRoot(root, track);
    TrackPathSplitsBack(root, track);
    PruneCandidateIsFileParent(root, p);
  }

  /** When the plan comes from `ComputePlan`, no file is passed to two calls: each path is
      removed or added once at most. */
  lemma PlannedDistinct(toRemove: seq<Entry>, toAdd: seq<Entry>)
    requires forall i, j :: 0 <= i < j < |toRemove| ==> toRemove[i].1 != toRemove[j].1
    requires forall i, j :: 0 <= i < j < |toAdd| ==> toAdd[i].1 != toAdd[j].1
    requires Paths(toAdd) !! Paths(toRemove)
    ensures var calls := Planned(toRemove, toAdd);
      forall i, j :: 0 <= i < j < |calls| ==> calls[i].file != calls[j].file
  {
    var calls := Planned(toRemove, toAdd);
    var n := |toRemove|;
    forall i, j | 0 <= i < j < |calls|
      ensures calls[i].file != calls[j].file
    {
      if j < n {
        assert calls[i].file == toRemove[i].1 && calls[j].file == toRemove[j].1;
      } else if n <= i {
        assert calls[i].file == toAdd[i - n].1 && calls[j].file == toAdd[j - n].1;
      } else {
        assert calls[i].file == toRemove[i].1 && toRemove[i].1 in Paths(toRemove);
        assert calls[j].file == toAdd[j - n].1 && toAdd[j - n].1 in Paths(toAdd);
      }
    }
  }

  /** Every removal comes before every addition. */
  lemma PlannedRemovesFirst(toRemove: seq<Entry>, toAdd: seq<Entry>, i: int, j: int)
    requires 0 <= i < j < |Planned(toRemove, toAdd)|
    requires Planned(toRemove, toAdd)[j].RemoveTrackCall?
    ensures Planned(toRemove, toAdd)[i].RemoveTrackCall?
  {
    assert j < |toRemove|;
  }
}
