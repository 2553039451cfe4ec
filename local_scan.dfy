/**
  `PlaylistSync.get_local_tracks`: the `.mp3` files found by walking the sync root,
  each paired with an empty metadata dictionary (tags are not read back).
*/
module LocalScan {
  import opened Wrappers
  import opened Python
  import opened PosixPath
  import opened TrackNaming

  /** One directory `os.walk` visits: its path and the names of the files in it. */
  datatype WalkStep = WalkStep(dir: string, files: seq<string>)

  /** `os.path.splitext(f)[1].lower() == '.mp3'`. */
  predicate IsMp3Name(f: string) {
    Lower(Ext(f)) == ".mp3"
  }

  /** The entries for those of `files` that pass `keep`, each joined onto `dir` and paired
      with empty metadata, in listing order. */
  function Matching(dir: string, files: seq<string>, keep: string -> bool): seq<(string, Track)>
  {
    if files == [] then []
    else
      var f := files[|files| - 1];
      Matching(dir, files[..|files| - 1], keep) + (if keep(f) then [(Join(dir, f), map[])] else [])
  }

  /** What the scan yields for one directory, in listing order. */
  function DirTracks(dir: string, files: seq<string>): seq<(string, Track)>
  {
    Matching(dir, files, IsMp3Name)
  }

  /** The entries a whole walk yields under `keep`, in walk order. */
  function ScanMatching(walk: seq<WalkStep>, keep: string -> bool): seq<(string, Track)>
  {
    if walk == [] then []
    else ScanMatching(walk[..|walk| - 1], keep) + Matching(walk[|walk| - 1].dir, walk[|walk| - 1].files, keep)
  }

  /** What the scan yields for a whole walk, in walk order. */
  function ScanTracks(walk: seq<WalkStep>): seq<(string, Track)>
  {
    ScanMatching(walk, IsMp3Name)
  }

  /** `get_local_tracks`, given the result of `os.walk(root)`: the nested loop over the
      directories and their files. */
  method GetLocalTracks(walk: seq<WalkStep>) returns (tracks: seq<(string, Track)>)
    ensures tracks == ScanTracks(walk)
  {
    tracks := [];
    var i := 0;
    while i < |walk|
      invariant 0 <= i <= |walk|
      invariant tracks == ScanTracks(walk[..i])
    {
      var step := walk[i];
      var j := 0;
      while j < |step.files|
        invariant 0 <= j <= |step.files|
        invariant ScannedUpTo(walk, i, j, tracks)
      {
        var f := step.files[j];
        ScanStep(walk, i, j, tracks);
        if IsMp3Name(f) {
          tracks := tracks + [(Join(step.dir, f), map[])];
        }
        j := j + 1;
      }
      ScanDirDone(walk, i, tracks);
      i := i + 1;
    }
    assert walk[..|walk|] == walk;
  }

  /** The state of the nested loop: the directories before the `i`th, then the first `j`
      files of the `i`th. */
  ghost predicate ScannedUpTo(walk: seq<WalkStep>, i: int, j: int, tracks: seq<(string, Track)>)
    requires 0 <= i < |walk| && 0 <= j <= |walk[i].files|
  {
    tracks == ScanTracks(walk[..i]) + DirTracks(walk[i].dir, walk[i].files[..j])
  }

  lemma ScanStep(walk: seq<WalkStep>, i: int, j: int, tracks: seq<(string, Track)>)
    requires 0 <= i < |walk| && 0 <= j < |walk[i].files|
    requires ScannedUpTo(walk, i, j, tracks)
    ensures var f := walk[i].files[j];
      ScannedUpTo(walk, i, j + 1, tracks + if IsMp3Name(f) then [(Join(walk[i].dir, f), map[])] else [])
  {
    DirTracksStep(walk[i].dir, walk[i].files, j);
  }

  lemma ScanDirDone(walk: seq<WalkStep>, i: int, tracks: seq<(string, Track)>)
    requires 0 <= i < |walk| && ScannedUpTo(walk, i, |walk[i].files|, tracks)
    ensures tracks == ScanTracks(walk[..i + 1])
  {
    assert walk[i].files[..|walk[i].files|] == walk[i].files;
    ScanTracksStep(walk, i);
  }

  lemma DirTracksStep(dir: string, files: seq<string>, j: int)
    requires 0 <= j < |files|
    ensures DirTracks(dir, files[..j + 1])
            == DirTracks(dir, files[..j]) + (if IsMp3Name(files[j]) then [(Join(dir, files[j]), map[])] else [])
  {
    MatchingStep(dir, files, IsMp3Name, j);
  }

  lemma MatchingStep(dir: string, files: seq<string>, keep: string -> bool, j: int)
    requires 0 <= j < |files|
    ensures Matching(dir, files[..j + 1], keep)
            == Matching(dir, files[..j], keep) + (if keep(files[j]) then [(Join(dir, files[j]), map[])] else [])
  {
    assert files[..j + 1][..j] == files[..j];
  }

  lemma ScanTracksStep(walk: seq<WalkStep>, i: int)
    requires 0 <= i < |walk|
    ensures ScanTracks(walk[..i + 1]) == ScanTracks(walk[..i]) + DirTracks(walk[i].dir, walk[i].files)
  {
    ScanMatchingStep(walk, IsMp3Name, i);
  }

  lemma ScanMatchingStep(walk: seq<WalkStep>, keep: string -> bool, i: int)
    requires 0 <= i < |walk|
    ensures ScanMatching(walk[..i + 1], keep) == ScanMatching(walk[..i], keep) + Matching(walk[i].dir, walk[i].files, keep)
  {
    assert walk[..i + 1][..i] == walk[..i];
  }

  // ---------------------------------------------------------------- properties

  /** `files[j]` passes `keep` and its path in `dir` is `p`. */
  predicate YieldsAt(dir: string, files: seq<string>, keep: string -> bool, j: int, p: string) {
    0 <= j < |files| && keep(files[j]) && p == Join(dir, files[j])
  }

  lemma {:induction false} MatchingSound(dir: string, files: seq<string>, keep: string -> bool, p: string, t: Track)
    requires (p, t) in Matching(dir, files, keep)
    ensures t == map[] && exists j :: YieldsAt(dir, files, keep, j, p)
  {
    var n := |files| - 1;
    var init := files[..n];
    if (p, t) in Matching(dir, init, keep) {
      MatchingSound(dir, init, keep, p, t);
      var j :| YieldsAt(dir, init, keep, j, p);
      assert init[j] == files[j];
      assert YieldsAt(dir, files, keep, j, p);
    } else {
      assert YieldsAt(dir, files, keep, n, p);
    }
  }

  lemma {:induction false} MatchingComplete(dir: string, files: seq<string>, keep: string -> bool, j: int, p: string)
    requires YieldsAt(dir, files, keep, j, p)
    ensures (p, map[]) in Matching(dir, files, keep)
  {
    var n := |files| - 1;
    var init := files[..n];
    if j < n {
      assert init[j] == files[j];
      MatchingComplete(dir, init, keep, j, p);
    }
  }

  lemma MatchingMembers(dir: string, files: seq<string>, keep: string -> bool, p: string, t: Track)
    ensures (p, t) in Matching(dir, files, keep) <==> t == map[] && exists j :: YieldsAt(dir, files, keep, j, p)
  {
    if (p, t) in Matching(dir, files, keep) {
      MatchingSound(dir, files, keep, p, t);
    }
    if t == map[] && exists j :: YieldsAt(dir, files, keep, j, p) {
      var j :| YieldsAt(dir, files, keep, j, p);
      MatchingComplete(dir, files, keep, j, p);
    }
  }

  /** The scan yields exactly the files of the walk that pass the filter, joined to their
      directory, each with empty metadata. */
  lemma {:induction false} ScanMatchingMembers(walk: seq<WalkStep>, keep: string -> bool, p: string, t: Track)
    ensures (p, t) in ScanMatching(walk, keep) <==>
            t == map[] && exists i, j :: 0 <= i < |walk| && YieldsAt(walk[i].dir, walk[i].files, keep, j, p)
  {
    if (p, t) in ScanMatching(walk, keep) {
      ScanMatchingSound(walk, keep, p, t);
    }
    if t == map[] && exists i, j :: 0 <= i < |walk| && YieldsAt(walk[i].dir, walk[i].files, keep, j, p) {
      var i, j :| 0 <= i < |walk| && YieldsAt(walk[i].dir, walk[i].files, keep, j, p);
      ScanMatchingComplete(walk, keep, i, j, p);
    }
  }

  lemma {:induction false} ScanMatchingSound(walk: seq<WalkStep>, keep: string -> bool, p: string, t: Track)
    requires (p, t) in ScanMatching(walk, keep)
    ensures t == map[] && exists i, j :: 0 <= i < |walk| && YieldsAt(walk[i].dir, walk[i].files, keep, j, p)
  {
    var n := |walk| - 1;
    var init := walk[..n];
    if (p, t) in ScanMatching(init, keep) {
      ScanMatchingSound(init, keep, p, t);
      var i, j :| 0 <= i < |init| && YieldsAt(init[i].dir, init[i].files, keep, j, p);
      assert init[i] == walk[i];
      assert 0 <= i < |walk| && YieldsAt(walk[i].dir, walk[i].files, keep, j, p);
    } else {
      MatchingSound(walk[n].dir, walk[n].files, keep, p, t);
      var j :| YieldsAt(walk[n].dir, walk[n].files, keep, j, p);
      assert 0 <= n < |walk| && YieldsAt(walk[n].dir, walk[n].files, keep, j, p);
    }
  }

  lemma {:induction false} ScanMatchingComplete(walk: seq<WalkStep>, keep: string -> bool, i: int, j: int, p: string)
    requires 0 <= i < |walk| && YieldsAt(walk[i].dir, walk[i].files, keep, j, p)
    ensures (p, map[]) in ScanMatching(walk, keep)
  {
    var n := |walk| - 1;
    var init := walk[..n];
    if i < n {
      assert init[i] == walk[i];
      ScanMatchingComplete(init, keep, i, j, p);
    } else {
      MatchingComplete(walk[n].dir, walk[n].files, keep, j, p);
    }
  }

  /** A walk of `root` as `os.walk` reports it: every directory is the root or a path below
      it without a trailing separator, and every file name is a non-empty name without one. */
  predicate WalkOf(root: string, walk: seq<WalkStep>) {
    forall i :: 0 <= i < |walk| ==>
      && (walk[i].dir == root || (UnderRoot(walk[i].dir, root) && walk[i].dir[|walk[i].dir| - 1] != '/'))
      && forall j :: 0 <= j < |walk[i].files| ==> walk[i].files[j] != [] && NoSlash(walk[i].files[j])
  }

  /** Every path the scan of a walk of `root` yields lies below `root`, as the track remover
      expects of the paths it is given. */
  lemma ScanUnderRoot(root: string, walk: seq<WalkStep>, p: string, t: Track)
    requires WalkOf(root, walk)
    requires (p, t) in ScanTracks(walk)
    ensures UnderRoot(p, root)
  {
    ScanMatchingMembers(walk, IsMp3Name, p, t);
    var i, j :| 0 <= i < |walk| && YieldsAt(walk[i].dir, walk[i].files, IsMp3Name, j, p);
    JoinUnderRoot(root, walk[i].dir, walk[i].files[j]);
  }

  /** A file name joined onto the root or a directory below it lies below the root. */
  lemma JoinUnderRoot(root: string, d: string, f: string)
    requires d == root || (UnderRoot(d, root) && d[|d| - 1] != '/')
    requires f != [] && NoSlash(f)
    ensures UnderRoot(Join(d, f), root)
  {
    var p := Join(d, f);
    var b := Base(root);
    assert f[0] != '/';
    if d == root {
      JoinOntoBase(root, f);
      assert p[..|b|] == b;
    } else {
      assert p == d + "/" + f;
      assert p[..|d|] == d;
      assert p[..|b|] == d[..|b|];
    }
  }

  /** A separator-free segment followed by ".mp3" passes the filter exactly when the
      segment is neither empty nor made of dots alone. */
  lemma Mp3SegmentIff(seg: string)
    requires NoSlash(seg)
    ensures IsMp3Name(seg + ".mp3") <==> !AllDots(seg)
  {
    AllDotsSpec(seg);
    if AllDots(seg) {
      DotsStemHasNoExt(seg, ".mp3");
      assert Lower("") == "";
    } else {
      ExtOfSuffix(seg, ".mp3");
      assert Lower(".mp3") == ".mp3";
    }
  }

  /** The last component of a track's file name passes the filter exactly when what
      follows the last '/' of its stem is neither empty nor dots alone. */
  lemma FileNameIsMp3(track: Track)
    requires "disc" in track && "track" in track && IsInteger(track["track"]) && "name" in track
    ensures IsMp3Name(Split(FileName(track)).1) <==> !AllDots(Split(FileStem(track)).1)
  {
    var stem := FileStem(track);
    SplitTailExtend(stem, ".mp3");
    SplitTailNoSlash(stem);
    Mp3SegmentIff(Split(stem).1);
  }

  /** A track whose name holds no '/' is stored under a name that passes the filter: the
      last component then holds the space before the name. */
  lemma PlainNameIsMp3(track: Track)
    requires "disc" in track && "track" in track && IsInteger(track["track"]) && "name" in track
    requires NoSlash(Str(track["name"]))
    ensures IsMp3Name(Split(FileName(track)).1)
  {
    var prefix := Str(track["disc"]) + "-" + Pad2(IntValue(track["track"])) + " ";
    var n := Str(track["name"]);
    assert FileStem(track) == prefix + n;
    SplitTailExtend(prefix, n);
    var i := RFind(prefix, '/') + 1;
    assert prefix[|prefix| - 1] == ' ';
    var seg := prefix[i..];
    assert seg[|seg| - 1] == ' ';
    AllDotsSpec(seg + n);
    assert (seg + n)[|seg| - 1] == ' ';
    FileNameIsMp3(track);
  }

  /** The last component of a track's path is that of its file name, so it passes the
      filter, and the next scan finds the downloaded track, exactly when `FileNameIsMp3`
      says so. */
  lemma TrackFileNamePassesScan(root: string, track: Track)
    requires Nameable(track)
    ensures IsMp3Name(Split(TrackFileName(root, track).value).1) <==> !AllDots(Split(FileStem(track)).1)
  {
    var a, l, f := ArtistName(track), AlbumName(track), FileName(track);
    JoinAllThree(root, a, l, f);
    SplitJoinTail(Join(Join(root, a), l), f);
    FileNameIsMp3(track);
  }

  /** A name ending in '/' stores the track as a bare ".mp3" in a folder of that name,
      which the scan skips: every sync downloads such a track again. */
  lemma SlashEndedNameSkipped(root: string, track: Track)
    requires Nameable(track)
    requires var n := Str(track["name"]); |n| > 0 && n[|n| - 1] == '/'
    ensures !IsMp3Name(Split(TrackFileName(root, track).value).1)
  {
    var stem := FileStem(track);
    assert stem[|stem| - 1] == '/';
    assert RFind(stem, '/') == |stem| - 1;
    assert Split(stem).1 == [];
    TrackFileNamePassesScan(root, track);
  }

  /** A name made of a stem and an extension passes the filter exactly when the extension,
      lower-cased, is ".mp3". */
  lemma Mp3NameOfSuffix(stem: string, ext: string)
    requires NoSlash(stem) && exists k :: 0 <= k < |stem| && stem[k] != '.'
    requires |ext| >= 1 && ext[0] == '.' && forall k :: 1 <= k < |ext| ==> ext[k] != '.' && ext[k] != '/'
    ensures IsMp3Name(stem + ext) <==> Lower(ext) == ".mp3"
  {
    ExtOfSuffix(stem, ext);
  }

  /** The filter ignores the case of the extension. */
  lemma UpperCaseMp3Passes()
    ensures IsMp3Name("01 Song.MP3")
  {
    SongMp3Parts();
    Mp3NameOfSuffix("01 Song", ".MP3");
  }

  lemma SongMp3Parts()
    ensures "01 Song.MP3" == "01 Song" + ".MP3"
    ensures Lower(".MP3") == ".mp3"
    ensures "01 Song"[0] != '.'
  {
  }

  /** A name made only of the extension (a hidden file) has no extension and is skipped. */
  lemma HiddenMp3Skipped()
    ensures !IsMp3Name(".mp3")
  {
    RFindFinds(".mp3", '.', 0);
    RFindLast(".mp3", '.');
    assert RFind(".mp3", '.') == 0;
  }

  /** Files with other extensions are skipped. */
  lemma OtherExtensionSkipped()
    ensures !IsMp3Name("cover.jpg")
  {
    CoverJpgParts();
    Mp3NameOfSuffix("cover", ".jpg");
  }

  lemma CoverJpgParts()
    ensures "cover.jpg" == "cover" + ".jpg"
    ensures Lower(".jpg") == ".jpg"
    ensures "cover"[0] != '.'
  {
  }
}
