/**
  The canonical local path of a playlist track:
  `<root>/<albumArtist or 'Various'>/<album>/<disc>-<track:02d> <name>.mp3`.
*/
module TrackNaming {
  import opened Wrappers
  import opened Python
  import opened PosixPath

  /** `escape_path`: no character is escaped or folded. */
  function EscapePath(path: string): string {
    path
  }

  /** The artist folder: the album artist, or 'Various' when it is falsy (empty, None, 0). */
  function ArtistFolder(albumArtist: Value): Value {
    if !Truthy(albumArtist) then Text("Various") else albumArtist
  }

  /** The fields `track_file_name` reads, in the order it reads them, with the types the
      `02d` format and `os.path.join` accept. */
  predicate Nameable(track: Track) {
    && "albumArtist" in track
    && "disc" in track
    && "track" in track && IsInteger(track["track"])
    && "name" in track
    && "album" in track
    && ArtistFolder(track["albumArtist"]).Text?
    && track["album"].Text?
  }

  /** The file name without its extension: `{disc}-{track:02d} {name}`. */
  function FileStem(track: Track): string
    requires "disc" in track && "track" in track && IsInteger(track["track"]) && "name" in track
  {
    Str(track["disc"]) + "-" + Pad2(IntValue(track["track"])) + " " + Str(track["name"])
  }

  /** The file name: `u'{disc}-{track:02d} {name}.mp3'.format(**track)`. */
  function FileName(track: Track): string
    requires "disc" in track && "track" in track && IsInteger(track["track"]) && "name" in track
  {
    FileStem(track) + ".mp3"
  }

  /** `PlaylistSync.track_file_name`: the path a track is stored at below `root`, or the
      exception that computing it raises. */
  function TrackFileName(root: string, track: Track): (r: Result<string, Error>)
    ensures r.Ok? <==> Nameable(track)
    ensures "albumArtist" !in track ==> r == Err(KeyError("albumArtist"))
    ensures r.Err? && "albumArtist" in track && "disc" in track && "track" in track
            && IsInteger(track["track"]) && "name" in track && "album" in track
            ==> r == Err(AttributeError)
  {
    if "albumArtist" !in track then Err(KeyError("albumArtist"))
    else
      var artist := ArtistFolder(track["albumArtist"]);
      if "disc" !in track then Err(KeyError("disc"))
      else if "track" !in track then Err(KeyError("track"))
      else if !IsInteger(track["track"]) then Err(ValueError)
      else if "name" !in track then Err(KeyError("name"))
      else
        var fileName := EscapePath(FileName(track));
        if "album" !in track then Err(KeyError("album"))
        else if !artist.Text? || !track["album"].Text? then Err(AttributeError)
        else Ok(JoinAll(root, [EscapePath(artist.s), EscapePath(track["album"].s), fileName]))
  }

  /** The components a nameable track's path is built from. */
  function ArtistName(track: Track): string
    requires Nameable(track)
  {
    ArtistFolder(track["albumArtist"]).s
  }

  function AlbumName(track: Track): string
    requires Nameable(track)
  {
    track["album"].s
  }

  // ---------------------------------------------------------------- lemmas

  /** The artist folder is exactly 'Various' for a falsy album artist and the album artist
      itself, unescaped, otherwise; it is never empty. */
  lemma ArtistFolderSpec(track: Track)
    requires Nameable(track)
    ensures !Truthy(track["albumArtist"]) ==> ArtistName(track) == "Various"
    ensures Truthy(track["albumArtist"]) ==> ArtistName(track) == track["albumArtist"].s
    ensures ArtistName(track) != []
  {
  }

  /** A non-empty component without separators leaves `join`'s result in canonical form. */
  lemma JoinCanonical(d: string, x: string)
    requires x != [] && NoSlash(x)
    ensures Canon(Join(d, x)) == Join(d, x)
  {
    var p := Join(d, x);
    assert p[|p| - 1] == x[|x| - 1];
  }

  /** The file name ends in ".mp3", starts with the disc, and renders the track number as
      `Pad2` does (at least two characters). */
  lemma FileNameShape(track: Track)
    requires "disc" in track && "track" in track && IsInteger(track["track"]) && "name" in track
    ensures var f := FileName(track); |f| >= 4 && f[|f| - 4..] == ".mp3"
    ensures FileName(track)[..|Str(track["disc"])| + 1] == Str(track["disc"]) + "-"
    ensures |Pad2(IntValue(track["track"]))| >= 2
  {
    Pad2Spec(IntValue(track["track"]));
    var f := FileName(track);
    var stem := FileStem(track);
    assert f[|f| - 4..] == ".mp3";
    assert f[..|Str(track["disc"])| + 1] == Str(track["disc"]) + "-";
  }

  /** The path splits back into the root, the artist folder, the album and the file name
      when none of the last three holds a separator and the album is not empty: the path is
      root / artist / album / file. */
  lemma TrackPathSplitsBack(root: string, track: Track)
    requires Nameable(track)
    requires AlbumName(track) != [] && NoSlash(AlbumName(track)) && NoSlash(ArtistName(track))
    requires NoSlash(FileName(track))
    ensures var p := TrackFileName(root, track).value;
      && Split(p).1 == FileName(track)
      && Split(Split(p).0).1 == AlbumName(track)
      && Split(Split(Split(p).0).0) == (Canon(root), ArtistName(track))
  {
    var a, l, f := ArtistName(track), AlbumName(track), FileName(track);
    FileNameShape(track);
    var d1 := Join(root, a);
    var d2 := Join(d1, l);
    JoinAllThree(root, a, l, f);
    assert TrackFileName(root, track).value == Join(d2, f);
    SplitJoin(d2, f);
    JoinCanonical(d1, l);
    SplitJoin(d1, l);
    JoinCanonical(root, a);
    SplitJoin(root, a);
  }

  /** The path is the root's prefix followed by `artist/album/file` whenever the album is
      non-empty, no component starts with '/', and neither folder ends in '/' (separators
      inside them, as in "AC/DC", are allowed). */
  lemma TrackPathShape(root: string, track: Track)
    requires Nameable(track)
    requires AlbumName(track) != []
    requires !IsAbs(ArtistName(track)) && !IsAbs(AlbumName(track)) && !IsAbs(FileName(track))
    requires ArtistName(track)[|ArtistName(track)| - 1] != '/'
    requires AlbumName(track)[|AlbumName(track)| - 1] != '/'
    ensures TrackFileName(root, track).value
            == Base(root) + ArtistName(track) + "/" + AlbumName(track) + "/" + FileName(track)
  {
    ArtistFolderSpec(track);
    JoinThreeShape(root, ArtistName(track), AlbumName(track), FileName(track));
  }

  /** "AC/DC" keeps its separator: the artist folder is two folders deep. */
  lemma SlashInArtistKept()
    ensures var track := map["albumArtist" := Text("AC/DC"), "disc" := Int(1), "track" := Int(1),
                             "name" := Text("Hells Bells"), "album" := Text("Back in Black")];
      TrackFileName("music", track).value
      == Base("music") + "AC/DC" + "/" + "Back in Black" + "/" + FileName(track)
  {
    var track := map["albumArtist" := Text("AC/DC"), "disc" := Int(1), "track" := Int(1),
                     "name" := Text("Hells Bells"), "album" := Text("Back in Black")];
    assert ArtistName(track) == "AC/DC" && AlbumName(track) == "Back in Black";
    assert FileName(track)[0] == Str(Int(1))[0];
    TrackPathShape("music", track);
  }

  /** A track's path lies below the root as long as none of its components is absolute:
      the root's prefix, then the artist folder, whose first character is not a
      separator. */
  lemma TrackPathUnderRoot(root: string, track: Track)
    requires Nameable(track)
    requires !IsAbs(ArtistName(track)) && !IsAbs(AlbumName(track)) && !IsAbs(FileName(track))
    ensures UnderRoot(TrackFileName(root, track).value, root)
  {
    ArtistFolderSpec(track);
    JoinThreeUnderRoot(root, ArtistName(track), AlbumName(track), FileName(track));
  }

  /** An absolute album artist, album or file name discards what `join` built before it:
      the path is the same whatever the root, so the file is written outside the sync
      folder. */
  lemma AbsoluteComponentDiscardsRoot(root1: string, root2: string, track: Track)
    requires Nameable(track)
    requires IsAbs(ArtistName(track)) || IsAbs(AlbumName(track)) || IsAbs(FileName(track))
    ensures TrackFileName(root1, track) == TrackFileName(root2, track)
  {
    var a, l, f := ArtistName(track), AlbumName(track), FileName(track);
    JoinAllThree(root1, a, l, f);
    JoinAllThree(root2, a, l, f);
    if !IsAbs(f) && !IsAbs(l) {
      assert Join(root1, a) == a == Join(root2, a);
    }
  }
}
