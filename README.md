# gmusic-sync core, modelled in Dafny

`sync-playlist.py` mirrors a cloud-music playlist into a folder tree. Each track lives at
`<root>/<album artist or 'Various'>/<album>/<disc>-<track:02d> <name>.mp3`. A run does four
things in order:

1. It scans the root for `.mp3` files.
2. It looks up the playlist and names each of its tracks.
3. It compares the two dictionaries keyed by path.
4. It removes the local files the playlist no longer holds, then downloads the missing
   tracks and writes their ID3 tags.

This project models the deterministic part of that run and proves what it does.

The modules follow the parts of the script:

| module (file) | models |
|---|---|
| `Python` (`python.dfy`) | the values a track dictionary holds, `str()`, truthiness, `==`, `'{:02d}'`, `str.lower()`, the exceptions raised |
| `PosixPath` (`posix_path.dfy`) | Python 2 `posixpath.join`, `split`, `splitext`, `relpath` for paths below the root |
| `FindDict` (`find_dict.dfy`) | `find_dict` |
| `TrackNaming` (`track_naming.dfy`) | `escape_path`, `PlaylistSync.track_file_name` |
| `TagMap` (`tag_map.dfy`) | the field-to-tag table and loop of `_copy_track_metadata` |
| `LocalScan` (`local_scan.dfy`) | `get_local_tracks`, given the result of `os.walk` |
| `Reconcile` (`reconcile.dfy`) | `dict(...)` of the two inventories, and the loops of `sync` that build `to_add` and `to_remove` |
| `Disk` (`filesystem.dfy`) | the filesystem below the root as a class holding a file map and a directory set, with the `os` calls the script makes |
| `SyncPlaylist` (`playlist_sync.dfy`) | `get_playlist_tracks`' id lookup and naming, and the class `PlaylistSync` with `remove_track`, `add_track` and `sync` |

Modelling choices:

- A track record is a `map<string, Value>`.
- An exception is an `Err`/`Fail` value that ends the operation, exactly where the script
  would raise.
- Dictionary iteration order is unspecified in Python 2. The loops that walk a dictionary
  pick the next key with `:|`, so every proof holds for any order.
- `PlaylistSync` keeps a ghost log `calls` of the `remove_track` and `add_track` calls made
  so far. The contracts of `sync` state the order of those calls.

## Model

| member | source | states |
|---|---|---|
| Python.DecimalRoundTrip | sync-playlist.py:56 | `str()` of an integer field reads back as that integer: the decimal text is faithful |
| Python.Pad2Spec | sync-playlist.py:86 | `{track:02d}` is at least two characters; a non-negative number is all digits and denotes the number; one below 10 gets a leading '0'; others are the plain decimal text |
| Python.LowerSpec | sync-playlist.py:94 | `lower()` keeps the length and maps each character on its own (ASCII letters to lower case, the rest unchanged) |
| Python.NatDigits | sync-playlist.py:56 | the decimal digits of a natural number: non-empty, all digits, two or more exactly when the number is at least 10 |
| PosixPath.RelPath | sync-playlist.py:132 | `relpath(file, root)` of a path below the root is non-empty, does not start with '/', and re-joined to the root's prefix gives the path back |
| PosixPath.SplitJoin | sync-playlist.py:95 | `split(join(d, f))` gives back `d` (up to trailing separators) and `f`, for a separator-free name `f` |
| PosixPath.PruneCandidateIsParent | sync-playlist.py:132-135 | `join(root, split(rel)[0])` names the directory holding `root`'s prefix + `rel`, the file's own parent |
| PosixPath.BaseIsRoot | sync-playlist.py:135 | `join(root, '')` names the root directory itself |
| PosixPath.ExtOfSuffix | sync-playlist.py:94 | `splitext(stem + ext)[1]` is `ext` when the stem has no separator and is not all dots, and `ext` is one '.' followed by neither '.' nor '/' |
| PosixPath.DotsStemHasNoExt | sync-playlist.py:94 | `splitext` finds no extension in a separator-free name made of dots (or nothing) followed by `.ext` |
| PosixPath.SplitJoinTail | sync-playlist.py:87-94 | the last component of `join(d, f)` is the last component of `f` |
| PosixPath.SplitTailExtend | sync-playlist.py:86 | appending separator-free text to a path extends its last component by that text |
| PosixPath.SplitCanon | sync-playlist.py:121 | a path with a non-empty last component is its own canonical form; otherwise `split`'s head is that form |
| PosixPath.AllDotsSpec | sync-playlist.py:94 | the leading-dots test of `splitext` holds exactly when every character is '.' |
| PosixPath.BaseThenNameUnderRoot | sync-playlist.py:87 | the root's prefix followed by a name that does not start with '/' is a path below the root |
| FindDict.FindDict | sync-playlist.py:10-15 | None exactly when no item has any criteria key with an equal value; otherwise the first such item in list order |
| FindDict.FindDictNoCriteria | sync-playlist.py:10-15 | with empty criteria nothing ever matches: the result is None for every list |
| FindDict.FindDictPrefix | sync-playlist.py:10-15 | appending items after a match does not change the result (the search stops at the first match) |
| TrackNaming.TrackFileName | sync-playlist.py:82-87 | a path is returned exactly when the record has every field the format and `join` need, with the right types; a missing `albumArtist` raises KeyError; a non-text artist folder or album raises AttributeError |
| TrackNaming.ArtistFolderSpec | sync-playlist.py:83-85 | the artist folder is exactly 'Various' for a falsy album artist and the album artist unchanged otherwise (no escaping); it is never empty |
| TrackNaming.FileNameShape | sync-playlist.py:86 | the file name starts with `<disc>-` (the disc prefix is always written) and ends in `.mp3`, and the padded track number has at least two characters |
| TrackNaming.TrackPathSplitsBack | sync-playlist.py:87 | the path splits back into the file name, the album, the artist folder and the root: it is `root/artist/album/file` |
| TrackNaming.TrackPathShape | sync-playlist.py:86-87 | the path is the root's prefix followed by `artist/album/file` whenever the album is non-empty, no component starts with '/', and neither folder ends in '/'; separators inside them, as in "AC/DC", are allowed |
| TrackNaming.SlashInArtistKept | sync-playlist.py:86-87 | album artist "AC/DC" on root `music` gives `music/AC/DC/Back in Black/<file>`: the separator is kept |
| PosixPath.JoinThreeShape | sync-playlist.py:87 | `join(root, a, l, f)` is the root's prefix then `a/l/f` when `a`, `l` are non-empty, do not end in '/', and no component is absolute |
| TrackNaming.TrackPathUnderRoot | sync-playlist.py:87 | a track's path lies below the root whenever neither the artist folder, the album nor the file name starts with '/' (separators inside them are allowed) |
| TrackNaming.AbsoluteComponentDiscardsRoot | sync-playlist.py:87 | when the artist folder, the album or the file name starts with '/', `join` discards the root: the path is the same for every root, so the file is written outside the sync folder |
| PosixPath.JoinThreeUnderRoot | sync-playlist.py:87 | `join(root, a, l, f)` with `a` non-empty and no component absolute lies below the root |
| PosixPath.JoinExtends | sync-playlist.py:87 | `join(a, x)` with `x` not absolute starts with `a` |
| TrackNaming.JoinCanonical | sync-playlist.py:87 | joining a separator-free component gives a path without a trailing separator |
| TagMap.TagTablesInverse | sync-playlist.py:45-54 | the table maps distinct fields to distinct tags, so the order in which it is walked does not change the tags written |
| TagMap.FieldText | sync-playlist.py:55-62 | the text one pass writes is `str()` of the field, with "/" and the total appended for `track` and `disc`; a missing total raises KeyError, one of the errors the track can raise |
| TagMap.CopyTrackMetadata | sync-playlist.py:42-63 | the loop, in any order, succeeds exactly when no numbered field lacks its total, and then yields `TrackTags(track)`; otherwise it raises one of those KeyErrors |
| TagMap.TrackTagsSpec | sync-playlist.py:45-63 | a tag is written exactly when its field is in the track; `tracknumber` and `discnumber` are "n/total", every other tag is `str()` of the field |
| TagMap.TrackTagsKeys | sync-playlist.py:45-54 | only the table's eight tags are ever written |
| TagMap.TagErrorsSpec | sync-playlist.py:59-62 | the errors the copy can raise are exactly those some field of the table raises |
| TagMap.NoTagErrors | sync-playlist.py:59-62 | a track that raises nothing has a value for every field of the table it holds |
| TagMap.CopyStep | sync-playlist.py:55-63 | one pass of the loop keeps its invariant: the tags of the fields walked so far |
| TagMap.CopyDone | sync-playlist.py:63-64 | when the loop ends without raising, the tags are `TrackTags(track)` and the track raises nothing |
| LocalScan.GetLocalTracks | sync-playlist.py:89-104 | the nested loop yields `ScanTracks(walk)`: the `.mp3` files in walk order |
| LocalScan.MatchingMembers | sync-playlist.py:93-104 | a directory yields exactly its files that pass the filter, each joined to the directory and paired with `{}` |
| LocalScan.ScanMatchingMembers | sync-playlist.py:92-104 | the whole walk yields exactly the files of any directory that pass the filter, joined to their directory, each with empty metadata |
| LocalScan.ScanUnderRoot | sync-playlist.py:92-95 | every path the scan of a walk of the root yields lies below the root |
| LocalScan.Mp3NameOfSuffix | sync-playlist.py:94 | `stem + ext` passes the filter exactly when `ext.lower()` is `.mp3` |
| LocalScan.Mp3SegmentIff | sync-playlist.py:94 | a separator-free segment followed by `.mp3` passes the filter exactly when the segment is neither empty nor dots alone |
| LocalScan.FileNameIsMp3 | sync-playlist.py:82-94 | the last component of the file name `track_file_name` builds passes the `.mp3` filter exactly when what follows the last '/' of `{disc}-{track:02d} {name}` is neither empty nor dots alone |
| LocalScan.PlainNameIsMp3 | sync-playlist.py:82-94 | for a track whose name holds no '/', that last component always passes the filter |
| LocalScan.TrackFileNamePassesScan | sync-playlist.py:82-94 | the last component of a track's whole path passes the filter, so the next scan can find the downloaded track, exactly when `FileNameIsMp3`'s condition holds |
| LocalScan.SlashEndedNameSkipped | sync-playlist.py:82-94 | a track whose name ends in '/' is stored as a bare `.mp3` that the scan skips, so every sync downloads it again |
| LocalScan.UpperCaseMp3Passes | sync-playlist.py:94 | the filter ignores case: `01 Song.MP3` passes |
| LocalScan.HiddenMp3Skipped | sync-playlist.py:94 | a name that is only the extension, `.mp3`, has no extension and is skipped |
| LocalScan.OtherExtensionSkipped | sync-playlist.py:94 | `cover.jpg` is skipped |
| LocalScan.ScanStep | sync-playlist.py:93-104 | one pass of the inner loop keeps the loop state: the earlier directories, then the files of this one seen so far |
| LocalScan.ScanDirDone | sync-playlist.py:92-104 | finishing a directory's files extends the scan by that directory |
| Reconcile.DictOfKeys | sync-playlist.py:141-142 | `dict(pairs)` holds exactly the keys of the pairs |
| Reconcile.DictOfLast | sync-playlist.py:141-142 | a key is bound to the value of its last occurrence: for duplicate paths the last track wins |
| Reconcile.EntriesMissingFrom | sync-playlist.py:147-149 | the loop lists each key of `d` missing from `other` exactly once, with its value in `d`, and nothing else |
| Reconcile.ComputePlan | sync-playlist.py:144-154 | `to_add` lists exactly the playlist paths not local; `to_remove` lists exactly the local paths not in the playlist when `remove` is set and nothing otherwise; no path is in both; equal key sets give two empty lists |
| Reconcile.AppendEntry | sync-playlist.py:149 | appending a missing key's entry keeps each listed key listed once |
| Reconcile.ListsNothing | sync-playlist.py:144-154 | a list that names no keys is empty |
| Disk.RootListsNotItself | sync-playlist.py:136 | the directory "/" is not an entry of its own listing |
| Disk.ListingEmpty | sync-playlist.py:136 | `os.listdir(d)` is empty exactly when no file or directory has `d` as its parent |
| Disk.Mkdir | sync-playlist.py:121 | `os.mkdir` raises OSError on an empty or existing name and when the parent is missing or is a regular file, and otherwise adds exactly that directory |
| Disk.MakeDirsSpec | sync-playlist.py:121 | `os.makedirs` never removes a directory, raises only OSError, and on success `name` is a directory (unless its last component is '.') |
| Disk.MadeFolderIsParent | sync-playlist.py:120-124 | after `makedirs(dirname(file))` succeeds, the file's parent is a directory, so `open` can create the file |
| Disk.FileInTheWay | sync-playlist.py:120-121 | with a regular file at `r/A`, `makedirs('r/A/B')` raises OSError |
| Disk.FileSystem.Remove | sync-playlist.py:131 | `os.remove` deletes exactly the file and fails when there is no file there |
| Disk.FileSystem.ListDir | sync-playlist.py:136 | `os.listdir` gives the entries whose parent is the directory (never the directory "/" itself), and fails when it is not a directory |
| Disk.FileSystem.RemoveDir | sync-playlist.py:137 | deleting a directory removes exactly it |
| Disk.FileSystem.MakeDirs | sync-playlist.py:121 | the directories become those `MakeDirsSpec` gives, or stay unchanged on failure |
| Disk.FileSystem.WriteFile | sync-playlist.py:124-125 | `open(p, 'wb')` creates or truncates the file, and raises IOError on a directory and when the parent is missing or is a regular file |
| Disk.FileSystem.SaveTags | sync-playlist.py:64 | `mp3.save` replaces the file's tags |
| SyncPlaylist.PlaylistId | sync-playlist.py:109-113 | a missing playlist raises "not found"; a playlist without exactly one id fails the one-element unpack; otherwise the id is its only entry |
| SyncPlaylist.NamePairsOk | sync-playlist.py:115-116 | the pairs are produced exactly when every track is named |
| SyncPlaylist.NamePairsValues | sync-playlist.py:115-116 | then there is one pair per track, in order: its name and the track |
| SyncPlaylist.NamePairsFirstError | sync-playlist.py:115-116 | otherwise the error is that of the first track that cannot be named |
| SyncPlaylist.PlaylistTracksOk | sync-playlist.py:115-116 | the playlist's pairs are produced exactly when every track is nameable |
| SyncPlaylist.PlaylistTracksValues | sync-playlist.py:115-116 | then each pair is the track's path and the track, in playlist order |
| SyncPlaylist.PlaylistTracksFirstError | sync-playlist.py:115-116 | otherwise the run fails with the naming error of the first unnameable track |
| SyncPlaylist.PlaylistSync.RemoveTrack | sync-playlist.py:128-137 | the file is deleted (OSError if absent); then only the file's own folder is listed, and it is deleted exactly when nothing is left in it (OSError if it is not a directory); nothing else changes |
| SyncPlaylist.PlaylistSync.AddTrack | sync-playlist.py:118-126 | the folder is created when missing; a missing `id` raises KeyError; the file is written (IOError on a directory, or when its parent is not a directory, as when a regular file sits at the folder's path) and then holds `TrackTags(track)`, or stays empty when a total is missing |
| SyncPlaylist.PlaylistSync.RemoveEntry | sync-playlist.py:171 | one pass of the removal loop makes one `remove_track` call |
| SyncPlaylist.PlaylistSync.AddEntry | sync-playlist.py:174 | one pass of the addition loop makes one `add_track` call |
| SyncPlaylist.PlaylistSync.RemoveAll | sync-playlist.py:169-171 | the calls are a prefix of the removals in list order, all of them unless a call raised |
| SyncPlaylist.PlaylistSync.AddAll | sync-playlist.py:172-174 | the calls are a prefix of the additions in list order, all of them unless a call raised |
| SyncPlaylist.PlaylistSync.Execute | sync-playlist.py:169-174 | the calls are a prefix of "every removal, then every addition", all of them unless a call raised |
| SyncPlaylist.PlaylistSync.Sync | sync-playlist.py:140-174 | a lookup or naming error fails before any change; otherwise the plan lists exactly the missing and surplus paths, and the calls made are a prefix of that plan, all of it on success |
| SyncPlaylist.ScanPathUnderRoot | sync-playlist.py:132-141 | every local path is below the root, as `relpath` in `remove_track` expects |
| SyncPlaylist.PruneDirPath | sync-playlist.py:133-135 | the one directory the pruning loop lists, `join(root, *dirs[0:1])`, is the file's parent |
| SyncPlaylist.PruneCandidateIsFileParent | sync-playlist.py:132-135 | the directory the remover lists is the folder that held the file |
| SyncPlaylist.TopLevelFilePrunesRoot | sync-playlist.py:132-137 | for a file directly under the root, the directory listed (and deleted when empty) is the root itself |
| SyncPlaylist.TrackPrunesAlbumOnly | sync-playlist.py:82-137 | for a track's path `root/artist/album/file` the remover lists only the album folder, never the artist folder |
| SyncPlaylist.PlannedDistinct | sync-playlist.py:144-174 | with a plan from `ComputePlan`, no file is passed to two calls |
| SyncPlaylist.PlannedRemovesFirst | sync-playlist.py:169-174 | every removal comes before every addition |

## Left out

- The network is not modelled: login, the playlist listing, the stream URL and the
  download. The user's playlists and each playlist's songs are parameters of `Sync`. The
  downloaded bytes are not modelled: a new file holds only its tags.
- `setup_id3_keys` and mutagen are not modelled. `mp3.save` is `FileSystem.SaveTags`, which
  stores the tag map in the file.
- `os.walk` itself is not modelled. `Sync` and `GetLocalTracks` take its result as a
  parameter. `WalkOf` only requires that the result lies below the root; it is not tied to
  `disk.files`.
- The console output, the `raw_input` confirmation and the argparse block are not
  modelled. The `print` at line 173 would raise TypeError for a non-text track name; that
  is not modelled either.
- The `album_image` branch at lines 57-58 is not modelled. It can never run, because that
  field is not in the table.
- Python 2 unicode behaviour is not modelled: no encoding errors in `str()` or `format`, and
  strings are sequences of characters. Track values are text, integers, booleans or None.
  Other JSON types such as floats and lists are not modelled.
- `all_playlists['user']` is assumed present.
- PosixPath.RelPath: only paths below the root in the form `os.walk` and `join` produce are
  modelled. The `.`/`..` normalisation of `relpath` is not.
- Disk.FileSystem.RemoveDir: `os.unlink` on a directory fails on POSIX. It is modelled as
  the removal of that directory, as the script means it.
- Disk.MakeDirsSpec: path components '.' and '..' inside a name are not resolved; the
  directories are named by their path strings. Like `os.makedirs`, the model skips a final
  '.' once it has created the parent.
- Disk.MakeDirsSpec: the race in which another process creates a directory between the
  check and `os.mkdir` is not modelled.
- TagMap.CopyTrackMetadata: when both `totalTracks` and `totalDiscs` are missing, the error
  raised depends on dictionary order. The contract says only that it is one of the two.
- SyncPlaylist.PlaylistSync.AddTrack: the case where `get_stream_url` or the download
  fails is not modelled.
- SyncPlaylist.PlaylistSync.Execute: states which calls are made and in what order, but not
  the resulting disk state. The disk effect of each call is stated by `RemoveTrack` and
  `AddTrack`.
- SyncPlaylist.PlaylistSync.RemoveAll and SyncPlaylist.PlaylistSync.AddAll: the same; they
  state only the calls.
- SyncPlaylist.PlaylistSync.Sync: the same. The order in which each list is filled is not
  stated, because it comes from dictionary order. Only the list contents are stated.
- SyncPlaylist.PlaylistSync.RemoveEntry and SyncPlaylist.PlaylistSync.AddEntry: loop steps
  that state only the call made.

## Notes on the code

The model follows what the code does, including where its comments suggest more:

- There is no escaping, Unicode normalisation, ASCII folding or rename detection.
  `escape_path` returns its argument.
- The `<disc>-` prefix is always written, whatever the number of discs.
- `remove_track`'s docstring says it walks up the tree deleting empty folders. It checks
  only the file's own folder, because `os.path.split` returns a pair. For a file directly
  under the root, the root itself is deleted when it becomes empty.
- Any exception ends the whole run. Later items are not attempted.
- Track fields go into the path unchanged. A name ending in '/' or an album artist starting
  with '/' leads to the quirks `SlashEndedNameSkipped` and `AbsoluteComponentDiscardsRoot`
  state.
- `remove` defaults to true in `sync`, and the command line switches it off with
  `--no-remove`.
