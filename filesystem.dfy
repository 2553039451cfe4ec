/**
  The filesystem below the sync root as the sync sees it: a set of files (each holding
  the ID3 tags last saved into it) and a set of directories, both named by path, with the
  `os` calls the sync makes on them.
*/
module Disk {
  import opened Wrappers
  import opened Python
  import opened PosixPath
  import opened TagMap

  /** The entries `os.listdir(d)` reports: every file or directory whose parent is `d`.
      A name of slashes alone (the directory "/") has no last component and is no entry,
      not even of itself. */
  function Listing(files: map<string, Tags>, dirs: set<string>, d: string): set<string> {
    set e | e in files.Keys + dirs && Split(e).0 == Canon(d) && Split(e).1 != []
  }

  /** `not os.listdir(d)`: nothing in the filesystem has `d` as its parent. */
  ghost predicate EmptyDir(files: map<string, Tags>, dirs: set<string>, d: string) {
    forall e {:trigger Split(e)} :: e in files || e in dirs ==> Split(e).0 != Canon(d) || Split(e).1 == []
  }

  lemma ListingEmpty(files: map<string, Tags>, dirs: set<string>, d: string)
    ensures Listing(files, dirs, d) == {} <==> EmptyDir(files, dirs, d)
  {
    if !EmptyDir(files, dirs, d) {
      var e :| (e in files || e in dirs) && Split(e).0 == Canon(d) && Split(e).1 != [];
      assert e in Listing(files, dirs, d);
    }
  }

  /** The directory "/" is not an entry of itself: holding nothing else, it lists empty. */
  lemma RootListsNotItself()
    ensures Listing(map[], {"/"}, "/") == {}
  {
    assert RFind("/", '/') == 0;
    assert Split("/").1 == [];
  }

  /** `os.path.exists(p)`. */
  predicate ExistsIn(files: map<string, Tags>, dirs: set<string>, p: string) {
    Canon(p) in files || Canon(p) in dirs
  }

  lemma SplitShorter(p: string)
    ensures |Split(p).0| <= |p|
    ensures Split(p).1 != [] ==> |Split(p).0| < |p|
  {
  }

  /** The directory `os.mkdir` and `open` create their entry in must exist: the head of
      `split`, once trailing separators are dropped, is a directory (an empty head is the
      working directory, which does). */
  predicate ParentIsDir(dirs: set<string>, p: string) {
    var parent := Split(Canon(p)).0;
    parent == [] || Canon(parent) in dirs
  }

  /** `os.mkdir(name)`: fails for an empty name, one that already exists, and one whose
      parent is missing or is a regular file. */
  function Mkdir(files: map<string, Tags>, dirs: set<string>, name: string): (r: Result<set<string>, Error>)
    ensures r.Ok? <==> name != [] && !ExistsIn(files, dirs, name) && ParentIsDir(dirs, name)
    ensures r.Ok? ==> r.value == dirs + {Canon(name)}
    ensures r.Err? ==> r.error == OSError
  {
    if name == [] || ExistsIn(files, dirs, name) || !ParentIsDir(dirs, name) then Err(OSError)
    else Ok(dirs + {Canon(name)})
  }

  /** `os.makedirs(name)`: creates the missing ancestors of `name` (recursing on the head of
      `split`, retried once when the name ends in a separator), then `name` itself, except
      that a last component '.' is taken to exist once its parent does. */
  function MakeDirsSpec(files: map<string, Tags>, dirs: set<string>, name: string): (r: Result<set<string>, Error>)
    ensures r.Ok? ==> dirs <= r.value
    ensures r.Ok? && Split(Canon(name)).1 != "." ==> Canon(name) in r.value
    ensures r.Err? ==> r.error == OSError
    decreases |name|
  {
    SplitShorter(name);
    SplitCanon(name);
    var (h0, t0) := Split(name);
    SplitShorter(h0);
    var (head, tail) := if t0 == [] then Split(h0) else (h0, t0);
    var recurse := head != [] && tail != [] && !ExistsIn(files, dirs, head);
    var above := if recurse then MakeDirsSpec(files, dirs, head) else Ok(dirs);
    if above.Err? then above
    else if recurse && tail == "." then above
    else Mkdir(files, above.value, name)
  }

  /** Once `os.makedirs` has made a file's folder, the file's parent is a directory, so
      `open` can create the file there. */
  lemma MadeFolderIsParent(files: map<string, Tags>, dirs: set<string>, file: string)
    requires Split(file).1 != []
    requires Split(Split(file).0).1 != "."
    requires MakeDirsSpec(files, dirs, Split(file).0).Ok?
    ensures ParentIsDir(MakeDirsSpec(files, dirs, Split(file).0).value, file)
  {
    SplitCanon(file);
    SplitHeadCanonical(file);
  }

  /** A regular file where a folder of the path should be makes `os.makedirs` fail: with
      "r/A" a file, making "r/A/B" raises OSError. */
  lemma FileInTheWay()
    ensures MakeDirsSpec(map["r/A" := map[]], {"r"}, "r/A/B") == Err(OSError)
  {
    var files: map<string, Tags> := map["r/A" := map[]];
    assert Split("r/A/B") == ("r/A", "B") by {
      assert "r/A/B"[..4] == "r/A/";
      assert RFind("r/A/", '/') == 3;
      assert RFind("r/A/B", '/') == 3;
      assert "r/A/"[..3] == "r/A";
      assert RStrip("r/A/") == "r/A";
      assert "r/A/B"[4..] == "B";
    }
    assert Canon("r/A") == "r/A";
    assert ExistsIn(files, {"r"}, "r/A");
    assert Canon("r/A/B") == "r/A/B";
    assert Split("r/A/B").0 == "r/A";
    assert !ParentIsDir({"r"}, "r/A/B");
  }

  class FileSystem {
    /** Every file, by canonical path, with the tags saved in it (none for a fresh download). */
    var files: map<string, Tags>
    /** Every directory, by canonical path. */
    var dirs: set<string>

    constructor (files: map<string, Tags>, dirs: set<string>)
      ensures this.files == files && this.dirs == dirs
    {
      this.files := files;
      this.dirs := dirs;
    }

    predicate Exists(p: string)
      reads this
    {
      ExistsIn(files, dirs, p)
    }

    /** `os.remove(p)`: deletes a file; fails when there is no file at `p`. */
    method Remove(p: string) returns (outcome: Outcome<Error>)
      modifies this
      ensures Canon(p) in old(files) ==> outcome == Pass && files == old(files) - {Canon(p)}
      ensures Canon(p) !in old(files) ==> outcome == Fail(OSError) && files == old(files)
      ensures dirs == old(dirs)
    {
      if Canon(p) !in files {
        return Fail(OSError);
      }
      files := files - {Canon(p)};
      return Pass;
    }

    /** `os.listdir(d)`: fails when `d` is not a directory. */
    method ListDir(d: string) returns (r: Result<set<string>, Error>)
      ensures Canon(d) in dirs ==> r == Ok(Listing(files, dirs, d))
      ensures Canon(d) !in dirs ==> r == Err(OSError)
    {
      if Canon(d) !in dirs {
        return Err(OSError);
      }
      return Ok(Listing(files, dirs, d));
    }

    /** The removal of an empty directory (`os.unlink` in the source; see README). */
    method RemoveDir(d: string)
      modifies this
      ensures dirs == old(dirs) - {Canon(d)} && files == old(files)
    {
      dirs := dirs - {Canon(d)};
    }

    /** `os.makedirs(d)`. */
    method MakeDirs(d: string) returns (outcome: Outcome<Error>)
      modifies this
      ensures var r := MakeDirsSpec(old(files), old(dirs), d);
        && (r.Ok? ==> outcome == Pass && dirs == r.value)
        && (r.Err? ==> outcome == Fail(r.error) && dirs == old(dirs))
      ensures files == old(files)
    {
      var r := MakeDirsSpec(files, dirs, d);
      if r.Err? {
        return Fail(r.error);
      }
      dirs := r.value;
      return Pass;
    }

    /** `open(p, 'wb').write(...)`: creates or truncates the file; raises IOError on a
        directory and when the file's parent is missing or is a regular file. */
    method WriteFile(p: string) returns (outcome: Outcome<Error>)
      modifies this
      ensures Canon(p) in old(dirs) || !ParentIsDir(old(dirs), p) ==> outcome == Fail(IOError) && files == old(files)
      ensures Canon(p) !in old(dirs) && ParentIsDir(old(dirs), p) ==>
                outcome == Pass && files == old(files)[Canon(p) := map[]]
      ensures dirs == old(dirs)
    {
      if Canon(p) in dirs || !ParentIsDir(dirs, p) {
        return Fail(IOError);
      }
      files := files[Canon(p) := map[]];
      return Pass;
    }

    /** `mp3.save(p)`: replaces the tags of the file at `p`. */
    method SaveTags(p: string, tags: Tags)
      modifies this
      ensures files == old(files)[Canon(p) := tags] && dirs == old(dirs)
    {
      files := files[Canon(p) := tags];
    }
  }
}
