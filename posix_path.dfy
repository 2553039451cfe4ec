/**
  The parts of Python 2's `posixpath` module the sync logic calls: `join`, `split`,
  `splitext`, `relpath` (in the form the local scan produces), and the identification
  of `d/` with `d` that the filesystem makes.
*/
module PosixPath {

  /** `s.rfind(c)`: the index of the last `c` in `s`, or -1 when there is none. */
  function RFind(s: string, c: char): (i: int)
    ensures -1 <= i < |s|
    ensures i >= 0 ==> s[i] == c
  {
    if s == [] then -1
    else if s[|s| - 1] == c then |s| - 1
    else RFind(s[..|s| - 1], c)
  }

  /** No `c` follows the index `RFind` returns. */
  lemma {:induction false} RFindLast(s: string, c: char)
    ensures forall k :: RFind(s, c) < k < |s| ==> s[k] != c
  {
    if s != [] && s[|s| - 1] != c {
      RFindLast(s[..|s| - 1], c);
    }
  }

  predicate NoSlash(s: string) {
    forall i :: 0 <= i < |s| ==> s[i] != '/'
  }

  /** `posixpath.isabs(s)`. */
  predicate IsAbs(s: string) {
    |s| > 0 && s[0] == '/'
  }

  /** `s.rstrip('/')`. */
  function RStrip(s: string): (r: string)
    ensures |r| <= |s| && r == s[..|r|]
    ensures r == [] || r[|r| - 1] != '/'
  {
    if s != [] && s[|s| - 1] == '/' then RStrip(s[..|s| - 1]) else s
  }

  /** `RFind` finds an occurrence at least as far right as any given one. */
  lemma {:induction false} RFindFinds(s: string, c: char, i: int)
    requires 0 <= i < |s| && s[i] == c
    ensures RFind(s, c) >= i
  {
    if s[|s| - 1] != c {
      RFindFinds(s[..|s| - 1], c, i);
    }
  }

  /** A character other than '/' survives `RStrip`. */
  lemma RStripKeeps(s: string, k: int)
    requires 0 <= k < |s| && s[k] != '/'
    ensures |RStrip(s)| > k
  {
    RStripDropsSlashes(s);
  }

  /** The characters `RStrip` removes are all separators. */
  lemma {:induction false} RStripDropsSlashes(s: string)
    ensures forall k :: |RStrip(s)| <= k < |s| ==> s[k] == '/'
  {
    if s != [] && s[|s| - 1] == '/' {
      RStripDropsSlashes(s[..|s| - 1]);
    }
  }

  /** `posixpath.join(a, b)`: a component starting with '/' discards what came before. */
  function Join(a: string, b: string): string {
    if |b| > 0 && b[0] == '/' then b
    else if a == [] || a[|a| - 1] == '/' then a + b
    else a + "/" + b
  }

  /** `posixpath.join(a, *parts)`. */
  function JoinAll(a: string, parts: seq<string>): string
    decreases |parts|
  {
    if parts == [] then a else JoinAll(Join(a, parts[0]), parts[1..])
  }

  /** `posixpath.split(p)`: everything up to the last '/' with trailing slashes removed
      (unless it is nothing but slashes, which `RStrip` would empty), and everything after
      it. */
  function Split(p: string): (string, string) {
    var i := RFind(p, '/') + 1;
    var head := p[..i];
    (if RStrip(head) != [] then RStrip(head) else head, p[i..])
  }

  /** The directory a path names, with the trailing separators the filesystem ignores
      removed: `Canon("music/") == "music"`, `Canon("/") == "/"`. */
  function Canon(p: string): string {
    if RStrip(p) != [] then RStrip(p) else p
  }

  /** `posixpath.splitext(p)[1]`: the extension, from the last '.' of the last component,
      unless that component consists of dots up to it (a leading-dot name has none). */
  function Ext(p: string): string {
    var sepIndex := RFind(p, '/');
    var dotIndex := RFind(p, '.');
    if dotIndex > sepIndex && !AllDots(p[sepIndex + 1..dotIndex]) then p[dotIndex..]
    else ""
  }

  /** `s` holds nothing but '.'. */
  predicate AllDots(s: string) {
    s == [] || (s[0] == '.' && AllDots(s[1..]))
  }

  lemma {:induction false} AllDotsSpec(s: string)
    ensures AllDots(s) <==> forall k :: 0 <= k < |s| ==> s[k] == '.'
  {
    if s != [] {
      AllDotsSpec(s[1..]);
      assert forall k :: 1 <= k < |s| ==> s[k] == s[1..][k - 1];
    }
  }

  /** The prefix a path under `root` starts with: `posixpath.join(root, '')`. */
  function Base(root: string): (b: string)
    ensures b == [] || b[|b| - 1] == '/'
  {
    Join(root, "")
  }

  /** The paths `os.walk(root)` and `posixpath.join` produce below `root`: the root's prefix
      followed by a relative path that does not start with '/'. */
  predicate UnderRoot(path: string, root: string) {
    var b := Base(root);
    |b| < |path| && path[..|b|] == b && path[|b|] != '/'
  }

  /** `os.path.relpath(path, root)` for such a path: what follows the root's prefix. */
  function RelPath(path: string, root: string): (rel: string)
    requires UnderRoot(path, root)
    ensures rel != [] && rel[0] != '/'
    ensures Base(root) + rel == path
  {
    path[|Base(root)|..]
  }

  // ---------------------------------------------------------------- lemmas

  lemma {:induction false} RFindAppend(a: string, b: string, c: char)
    ensures RFind(a + b, c) == if RFind(b, c) >= 0 then |a| + RFind(b, c) else RFind(a, c)
  {
    if b != [] {
      assert (a + b)[..|a + b| - 1] == a + b[..|b| - 1];
      RFindAppend(a, b[..|b| - 1], c);
    } else {
      assert a + b == a;
    }
  }

  lemma {:induction false} RStripAppend(a: string, b: string)
    requires RStrip(b) != []
    ensures RStrip(a + b) == a + RStrip(b)
  {
    if b[|b| - 1] == '/' {
      assert (a + b)[..|a + b| - 1] == a + b[..|b| - 1];
      RStripAppend(a, b[..|b| - 1]);
    }
  }

  /** `join(a, x, y, z)` is `join(join(join(a, x), y), z)`. */
  lemma JoinAllThree(a: string, x: string, y: string, z: string)
    ensures JoinAll(a, [x, y, z]) == Join(Join(Join(a, x), y), z)
  {
    assert [x, y, z][1..] == [y, z];
    assert [y, z][1..] == [z];
    assert [z][1..] == [];
    assert JoinAll(a, [x, y, z]) == JoinAll(Join(a, x), [y, z]);
    assert JoinAll(Join(a, x), [y, z]) == JoinAll(Join(Join(a, x), y), [z]);
  }

  /** The head `Split` returns is already in the form `Canon` gives. */
  lemma SplitHeadCanonical(p: string)
    ensures Canon(Split(p).0) == Split(p).0
  {
  }

  /** `split` undoes `join` for a last component with no separator in it. */
  lemma SplitJoin(d: string, f: string)
    requires f != [] && NoSlash(f)
    ensures Split(Join(d, f)) == (Canon(d), f)
  {
    var p := Join(d, f);
    if d == [] {
      assert p == f;
    } else if d[|d| - 1] == '/' {
      assert p == d + f;
      RFindAppend(d, f, '/');
      assert p[..|d|] == d;
    } else {
      assert p == (d + "/") + f;
      RFindAppend(d + "/", f, '/');
      assert p[..|d| + 1] == d + "/";
      assert RStrip(d + "/") == d by {
        assert (d + "/")[..|d|] == d;
      }
    }
  }

  /** Joining a relative component onto `root` appends it to the root's prefix. */
  lemma JoinOntoBase(root: string, x: string)
    requires x != [] && x[0] != '/'
    ensures Join(root, x) == Base(root) + x
  {
    if root == [] || root[|root| - 1] == '/' {
      assert Base(root) == root + [];
    }
  }

  /** The head of a relative path containing a separator is a relative path itself. */
  lemma RelativeHead(rel: string)
    requires rel != [] && rel[0] != '/' && RFind(rel, '/') >= 0
    ensures var h := Split(rel).0; h != [] && h[0] != '/' && h[|h| - 1] != '/'
    ensures Split(rel).0 == RStrip(rel[..RFind(rel, '/') + 1])
  {
    var h := rel[..RFind(rel, '/') + 1];
    assert h[0] == rel[0];
    RStripKeeps(h, 0);
    var hs := RStrip(h);
    assert hs[0] == h[0];
  }

  /** Splitting a path below a root prefix whose relative part is a bare name gives the root. */
  lemma SplitBareBelowBase(b: string, rel: string)
    requires b == [] || b[|b| - 1] == '/'
    requires rel != [] && RFind(rel, '/') < 0
    ensures Split(b + rel).0 == Canon(b)
  {
    RFindAppend(b, rel, '/');
    if b != [] {
      assert (b + rel)[..RFind(b, '/') + 1] == b;
    }
  }

  /** Splitting a path below a root prefix whose relative part has a directory: the prefix
      followed by the relative part's head. */
  lemma SplitNestedBelowBase(b: string, rel: string)
    requires b == [] || b[|b| - 1] == '/'
    requires rel != [] && rel[0] != '/' && RFind(rel, '/') >= 0
    ensures Split(b + rel).0 == b + Split(rel).0
  {
    RelativeHead(rel);
    SplitBelowBaseHead(b, rel);
  }

  lemma SplitBelowBaseHead(b: string, rel: string)
    requires RFind(rel, '/') >= 0 && RStrip(rel[..RFind(rel, '/') + 1]) != []
    ensures Split(b + rel).0 == b + RStrip(rel[..RFind(rel, '/') + 1])
  {
    var h := rel[..RFind(rel, '/') + 1];
    HeadBelowBase(b, rel);
    RStripAppend(b, h);
    SplitHeadIs(b + rel, b + h);
  }

  /** `Split` of a path whose part up to the last separator is `head`, not all slashes. */
  lemma SplitHeadIs(p: string, head: string)
    requires head == p[..RFind(p, '/') + 1] && RStrip(head) != []
    ensures Split(p).0 == RStrip(head)
  {
  }

  /** The part of `b + rel` up to its last separator is `b` followed by that part of `rel`. */
  lemma HeadBelowBase(b: string, rel: string)
    requires RFind(rel, '/') >= 0
    ensures var j := RFind(rel, '/');
      && RFind(b + rel, '/') == |b| + j
      && (b + rel)[..|b| + j + 1] == b + rel[..j + 1]
  {
    RFindAppend(b, rel, '/');
  }

  /** The directory `join(root, split(relpath(file, root))[0])` that the track remover lists
      is the file's own parent directory, as the filesystem identifies directories. */
  lemma PruneCandidateIsParent(root: string, rel: string)
    requires rel != [] && rel[0] != '/'
    ensures Canon(Join(root, Split(rel).0)) == Split(Base(root) + rel).0
  {
    if RFind(rel, '/') < 0 {
      PruneBare(root, rel);
    } else {
      PruneNested(root, rel);
    }
  }

  lemma PruneBare(root: string, rel: string)
    requires rel != [] && RFind(rel, '/') < 0
    ensures Canon(Join(root, Split(rel).0)) == Split(Base(root) + rel).0
  {
    SplitBareBelowBase(Base(root), rel);
    assert Split(rel).0 == [];
    assert Join(root, []) == Base(root);
  }

  lemma PruneNested(root: string, rel: string)
    requires rel != [] && rel[0] != '/' && RFind(rel, '/') >= 0
    ensures Canon(Join(root, Split(rel).0)) == Split(Base(root) + rel).0
  {
    var b, hs := Base(root), Split(rel).0;
    assert Split(b + rel).0 == b + hs by {
      SplitNestedBelowBase(b, rel);
    }
    assert Canon(Join(root, hs)) == b + hs by {
      RelativeHead(rel);
      JoinOntoBase(root, hs);
      LastOfConcat(b, hs);
      CanonOfNonSlashEnd(b + hs);
    }
  }

  lemma LastOfConcat(a: string, x: string)
    requires x != []
    ensures (a + x)[|a + x| - 1] == x[|x| - 1]
  {
  }

  /** A path that ends in something other than '/' is its own `Canon`. */
  lemma CanonOfNonSlashEnd(p: string)
    requires p != [] && p[|p| - 1] != '/'
    ensures Canon(p) == p
  {
  }

  /** `join(root, '')` names the root directory itself. */
  lemma BaseIsRoot(root: string)
    ensures Canon(Base(root)) == Canon(root)
  {
    if root != [] && root[|root| - 1] != '/' {
      var b := root + "/";
      assert Base(root) == b;
      assert b[..|b| - 1] == root;
    } else {
      assert root + [] == root;
    }
  }

  /** A name `stem + ".mp3"` has the extension ".mp3" as long as the stem holds no separator
      and is not made of dots alone. */
  lemma ExtOfSuffix(stem: string, ext: string)
    requires NoSlash(stem) && exists k :: 0 <= k < |stem| && stem[k] != '.'
    requires |ext| >= 1 && ext[0] == '.' && forall k :: 1 <= k < |ext| ==> ext[k] != '.' && ext[k] != '/'
    ensures Ext(stem + ext) == ext
  {
    var p := stem + ext;
    RFindAppend(stem, ext, '/');
    RFindAppend(stem, ext, '.');
    RFindLast(ext, '.');
    assert RFind(ext, '.') == 0;
    assert RFind(ext, '/') == -1;
    assert RFind(stem, '/') == -1;
    var k :| 0 <= k < |stem| && stem[k] != '.';
    assert p[..|stem|] == stem;
    AllDotsSpec(stem);
    assert p[k] == stem[k];
    assert p[|stem|..] == ext;
  }

  /** The root's prefix followed by a name that does not start with a separator lies below
      the root. */
  lemma BaseThenNameUnderRoot(root: string, rest: string)
    requires rest != [] && rest[0] != '/'
    ensures UnderRoot(Base(root) + rest, root)
  {
    var b := Base(root);
    assert (b + rest)[..|b|] == b;
  }
  /** Joining a component that is not absolute keeps what came before as a prefix. */
  lemma JoinExtends(a: string, x: string)
    requires !IsAbs(x)
    ensures |a| <= |Join(a, x)| && Join(a, x)[..|a|] == a
  {
    if a == [] || a[|a| - 1] == '/' {
      assert (a + x)[..|a|] == a;
    } else {
      assert (a + "/" + x)[..|a|] == a;
    }
  }

  /** `split` of a path ending in something other than '/' leaves a non-empty last
      component, and then the path is its own `Canon`; otherwise the head is `Canon(p)`. */
  lemma SplitCanon(p: string)
    ensures Split(p).1 != [] ==> Canon(p) == p
    ensures Split(p).1 == [] ==> Split(p).0 == Canon(p)
  {
    var i := RFind(p, '/') + 1;
    if Split(p).1 != [] {
      assert p[|p| - 1] == p[i..][|p| - 1 - i];
      if p[|p| - 1] == '/' {
        RFindFinds(p, '/', |p| - 1);
      }
    } else {
      assert p[..i] == p;
    }
  }

  /** The last component of a path is unchanged by a prefix that ends in a separator, or
      when the path holds a separator of its own. */
  lemma SplitTailAppend(x: string, f: string)
    requires x == [] || x[|x| - 1] == '/' || RFind(f, '/') >= 0
    ensures Split(x + f).1 == Split(f).1
  {
    RFindAppend(x, f, '/');
    if RFind(f, '/') >= 0 {
      assert (x + f)[|x| + RFind(f, '/') + 1..] == f[RFind(f, '/') + 1..];
    } else if x == [] {
      assert x + f == f;
    } else {
      SplitTailAfterSlash(x, f);
    }
  }

  lemma SplitTailAfterSlash(x: string, f: string)
    requires x != [] && x[|x| - 1] == '/' && RFind(f, '/') < 0
    ensures Split(x + f).1 == f
  {
    RFindAppend(x, f, '/');
    assert RFind(x, '/') == |x| - 1;
    assert (x + f)[|x|..] == f;
  }

  /** The last component of `join(d, f)` is the last component of `f`. */
  lemma SplitJoinTail(d: string, f: string)
    ensures Split(Join(d, f)).1 == Split(f).1
  {
    if IsAbs(f) {
    } else if d == [] || d[|d| - 1] == '/' {
      SplitTailAppend(d, f);
    } else {
      SplitTailAppend(d + "/", f);
    }
  }

  /** Text without separators appended to a path extends its last component. */
  lemma SplitTailExtend(s: string, e: string)
    requires NoSlash(e)
    ensures Split(s + e).1 == Split(s).1 + e
  {
    RFindAppend(s, e, '/');
    var i := RFind(s, '/') + 1;
    assert (s + e)[i..] == s[i..] + e;
  }

  /** The last component of a path holds no separator. */
  lemma SplitTailNoSlash(p: string)
    ensures NoSlash(Split(p).1)
  {
    RFindLast(p, '/');
    var i := RFind(p, '/') + 1;
    forall k | 0 <= k < |p[i..]|
      ensures p[i..][k] != '/'
    {
      assert p[i..][k] == p[i + k];
    }
  }

  /** A stem of dots alone (or nothing) leaves `stem + ext` without an extension: the dots
      read as a leading-dot name. */
  lemma DotsStemHasNoExt(stem: string, ext: string)
    requires NoSlash(stem) && AllDots(stem)
    requires |ext| >= 1 && ext[0] == '.' && forall k :: 1 <= k < |ext| ==> ext[k] != '.' && ext[k] != '/'
    ensures Ext(stem + ext) == ""
  {
    var p := stem + ext;
    RFindAppend(stem, ext, '/');
    RFindAppend(stem, ext, '.');
    RFindLast(ext, '.');
    assert RFind(ext, '.') == 0;
    assert RFind(ext, '/') == -1;
    assert RFind(stem, '/') == -1;
    assert p[..|stem|] == stem;
  }
  /** Joining three components onto `root`, the first non-empty and none absolute, gives a
      path below the root. */
  lemma JoinThreeUnderRoot(root: string, a: string, l: string, f: string)
    requires a != [] && !IsAbs(a) && !IsAbs(l) && !IsAbs(f)
    ensures UnderRoot(JoinAll(root, [a, l, f]), root)
  {
    JoinAllThree(root, a, l, f);
    JoinOntoBase(root, a);
    var b := Base(root);
    var d1 := b + a;
    var d2 := Join(d1, l);
    JoinExtends(d1, l);
    JoinExtends(d2, f);
    var p := Join(d2, f);
    assert p[..|d1|] == d2[..|d1|] == d1;
    assert p[..|b|] == d1[..|b|] == b;
    assert p[|b|] == d1[|b|] == a[0];
  }

  /** `join(root, a, l, f)` is the root's prefix, then `a/l/f`, when `a` and `l` are
      non-empty and do not end in '/', and no component is absolute. */
  lemma JoinThreeShape(root: string, a: string, l: string, f: string)
    requires a != [] && l != [] && !IsAbs(a) && !IsAbs(l) && !IsAbs(f)
    requires a[|a| - 1] != '/' && l[|l| - 1] != '/'
    ensures JoinAll(root, [a, l, f]) == Base(root) + a + "/" + l + "/" + f
  {
    JoinAllThree(root, a, l, f);
    JoinOntoBase(root, a);
    var d1 := Base(root) + a;
    LastOfConcat(Base(root), a);
    assert Join(d1, l) == d1 + "/" + l;
    LastOfConcat(d1 + "/", l);
    assert Join(d1 + "/" + l, f) == d1 + "/" + l + "/" + f;
  }
}
