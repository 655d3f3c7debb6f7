/** The directory crawler of elbow/sources/filesystem.py: exclude patterns,
    the in-place pruning of a directory listing, the normalisation of the
    arguments of `crawldirs`, and the walk it drives.

    `fnmatch`, path joining and `glob` are parameters. A directory tree is a
    value that stands for what `os.walk` finds below an entry; symbolic links
    are not modelled. */
module FilesystemSource {
  import opened Wrappers
  import opened Seqs

  /** `_Pattern`: an exclude pattern, and whether it is matched against the
      whole path (it contains a `/`) or against the bare name. */
  datatype Pattern = Pattern(pat: string, fullPath: bool)

  function MakePattern(pat: string): (p: Pattern)
    ensures p.pat == pat
    ensures p.fullPath <==> exists i :: 0 <= i < |pat| && pat[i] == '/'
  {
    Pattern(pat, '/' in pat)
  }

  /** The path operations the crawler uses: `os.path.join` (also standing for
      `Path(a) / b`), `(Path(a) / b).as_posix()`, and `fnmatch.fnmatch`. */
  datatype PathOps = PathOps(
    join: (string, string) -> string,
    posixJoin: (string, string) -> string,
    fnmatch: (string, string) -> bool)

  /** What a pattern is matched against when pruning `name` below `root`. */
  function Query(root: string, name: string, p: Pattern, ops: PathOps): string
  {
    if p.fullPath then ops.posixJoin(root, name) else name
  }

  predicate Excluded(root: string, name: string, pats: seq<Pattern>, ops: PathOps)
  {
    exists k :: 0 <= k < |pats| && ops.fnmatch(Query(root, name, pats[k], ops), pats[k].pat)
  }

  /** The names that survive pruning below `root`: those no pattern matches. */
  function Keeps(root: string, pats: seq<Pattern>, ops: PathOps): string -> bool
  {
    (name: string) => !Excluded(root, name, pats, ops)
  }

  /** The `dirnames` list `os.walk` hands out and later reads back. */
  class NameList {
    var items: seq<string>

    constructor(items: seq<string>)
      ensures this.items == items
    {
      this.items := items;
    }

    /** `list.pop(i)` for an index in range. */
    method Pop(i: int) returns (x: string)
      requires 0 <= i < |items|
      modifies this
      ensures x == old(items[i])
      ensures items == old(items[..i] + items[i + 1..])
    {
      x := items[i];
      items := items[..i] + items[i + 1..];
    }
  }

  /** The inner loop of `_remove_exclude`: tries the patterns in order and
      stops at the first one that matches the name. */
  method MatchesAny(root: string, name: string, exclude: seq<Pattern>, ops: PathOps) returns (matched: bool)
    ensures matched <==> Excluded(root, name, exclude, ops)
  {
    var j := 0;
    while j < |exclude|
      invariant 0 <= j <= |exclude|
      invariant forall k :: 0 <= k < j ==> !ops.fnmatch(Query(root, name, exclude[k], ops), exclude[k].pat)
    {
      var pat := exclude[j];
      var query := Query(root, name, pat, ops);
      if ops.fnmatch(query, pat.pat) {
        return true;
      }
      j := j + 1;
    }
    return false;
  }

  /** A kept name stays where it is: the list reads the same with the name
      counted in the unvisited prefix or in the filtered suffix. */
  lemma KeepStep(keep: string -> bool, s: seq<string>, i: nat)
    requires i < |s| && keep(s[i])
    ensures s[..i + 1] + Filter(keep, s[i + 1..]) == s[..i] + Filter(keep, s[i..])
  {
    assert s[i..][1..] == s[i + 1..];
    assert s[..i + 1] == s[..i] + [s[i]];
  }

  /** Popping an excluded name at its original index leaves the unvisited
      prefix followed by the filtered suffix. */
  lemma DropStep(keep: string -> bool, s: seq<string>, i: nat, items: seq<string>)
    requires i < |s| && !keep(s[i])
    requires items == s[..i + 1] + Filter(keep, s[i + 1..])
    ensures i < |items|
    ensures items[..i] + items[i + 1..] == s[..i] + Filter(keep, s[i..])
  {
    assert s[i..][1..] == s[i + 1..];
    assert items[..i] == s[..i];
    assert items[i + 1..] == Filter(keep, s[i + 1..]);
  }

  /** `_remove_exclude`: walks a copy of the names from the back and pops
      each name that some pattern matches, at its original index. What is
      left is the original list with the excluded names removed, in their
      original order. */
  method RemoveExclude(root: string, names: NameList, exclude: seq<Pattern>, ops: PathOps)
    modifies names
    ensures names.items == Filter(Keeps(root, exclude, ops), old(names.items))
  {
    var keep := Keeps(root, exclude, ops);
    var copy := names.items;
    var n := |names.items|;
    var ii := 0;
    while ii < n
      invariant 0 <= ii <= n
      invariant names.items == copy[..n - ii] + Filter(keep, copy[n - ii..])
    {
      var i := n - ii - 1;
      var name := copy[i];
      var matched := MatchesAny(root, name, exclude, ops);
      if matched {
        DropStep(keep, copy, i, names.items);
        var _ := names.Pop(i);
      } else {
        KeepStep(keep, copy, i);
      }
      ii := ii + 1;
    }
    assert copy[..0] + Filter(keep, copy[0..]) == Filter(keep, copy);
  }

  // ---------------------------------------------------------------------------
  // The walk

  /** A directory as `os.walk` lists it: its sub-directories, in listing
      order, and its file names. */
  datatype Dir = Dir(subdirs: seq<Entry>, files: seq<string>)
  datatype Entry = Entry(name: string, dir: Dir)

  /** One descent: from the directory `parent` into its sub-directory `name`. */
  datatype Step = Step(parent: string, name: string)

  /** A yielded file path, with the descents that led to its directory. */
  datatype Found = Found(path: string, ancestors: seq<Step>)

  /** `Path(subdir) / fname` for each file of one directory. */
  function FilesOf(ops: PathOps, path: string, ancestors: seq<Step>, files: seq<string>): seq<Found>
  {
    seq(|files|, k requires 0 <= k < |files| => Found(ops.join(path, files[k]), ancestors))
  }

  /** `os.walk` top-down from `path`, with the caller pruning `dirnames` when
      there are exclude patterns: the files of a directory come first, then
      the walks of the sub-directories whose names survive, in order. */
  function Walk(ops: PathOps, pats: seq<Pattern>, path: string, ancestors: seq<Step>, d: Dir): seq<Found>
    decreases d
  {
    FilesOf(ops, path, ancestors, d.files) + WalkSubdirs(ops, pats, path, ancestors, d.subdirs)
  }

  function WalkSubdirs(ops: PathOps, pats: seq<Pattern>, path: string, ancestors: seq<Step>,
                       es: seq<Entry>): seq<Found>
    decreases es
  {
    if es == [] then []
    else
      var e := es[0];
      (if pats == [] || Keeps(path, pats, ops)(e.name)
       then Walk(ops, pats, ops.join(path, e.name), ancestors + [Step(path, e.name)], e.dir)
       else [])
      + WalkSubdirs(ops, pats, path, ancestors, es[1..])
  }

  /** The `dirnames` list of a directory: its sub-directories' names, in order. */
  function Names(es: seq<Entry>): (r: seq<string>)
    ensures |r| == |es|
    ensures forall k :: 0 <= k < |es| ==> r[k] == es[k].name
  {
    if es == [] then [] else [es[0].name] + Names(es[1..])
  }

  /** `os.walk` reads back the `dirnames` list its caller pruned in place: the
      walk descends exactly into the sub-directories whose names
      `_remove_exclude` leaves in the list (`RemoveExclude` leaves
      `Filter(Keeps(...), names)`), in listing order, and into no other. */
  lemma {:induction false} DescendsIntoRemainingNames(ops: PathOps, pats: seq<Pattern>, path: string,
                                                      ancestors: seq<Step>, es: seq<Entry>, kept: seq<Entry>)
    requires kept == Filter((e: Entry) => Keeps(path, pats, ops)(e.name), es)
    ensures Names(kept) == Filter(Keeps(path, pats, ops), Names(es))
    ensures WalkSubdirs(ops, pats, path, ancestors, es) == WalkSubdirs(ops, pats, path, ancestors, kept)
    decreases es
  {
    var keep := (e: Entry) => Keeps(path, pats, ops)(e.name);
    if es != [] {
      var e := es[0];
      var rest := Filter(keep, es[1..]);
      DescendsIntoRemainingNames(ops, pats, path, ancestors, es[1..], rest);
      assert Names(es)[1..] == Names(es[1..]);
      if keep(e) {
        assert kept == [e] + rest;
        assert kept[1..] == rest;
      } else {
        assert kept == rest;
      }
    }
  }

  /** A found file none of whose descents was into an excluded directory. */
  function NotPruned(pats: seq<Pattern>, ops: PathOps): Found -> bool
  {
    (f: Found) => forall k :: 0 <= k < |f.ancestors| ==>
      Keeps(f.ancestors[k].parent, pats, ops)(f.ancestors[k].name)
  }

  /** Every file found below `path` carries the descents that led to `path`. */
  lemma {:induction false} WalkAncestors(ops: PathOps, pats: seq<Pattern>, path: string,
                                         ancestors: seq<Step>, d: Dir)
    ensures forall f :: f in Walk(ops, pats, path, ancestors, d) ==>
              |ancestors| <= |f.ancestors| && f.ancestors[..|ancestors|] == ancestors
    decreases d
  {
    WalkSubdirsAncestors(ops, pats, path, ancestors, d.subdirs);
  }

  lemma {:induction false} WalkSubdirsAncestors(ops: PathOps, pats: seq<Pattern>, path: string,
                                                ancestors: seq<Step>, es: seq<Entry>)
    ensures forall f :: f in WalkSubdirs(ops, pats, path, ancestors, es) ==>
              |ancestors| <= |f.ancestors| && f.ancestors[..|ancestors|] == ancestors
    decreases es
  {
    if es != [] {
      var e := es[0];
      var below := ancestors + [Step(path, e.name)];
      WalkAncestors(ops, pats, ops.join(path, e.name), below, e.dir);
      WalkSubdirsAncestors(ops, pats, path, ancestors, es[1..]);
      forall f | f in Walk(ops, pats, ops.join(path, e.name), below, e.dir)
        ensures f.ancestors[..|ancestors|] == ancestors
      {
        assert f.ancestors[..|ancestors|] == f.ancestors[..|below|][..|ancestors|];
      }
    }
  }

  /** Pruning while walking yields exactly the unpruned walk's files that lie
      below no excluded directory, in the same order. */
  lemma {:induction false} PruneIsFilter(ops: PathOps, pats: seq<Pattern>, path: string,
                                         ancestors: seq<Step>, d: Dir)
    requires forall k :: 0 <= k < |ancestors| ==> Keeps(ancestors[k].parent, pats, ops)(ancestors[k].name)
    ensures Walk(ops, pats, path, ancestors, d) == Filter(NotPruned(pats, ops), Walk(ops, [], path, ancestors, d))
    decreases d
  {
    var here := FilesOf(ops, path, ancestors, d.files);
    FilterAppend(NotPruned(pats, ops), here, WalkSubdirs(ops, [], path, ancestors, d.subdirs));
    FilterKeepsAll(NotPruned(pats, ops), here);
    SubdirsPruneIsFilter(ops, pats, path, ancestors, d.subdirs);
  }

  lemma {:induction false} SubdirsPruneIsFilter(ops: PathOps, pats: seq<Pattern>, path: string,
                                                ancestors: seq<Step>, es: seq<Entry>)
    requires forall k :: 0 <= k < |ancestors| ==> Keeps(ancestors[k].parent, pats, ops)(ancestors[k].name)
    ensures WalkSubdirs(ops, pats, path, ancestors, es) ==
            Filter(NotPruned(pats, ops), WalkSubdirs(ops, [], path, ancestors, es))
    decreases es
  {
    if es != [] {
      var e := es[0];
      var below := ancestors + [Step(path, e.name)];
      var child := Walk(ops, [], ops.join(path, e.name), below, e.dir);
      FilterAppend(NotPruned(pats, ops), child, WalkSubdirs(ops, [], path, ancestors, es[1..]));
      SubdirsPruneIsFilter(ops, pats, path, ancestors, es[1..]);
      if pats == [] || Keeps(path, pats, ops)(e.name) {
        PruneIsFilter(ops, pats, ops.join(path, e.name), below, e.dir);
      } else {
        WalkAncestors(ops, [], ops.join(path, e.name), below, e.dir);
        forall f | f in child
          ensures !NotPruned(pats, ops)(f)
        {
          assert f.ancestors[..|below|][|ancestors|] == Step(path, e.name);
        }
        FilterKeepsNone(NotPruned(pats, ops), child);
      }
    }
  }

  // ---------------------------------------------------------------------------
  // `crawldirs`

  /** `root`: one path, or a list of paths or glob patterns. */
  datatype RootArg = OneRoot(root: string) | Roots(roots: seq<string>)

  /** `exclude`: None, one pattern, or a list of patterns. */
  datatype ExcludeArg = NoExclude | OneExclude(pattern: string) | Excludes(patterns: seq<string>)

  function RootList(r: RootArg): seq<string>
  {
    match r
    case OneRoot(p) => [p]
    case Roots(ps) => ps
  }

  function ExcludeList(e: ExcludeArg): seq<string>
  {
    match e
    case NoExclude => []
    case OneExclude(p) => [p]
    case Excludes(ps) => ps
  }

  function Patterns(exclude: seq<string>): seq<Pattern>
  {
    seq(|exclude|, k requires 0 <= k < |exclude| => MakePattern(exclude[k]))
  }

  /** What the crawler sees of the filesystem: `sorted(glob(pattern))`, the
      directory tree below a path (None when it is not a directory), and the
      path operations. */
  datatype CrawlFs = CrawlFs(glob: string -> seq<string>, tree: string -> Option<Dir>, ops: PathOps)

  /** The roots after glob expansion, pattern by pattern. */
  function Entries(roots: seq<string>, glob: string -> seq<string>): seq<string>
  {
    Flatten(seq(|roots|, k requires 0 <= k < |roots| => glob(roots[k])))
  }

  function WalkFrom(fs: CrawlFs, pats: seq<Pattern>, entry: string): seq<Found>
  {
    match fs.tree(entry)
    case None => []
    case Some(d) => Walk(fs.ops, pats, entry, [], d)
  }

  /** The walks of the entries, one after another. */
  function WalkEntries(fs: CrawlFs, pats: seq<Pattern>, entries: seq<string>): seq<Found>
  {
    if entries == [] then []
    else WalkEntries(fs, pats, entries[..|entries| - 1]) + WalkFrom(fs, pats, entries[|entries| - 1])
  }

  /** Everything `crawldirs(root, exclude)` yields, in order. */
  function Crawl(fs: CrawlFs, root: RootArg, exclude: ExcludeArg): seq<Found>
  {
    WalkEntries(fs, Patterns(ExcludeList(exclude)), Entries(RootList(root), fs.glob))
  }

  /** `crawldirs`: normalises its arguments, then walks each expanded root in
      turn, collecting what the generator yields. */
  method CrawlDirs(fs: CrawlFs, root: RootArg, exclude: ExcludeArg) returns (found: seq<Found>)
    ensures found == Crawl(fs, root, exclude)
  {
    var roots := RootList(root);
    var entries := Entries(roots, fs.glob);
    var pats := Patterns(ExcludeList(exclude));
    found := [];
    var i := 0;
    while i < |entries|
      invariant 0 <= i <= |entries|
      invariant found == WalkEntries(fs, pats, entries[..i])
    {
      assert entries[..i + 1][..i] == entries[..i];
      found := found + WalkFrom(fs, pats, entries[i]);
      i := i + 1;
    }
    assert entries[..|entries|] == entries;
  }

  /** Crawling with exclude patterns yields exactly the files the crawl
      without them yields that lie below no excluded directory, in order. */
  lemma {:induction false} CrawlIsPrunedCrawl(fs: CrawlFs, root: RootArg, exclude: ExcludeArg)
    ensures Crawl(fs, root, exclude) ==
            Filter(NotPruned(Patterns(ExcludeList(exclude)), fs.ops), Crawl(fs, root, NoExclude))
  {
    var entries := Entries(RootList(root), fs.glob);
    assert Patterns(ExcludeList(NoExclude)) == [];
    assert Crawl(fs, root, NoExclude) == WalkEntries(fs, [], entries);
    EntriesPrune(fs, Patterns(ExcludeList(exclude)), entries);
  }

  lemma {:induction false} EntriesPrune(fs: CrawlFs, pats: seq<Pattern>, entries: seq<string>)
    ensures WalkEntries(fs, pats, entries) == Filter(NotPruned(pats, fs.ops), WalkEntries(fs, [], entries))
  {
    if entries != [] {
      var init := entries[..|entries| - 1];
      var last := entries[|entries| - 1];
      EntriesPrune(fs, pats, init);
      FilterAppend(NotPruned(pats, fs.ops), WalkEntries(fs, [], init), WalkFrom(fs, [], last));
      match fs.tree(last)
      case None =>
      case Some(d) =>
        PruneIsFilter(fs.ops, pats, last, [], d);
    }
  }

  /** A single root and a one-element list crawl the same; so do no exclude
      patterns and an empty list of them. */
  lemma NormalisedArguments(fs: CrawlFs, root: string, roots: seq<string>, exclude: ExcludeArg, pat: string)
    ensures Crawl(fs, OneRoot(root), exclude) == Crawl(fs, Roots([root]), exclude)
    ensures Crawl(fs, Roots(roots), NoExclude) == Crawl(fs, Roots(roots), Excludes([]))
    ensures Crawl(fs, Roots(roots), OneExclude(pat)) == Crawl(fs, Roots(roots), Excludes([pat]))
  {
  }

  /** Excluding `.*` (with `fnmatch` matching it against exactly the names
      that start with a dot) never yields a file below a dot-directory that
      the walk descends into; a root itself is not pruned. */
  lemma DotDirectoriesSkipped(fs: CrawlFs, root: RootArg)
    requires forall q :: fs.ops.fnmatch(q, ".*") <==> |q| > 0 && q[0] == '.'
    ensures forall f, k :: f in Crawl(fs, root, OneExclude(".*")) && 0 <= k < |f.ancestors| ==>
              !(|f.ancestors[k].name| > 0 && f.ancestors[k].name[0] == '.')
  {
    var pats := Patterns([".*"]);
    assert pats == [MakePattern(".*")];
    assert !MakePattern(".*").fullPath;
    CrawlIsPrunedCrawl(fs, root, OneExclude(".*"));
    forall f, k | f in Crawl(fs, root, OneExclude(".*")) && 0 <= k < |f.ancestors|
      ensures !(|f.ancestors[k].name| > 0 && f.ancestors[k].name[0] == '.')
    {
      assert NotPruned(pats, fs.ops)(f);
      var a := f.ancestors[k];
      assert Keeps(a.parent, pats, fs.ops)(a.name);
      assert Query(a.parent, a.name, pats[0], fs.ops) == a.name;
    }
  }
}
