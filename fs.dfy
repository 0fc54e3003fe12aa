/** The local file system as the client reads it: `os.listdir`,
    `os.path.isdir`, `os.path.isfile`, the capture-time sources of a media
    file, and `os.walk` over that. */
module LocalFs {
  import opened Wrappers
  import opened PyPath

  /** What the client reads of one file. `exifOriginal` is the image's
      original-capture tag already parsed (`None` when the tag is missing, the
      file cannot be opened or the text does not parse); `mtime` is the
      last-modification time. Both are local wall-clock seconds. */
  datatype FileMeta = FileMeta(exifOriginal: Option<int>, mtime: int)

  /** Every directory with its listing, in the order the platform returns it,
      and every regular file. Paths are compared as strings. */
  datatype FileSystem = FileSystem(dirs: map<string, seq<string>>, files: map<string, FileMeta>)

  predicate IsDir(fs: FileSystem, p: string)
  {
    p in fs.dirs
  }

  predicate IsFile(fs: FileSystem, p: string)
  {
    p in fs.files
  }

  /** The listings describe a real tree: listed names are plain names, each
      listed name is a directory or a file, and nothing is both. */
  predicate WellFormed(fs: FileSystem)
  {
    && (forall p :: p in fs.dirs ==> p !in fs.files)
    && (forall p, i :: p in fs.dirs && 0 <= i < |fs.dirs[p]| ==>
          ValidName(fs.dirs[p][i]) && (IsDir(fs, Join(p, fs.dirs[p][i])) || IsFile(fs, Join(p, fs.dirs[p][i]))))
  }

  /** A listed name of a well-formed tree is a plain name. */
  lemma ListedName(fs: FileSystem, p: string, x: string)
    requires WellFormed(fs) && IsDir(fs, p) && x in fs.dirs[p]
    ensures ValidName(x)
  {
    var i :| 0 <= i < |fs.dirs[p]| && fs.dirs[p][i] == x;
  }

  /** `[k for k in names if os.path.isdir(os.path.join(parent, k))]`. */
  function OnlyDirs(fs: FileSystem, parent: string, names: seq<string>): (r: seq<string>)
    ensures forall x :: x in r <==> x in names && IsDir(fs, Join(parent, x))
  {
    if names == [] then []
    else (if IsDir(fs, Join(parent, names[0])) then [names[0]] else []) + OnlyDirs(fs, parent, names[1..])
  }

  /** `[k for k in names if os.path.isfile(os.path.join(parent, k))]`. */
  function OnlyFiles(fs: FileSystem, parent: string, names: seq<string>): (r: seq<string>)
    ensures forall x :: x in r <==> x in names && IsFile(fs, Join(parent, x))
  {
    if names == [] then []
    else (if IsFile(fs, Join(parent, names[0])) then [names[0]] else []) + OnlyFiles(fs, parent, names[1..])
  }

  /** The names of a listing that `os.walk` reports as non-directories. */
  function NonDirs(fs: FileSystem, parent: string, names: seq<string>): (r: seq<string>)
    ensures forall x :: x in r <==> x in names && !IsDir(fs, Join(parent, x))
  {
    if names == [] then []
    else (if IsDir(fs, Join(parent, names[0])) then [] else [names[0]]) + NonDirs(fs, parent, names[1..])
  }

  /** One triple `(root, dirnames, filenames)` that `os.walk` yields. */
  datatype WalkStep = WalkStep(root: string, dirnames: seq<string>, filenames: seq<string>)

  /** The directories whose paths are longer than `n`; walking down a tree
      shrinks this set, which bounds the recursion of `Walk`. */
  function Longer(fs: FileSystem, n: nat): set<string>
  {
    set q | q in fs.dirs && |q| > n
  }

  lemma LongerShrinks(fs: FileSystem, top: string, c: string)
    requires c in fs.dirs && |c| > |top|
    ensures |Longer(fs, |c|)| < |Longer(fs, |top|)|
  {
    var small, big := Longer(fs, |c|), Longer(fs, |top|);
    assert c in big && c !in small;
    assert small + {c} <= big;
    assert |small + {c}| == |small| + 1;
    SubsetCard(small + {c}, big);
  }

  lemma {:induction false} SubsetCard(a: set<string>, b: set<string>)
    requires a <= b
    ensures |a| <= |b|
    decreases |a|
  {
    if a != {} {
      var x :| x in a;
      SubsetCard(a - {x}, b - {x});
    }
  }

  /** A directory listed in `top` and walked into. */
  predicate ChildDir(fs: FileSystem, top: string, d: string)
  {
    ValidName(d) && IsDir(fs, Join(top, d))
  }

  /** `os.walk(top)`, top-down: the step for `top`, then the walks of its
      sub-directories in listing order; nothing when `top` is not a directory.
      Every step is a directory and every file name it reports is a file. */
  function Walk(fs: FileSystem, top: string): (r: seq<WalkStep>)
    requires WellFormed(fs)
    ensures r != [] <==> IsDir(fs, top)
    ensures r != [] ==> r[0] == WalkStep(top, OnlyDirs(fs, top, fs.dirs[top]), NonDirs(fs, top, fs.dirs[top]))
    ensures forall k :: 0 <= k < |r| ==> IsDir(fs, r[k].root)
    ensures forall k, f :: 0 <= k < |r| && f in r[k].filenames ==> IsFile(fs, Join(r[k].root, f))
    decreases |Longer(fs, |top|)|, 1, 0
  {
    if !IsDir(fs, top) then []
    else
      var names := fs.dirs[top];
      var dirs := OnlyDirs(fs, top, names);
      var files := NonDirs(fs, top, names);
      TopListing(fs, top);
      var rest := WalkChildren(fs, top, dirs);
      StepsAppend(fs, [WalkStep(top, dirs, files)], rest);
      [WalkStep(top, dirs, files)] + rest
  }

  /** The directory names of a listing are child directories and its other
      names are files. */
  lemma TopListing(fs: FileSystem, top: string)
    requires WellFormed(fs) && IsDir(fs, top)
    ensures forall f :: f in NonDirs(fs, top, fs.dirs[top]) ==> IsFile(fs, Join(top, f))
    ensures forall d :: d in OnlyDirs(fs, top, fs.dirs[top]) ==> ChildDir(fs, top, d)
  {
    var names := fs.dirs[top];
    forall f | f in NonDirs(fs, top, names) ensures IsFile(fs, Join(top, f)) {
      var i :| 0 <= i < |names| && names[i] == f;
    }
    forall d | d in OnlyDirs(fs, top, names) ensures ChildDir(fs, top, d) {
      var i :| 0 <= i < |names| && names[i] == d;
    }
  }

  /** Steps whose roots are directories and whose file names are files keep
      that when concatenated. */
  lemma StepsAppend(fs: FileSystem, a: seq<WalkStep>, b: seq<WalkStep>)
    requires forall k :: 0 <= k < |a| ==> IsDir(fs, a[k].root)
    requires forall k, f :: 0 <= k < |a| && f in a[k].filenames ==> IsFile(fs, Join(a[k].root, f))
    requires forall k :: 0 <= k < |b| ==> IsDir(fs, b[k].root)
    requires forall k, f :: 0 <= k < |b| && f in b[k].filenames ==> IsFile(fs, Join(b[k].root, f))
    ensures forall k :: 0 <= k < |a + b| ==> IsDir(fs, (a + b)[k].root)
    ensures forall k, f :: 0 <= k < |a + b| && f in (a + b)[k].filenames ==> IsFile(fs, Join((a + b)[k].root, f))
  {
    forall k | 0 <= k < |a + b| ensures (a + b)[k] == if k < |a| then a[k] else b[k - |a|] {
      if k >= |a| { assert (a + b)[k] == b[k - |a|]; }
    }
  }

  function WalkChildren(fs: FileSystem, top: string, ds: seq<string>): (r: seq<WalkStep>)
    requires WellFormed(fs)
    requires forall d :: d in ds ==> ChildDir(fs, top, d)
    ensures forall k :: 0 <= k < |r| ==> IsDir(fs, r[k].root)
    ensures forall k, f :: 0 <= k < |r| && f in r[k].filenames ==> IsFile(fs, Join(r[k].root, f))
    decreases |Longer(fs, |top|)|, 0, |ds|
  {
    if ds == [] then []
    else
      assert ds[0] in ds;
      assert ChildDir(fs, top, ds[0]);
      var c := Join(top, ds[0]);
      JoinName(top, ds[0]);
      LongerShrinks(fs, top, c);
      var first := Walk(fs, c);
      var rest := WalkChildren(fs, top, ds[1..]);
      StepsAppend(fs, first, rest);
      first + rest
  }

  /** `next(os.walk(root))[1]`, or `[]` when the walk yields nothing (the
      `StopIteration` is caught): the sub-directories of `root` in listing
      order. */
  function SubDirs(fs: FileSystem, root: string): (r: seq<string>)
    ensures forall x :: x in r ==> IsDir(fs, Join(root, x))
  {
    if IsDir(fs, root) then OnlyDirs(fs, root, fs.dirs[root]) else []
  }

  /** These are the directory names of the walk's first step. */
  lemma SubDirsIsFirstStep(fs: FileSystem, root: string)
    requires WellFormed(fs)
    ensures SubDirs(fs, root) == (var w := Walk(fs, root); if w == [] then [] else w[0].dirnames)
  {
  }
}
