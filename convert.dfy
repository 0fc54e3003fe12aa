/** The media converter: extension replacement, the extension filter, the
    walk that collects matching files, constructor validation, and the
    progress numbering of `handle`. Image and video conversion themselves
    (thumbnailing, copying, ffmpeg) are not modelled. */
module Convert {
  import opened Wrappers
  import opened PyStr
  import opened PyPath
  import opened LocalFs

  /** `DEFAULT_RESIZE_IMG_SIZE`. */
  const DefaultResizeImgSize := (800, 600)

  /** `ext.split(".")[-1]`: the text after the last dot of `ext`, or all of
      `ext` when it has none. */
  function LastComponent(ext: string): (r: string)
    ensures '.' !in r
    ensures |r| <= |ext| && ext[|ext| - |r|..] == r
    ensures |r| < |ext| ==> ext[|ext| - |r| - 1] == '.'
  {
    var i := LastIndex(ext, '.');
    AbsentAfter(ext, '.', i);
    ext[i + 1..]
  }

  /** `replace_ext(filepath, ext)`: the path without its extension, a dot,
      and the last component of `ext`. */
  function ReplaceExt(filepath: string, ext: string): string
  {
    SplitExt(filepath).0 + "." + LastComponent(ext)
  }

  /** Appending text without `c` leaves the last `c` where it was. */
  lemma LastIndexAppend(b: string, t: string, c: char)
    requires c !in t
    ensures LastIndex(b + t, c) == LastIndex(b, c)
  {
    var i := LastIndex(b, c);
    var q := b + t;
    forall k | i < k < |q| ensures q[k] != c {
      if k >= |b| {
        assert q[k] == t[k - |b|];
      }
    }
    LastIndexIs(q, c, i);
  }

  lemma SuffixIndex(b: string, base: string, m: nat)
    requires |base| <= |b| && b[|b| - |base|..] == base && m < |base|
    ensures b[|b| - |base| + m] == base[m]
  {
    assert b[|b| - |base|..][m] == base[m];
  }

  lemma PrefixIndex(b: string, t: string, k: nat)
    requires k < |b|
    ensures (b + t)[k] == b[k]
  {
  }

  /** A stem whose last component is not all dots, followed by a dot and a
      name without dots or slashes, splits back into the stem and that
      extension. */
  lemma SplitExtOfStem(b: string, e: string)
    requires e != "" && '.' !in e && '/' !in e
    requires HasNonDot(Basename(b))
    ensures SplitExt(b + "." + e) == (b, "." + e)
  {
    var q := b + "." + e;
    StemIndices(b, e);
    var k := NonDotAfterSlash(b);
    PrefixIndex(b, "." + e, k);
    assert q == b + ("." + e);
    SplitExtAt(q, LastIndex(b, '/'), |b|, k);
    assert q[..|b|] == b && q[|b|..] == "." + e;
  }

  lemma StemIndices(b: string, e: string)
    requires '.' !in e && '/' !in e
    ensures LastIndex(b + "." + e, '.') == |b|
    ensures LastIndex(b + "." + e, '/') == LastIndex(b, '/')
  {
    DotIndex(b, e);
    SlashIndex(b, e);
  }

  lemma SlashIndex(b: string, e: string)
    requires '/' !in e
    ensures LastIndex(b + "." + e, '/') == LastIndex(b, '/')
  {
    var t := "." + e;
    assert '/' !in t by {
      assert t == ['.'] + e;
    }
    assert b + "." + e == b + t;
    LastIndexAppend(b, t, '/');
  }

  lemma DotIndex(b: string, e: string)
    requires '.' !in e
    ensures LastIndex(b + "." + e, '.') == |b|
  {
    var t := "." + e;
    assert t[1..] == e;
    assert b + "." + e == b + t;
    LastIndexAt(b, t, '.');
  }

  /** A text starting with its only `c` puts the last `c` just after `b`. */
  lemma LastIndexAt(b: string, t: string, c: char)
    requires t != [] && t[0] == c && c !in t[1..]
    ensures LastIndex(b + t, c) == |b|
  {
    var q := b + t;
    forall k | |b| < k < |q| ensures q[k] != c {
      assert q[k] == t[1..][k - |b| - 1];
    }
    LastIndexIs(q, c, |b|);
  }

  /** A non-dot character of the base name lies after the last slash. */
  lemma NonDotAfterSlash(b: string) returns (k: nat)
    requires HasNonDot(Basename(b))
    ensures LastIndex(b, '/') + 1 <= k < |b| && b[k] != '.'
  {
    BasenameAfterLastSlash(b);
    var base := Basename(b);
    var m :| 0 <= m < |base| && base[m] != '.';
    k := |b| - |base| + m;
    SuffixIndex(b, base, m);
  }

  /** `replace_ext` does what its name says: `splitext` of the result gives
      the original path's stem and the new extension, provided the new
      extension is a non-empty name and the stem's last component is not all
      dots (where `splitext` would not see an extension). */
  lemma ReplaceExtSplit(filepath: string, ext: string)
    requires '/' !in ext && LastComponent(ext) != ""
    requires HasNonDot(Basename(SplitExt(filepath).0))
    ensures SplitExt(ReplaceExt(filepath, ext)) == (SplitExt(filepath).0, "." + LastComponent(ext))
  {
    var e := LastComponent(ext);
    AbsentFromSuffix(ext, e, '/');
    SplitExtOfStem(SplitExt(filepath).0, e);
  }

  /** A character missing from a text is missing from its suffixes. */
  lemma AbsentFromSuffix(s: string, t: string, c: char)
    requires c !in s && |t| <= |s| && s[|s| - |t|..] == t
    ensures c !in t
  {
    forall k | 0 <= k < |t| ensures t[k] != c {
      assert t[k] == s[|s| - |t| + k];
    }
  }

  /** What the converter's constructor raises. */
  datatype ConvertError = BothPathsRequired | NoDirectory(path: string) | NoExtension | ExtTypeError | NothingToConvert

  /** The text of each error. `ExtTypeError` is the `TypeError` that `[*None]`
      raises, worded as CPython up to 3.8 words it; CPython 3.9 and later say
      "Value after * must be an iterable, not NoneType" instead. */
  function Message(e: ConvertError): string
  {
    match e
    case BothPathsRequired => "You have to choose both \"Media root\" and \"Output path\"."
    case NoDirectory(p) => "There is no directory: " + p
    case NoExtension => "You have to provide at least one image or video extension."
    case ExtTypeError => "'NoneType' object is not iterable"
    case NothingToConvert =>
      "There is nothing to convert. Better check your \"Media root\" path and selected image and video extensions."
  }

  /** `filter_files(filenames, src_ext)`: `[*src_ext]` is evaluated once per
      name, so a missing list raises `TypeError` only when there is a name. */
  function FilterFiles(filenames: seq<string>, srcExt: Option<seq<string>>): (r: Result<seq<string>, ConvertError>)
    ensures r.Failure? <==> srcExt.None? && filenames != []
    ensures r.Failure? ==> r.error == ExtTypeError
    ensures r.Success? ==> r.value == FilterByExt(filenames, srcExt.GetOr([]))
  {
    match srcExt
    case Some(exts) => Success(FilterByExt(filenames, exts))
    case None => if filenames == [] then Success([]) else Failure(ExtTypeError)
  }

  /** The path a match is recorded under: joined, backslashes made slashes. */
  function MatchPath(root: string, name: string): string
  {
    ReplaceChar(Join(root, name), '\\', '/')
  }

  /** The matches of one walk step, in the order of `names`. */
  function StepMatches(root: string, names: seq<string>): (r: seq<string>)
    ensures |r| == |names|
  {
    if names == [] then []
    else StepMatches(root, names[..|names| - 1]) + [MatchPath(root, names[|names| - 1])]
  }

  /** Each match is its name joined to the step's root, with no backslash
      left. */
  lemma {:induction false} StepMatchesAt(root: string, names: seq<string>)
    ensures forall i :: 0 <= i < |names| ==> StepMatches(root, names)[i] == MatchPath(root, names[i])
    ensures forall i :: 0 <= i < |names| ==> '\\' !in StepMatches(root, names)[i]
  {
    if names != [] {
      var init := names[..|names| - 1];
      StepMatchesAt(root, init);
      forall i | 0 <= i < |names| ensures '\\' !in MatchPath(root, names[i]) {
        var p := MatchPath(root, names[i]);
        forall j | 0 <= j < |p| ensures p[j] != '\\' {
        }
      }
    }
  }

  /** `get_matches(src_ext)` over the steps of the walk, in walk order; the
      first step whose filter raises makes the whole call raise. */
  function WalkMatches(steps: seq<WalkStep>, srcExt: Option<seq<string>>): Result<seq<string>, ConvertError>
  {
    if steps == [] then Success([])
    else
      var last := steps[|steps| - 1];
      match WalkMatches(steps[..|steps| - 1], srcExt)
      case Failure(e) => Failure(e)
      case Success(ms) =>
        match FilterFiles(last.filenames, srcExt)
        case Failure(e) => Failure(e)
        case Success(kept) => Success(ms + StepMatches(last.root, kept))
  }

  /** With an extension list the walk cannot raise, and it finds one match
      per accepted file name of every step. */
  lemma {:induction false} WalkMatchesCount(steps: seq<WalkStep>, exts: seq<string>)
    ensures WalkMatches(steps, Some(exts)).Success?
    ensures |WalkMatches(steps, Some(exts)).value| == SumAccepted(steps, exts)
  {
    if steps != [] {
      WalkMatchesCount(steps[..|steps| - 1], exts);
    }
  }

  /** The number of accepted file names over all steps. */
  function SumAccepted(steps: seq<WalkStep>, exts: seq<string>): nat
  {
    if steps == [] then 0
    else SumAccepted(steps[..|steps| - 1], exts) + |FilterByExt(steps[|steps| - 1].filenames, exts)|
  }

  /** A missing list raises exactly when some step reports a file name. */
  lemma {:induction false} WalkMatchesNone(steps: seq<WalkStep>)
    ensures WalkMatches(steps, None).Failure? <==> exists k :: 0 <= k < |steps| && steps[k].filenames != []
    ensures WalkMatches(steps, None).Success? ==> WalkMatches(steps, None).value == []
  {
    if steps != [] {
      var init := steps[..|steps| - 1];
      WalkMatchesNone(init);
      if exists k :: 0 <= k < |init| && init[k].filenames != [] {
        var k :| 0 <= k < |init| && init[k].filenames != [];
        assert steps[k] == init[k];
      }
      if exists k :: 0 <= k < |steps| && steps[k].filenames != [] {
        var k :| 0 <= k < |steps| && steps[k].filenames != [];
        if k < |init| {
          assert init[k] == steps[k];
        }
      }
    }
  }

  /** `get_matches(src_ext)`: the loop over the walk of the media root. */
  method GetMatches(fs: FileSystem, mediaRoot: string, srcExt: Option<seq<string>>) returns (r: Result<seq<string>, ConvertError>)
    requires WellFormed(fs)
    ensures r == WalkMatches(Walk(fs, mediaRoot), srcExt)
  {
    r := MatchSteps(Walk(fs, mediaRoot), srcExt);
  }

  /** The walk loop of `get_matches` over the steps of a walk. */
  method MatchSteps(steps: seq<WalkStep>, srcExt: Option<seq<string>>) returns (r: Result<seq<string>, ConvertError>)
    ensures r == WalkMatches(steps, srcExt)
  {
    var matches: seq<string> := [];
    var k := 0;
    while k < |steps|
      invariant 0 <= k <= |steps|
      invariant WalkMatches(steps[..k], srcExt) == Success(matches)
    {
      WalkMatchesSnoc(steps, srcExt, k);
      var kept := FilterFiles(steps[k].filenames, srcExt);
      if kept.Failure? {
        WalkMatchesFailurePersists(steps, srcExt, k + 1);
        return Failure(kept.error);
      }
      var more := AppendMatches(steps[k].root, kept.value);
      matches := matches + more;
      k := k + 1;
    }
    assert steps[..k] == steps;
    return Success(matches);
  }

  /** One more step of the walk: its filter raises, or its matches follow. */
  lemma WalkMatchesSnoc(steps: seq<WalkStep>, srcExt: Option<seq<string>>, k: nat)
    requires k < |steps| && WalkMatches(steps[..k], srcExt).Success?
    ensures FilterFiles(steps[k].filenames, srcExt).Failure? ==>
      WalkMatches(steps[..k + 1], srcExt) == Failure(FilterFiles(steps[k].filenames, srcExt).error)
    ensures FilterFiles(steps[k].filenames, srcExt).Success? ==>
      WalkMatches(steps[..k + 1], srcExt) ==
        Success(WalkMatches(steps[..k], srcExt).value + StepMatches(steps[k].root, FilterFiles(steps[k].filenames, srcExt).value))
  {
    assert steps[..k + 1][..k] == steps[..k];
  }

  /** Once a prefix of the walk raises, the whole walk raises the same. */
  lemma {:induction false} WalkMatchesFailurePersists(steps: seq<WalkStep>, srcExt: Option<seq<string>>, k: nat)
    requires k <= |steps| && WalkMatches(steps[..k], srcExt).Failure?
    ensures WalkMatches(steps, srcExt) == WalkMatches(steps[..k], srcExt)
    decreases |steps| - k
  {
    if k < |steps| {
      assert steps[..k + 1][..k] == steps[..k];
      WalkMatchesFailurePersists(steps, srcExt, k + 1);
    } else {
      assert steps[..k] == steps;
    }
  }

  /** The loop over one step's kept names. */
  method AppendMatches(root: string, names: seq<string>) returns (ms: seq<string>)
    ensures ms == StepMatches(root, names)
  {
    ms := [];
    var i := 0;
    while i < |names|
      invariant 0 <= i <= |names|
      invariant ms == StepMatches(root, names[..i])
    {
      assert names[..i + 1][..i] == names[..i];
      ms := ms + [MatchPath(root, names[i])];
      i := i + 1;
    }
    assert names[..i] == names;
  }

  /** What the constructor computes or raises, in the source's order: both
      paths, both directories, some extension, the image and the video
      matches, and at least one match. */
  function ConverterInputs(fs: FileSystem, mediaRoot: string, outputPath: string,
                           srcExtImages: Option<seq<string>>, srcExtVideos: Option<seq<string>>): (r: Result<(seq<string>, seq<string>), ConvertError>)
    requires WellFormed(fs)
    ensures r.Success? ==> |r.value.0| + |r.value.1| > 0
    ensures r.Success? <==>
      && mediaRoot != "" && outputPath != "" && IsDir(fs, mediaRoot) && IsDir(fs, outputPath)
      && !(NoExt(srcExtImages) && NoExt(srcExtVideos))
      && WalkMatches(Walk(fs, mediaRoot), srcExtImages).Success? && WalkMatches(Walk(fs, mediaRoot), srcExtVideos).Success?
      && |WalkMatches(Walk(fs, mediaRoot), srcExtImages).value| + |WalkMatches(Walk(fs, mediaRoot), srcExtVideos).value| > 0
  {
    if mediaRoot == "" || outputPath == "" then Failure(BothPathsRequired)
    else if !IsDir(fs, mediaRoot) then Failure(NoDirectory(mediaRoot))
    else if !IsDir(fs, outputPath) then Failure(NoDirectory(outputPath))
    else if NoExt(srcExtImages) && NoExt(srcExtVideos) then Failure(NoExtension)
    else
      match WalkMatches(Walk(fs, mediaRoot), srcExtImages)
      case Failure(e) => Failure(e)
      case Success(images) =>
        match WalkMatches(Walk(fs, mediaRoot), srcExtVideos)
        case Failure(e) => Failure(e)
        case Success(videos) =>
          if |images| + |videos| == 0 then Failure(NothingToConvert) else Success((images, videos))
  }

  /** `(start + k, xs[k])` for each `k`: the callback calls of a loop whose
      counter starts at `start`. */
  function Numbered(xs: seq<string>, start: int): (r: seq<(int, string)>)
    ensures |r| == |xs|
  {
    if xs == [] then []
    else Numbered(xs[..|xs| - 1], start) + [(start + |xs| - 1, xs[|xs| - 1])]
  }

  lemma {:induction false} NumberedAt(xs: seq<string>, start: int)
    ensures forall k :: 0 <= k < |xs| ==> Numbered(xs, start)[k] == (start + k, xs[k])
  {
    if xs != [] {
      var init := xs[..|xs| - 1];
      NumberedAt(init, start);
      assert forall k :: 0 <= k < |init| ==> xs[k] == init[k];
    }
  }

  /** Counting on through a second list continues the first one's numbers. */
  lemma {:induction false} NumberedConcat(a: seq<string>, b: seq<string>, start: int)
    ensures Numbered(a, start) + Numbered(b, start + |a|) == Numbered(a + b, start)
  {
    if b == [] {
      assert a + b == a;
    } else {
      var bi := b[..|b| - 1];
      assert (a + b)[..|a + b| - 1] == a + bi;
      assert (a + b)[|a + b| - 1] == b[|b| - 1];
      NumberedConcat(a, bi, start);
    }
  }

  /** The callback calls of `handle` are numbered 1 to `nfiles`: all images,
      in match order, then all videos. */
  lemma HandleOrder(images: seq<string>, videos: seq<string>)
    ensures var ev := Numbered(images, 1) + Numbered(videos, 1 + |images|);
      && |ev| == |images| + |videos|
      && (forall k :: 0 <= k < |images| ==> ev[k] == (k + 1, images[k]))
      && (forall k :: 0 <= k < |videos| ==> ev[|images| + k] == (|images| + k + 1, videos[k]))
  {
    NumberedAt(images, 1);
    NumberedAt(videos, 1 + |images|);
  }

  /** The position within `n` files numbered from `start` of the file whose
      callback raises, if it is one of them. */
  function StopIndex(raisesAt: Option<int>, start: int, n: nat): (r: Option<nat>)
    ensures r.Some? ==> r.value < n && raisesAt == Some(start + r.value)
    ensures r.None? ==> raisesAt.None? || raisesAt.value < start || raisesAt.value >= start + n
  {
    if raisesAt.Some? && start <= raisesAt.value < start + n then Some(raisesAt.value - start) else None
  }

  /** The raising file among two lists numbered on from `start` is the
      first list's, or else the second list's, shifted past the first. */
  lemma StopIndexConcat(raisesAt: Option<int>, start: int, na: nat, nb: nat)
    ensures StopIndex(raisesAt, start, na + nb) ==
      if StopIndex(raisesAt, start, na).Some? then StopIndex(raisesAt, start, na)
      else if StopIndex(raisesAt, start + na, nb).Some? then Some(na + StopIndex(raisesAt, start + na, nb).value)
      else None
  {
  }

  /** Numbering a prefix gives the prefix of the numbering. */
  lemma NumberedPrefix(xs: seq<string>, start: int, k: nat)
    requires k <= |xs|
    ensures Numbered(xs[..k], start) == Numbered(xs, start)[..k]
  {
    NumberedAt(xs, start);
    NumberedAt(xs[..k], start);
  }

  lemma PrefixOfConcat<T>(a: seq<T>, b: seq<T>, n: nat)
    requires n <= |a| + |b|
    ensures (a + b)[..n] == if n <= |a| then a[..n] else a + b[..n - |a|]
  {
    if n > |a| {
      assert (a + b)[..n] == a + b[..n - |a|];
    }
  }

  class MediaConverter {
    const mediaRoot: string
    const outputPath: string
    const keepMdt: bool
    const resizeImg: bool
    const resizeImgSize: Option<(int, int)>
    const convert2mp4: bool
    const convert2webm: bool
    const srcExtImages: Option<seq<string>>
    const srcExtVideos: Option<seq<string>>
    const overwrite: bool
    const hasCallback: bool
    const matchesImages: seq<string>
    const matchesVideos: seq<string>
    const nfiles: nat
    /** The `(i, path)` arguments of the callback calls, in call order. */
    var events: seq<(int, string)>

    constructor (mediaRoot: string, outputPath: string, keepMdt: bool, resizeImg: bool, resizeImgSize: Option<(int, int)>,
                 convert2mp4: bool, convert2webm: bool, srcExtImages: Option<seq<string>>, srcExtVideos: Option<seq<string>>,
                 overwrite: bool, hasCallback: bool, matchesImages: seq<string>, matchesVideos: seq<string>)
      ensures this.mediaRoot == mediaRoot && this.outputPath == outputPath && this.keepMdt == keepMdt
      ensures this.resizeImg == resizeImg && this.resizeImgSize == resizeImgSize
      ensures this.convert2mp4 == convert2mp4 && this.convert2webm == convert2webm
      ensures this.srcExtImages == srcExtImages && this.srcExtVideos == srcExtVideos
      ensures this.overwrite == overwrite && this.hasCallback == hasCallback
      ensures this.matchesImages == matchesImages && this.matchesVideos == matchesVideos
      ensures nfiles == |matchesImages| + |matchesVideos| && events == []
    {
      this.mediaRoot := mediaRoot;
      this.outputPath := outputPath;
      this.keepMdt := keepMdt;
      this.resizeImg := resizeImg;
      this.resizeImgSize := resizeImgSize;
      this.convert2mp4 := convert2mp4;
      this.convert2webm := convert2webm;
      this.srcExtImages := srcExtImages;
      this.srcExtVideos := srcExtVideos;
      this.overwrite := overwrite;
      this.hasCallback := hasCallback;
      this.matchesImages := matchesImages;
      this.matchesVideos := matchesVideos;
      nfiles := |matchesImages| + |matchesVideos|;
      events := [];
    }

    /** `MediaConverter(...)` as a whole: validation, the default resize
        size, the two match lists, and the "nothing to convert" check. */
    static method New(fs: FileSystem, mediaRoot: string, outputPath: string, keepMdt: bool, resizeImg: bool,
                      resizeImgSize: Option<(int, int)>, convert2mp4: bool, convert2webm: bool,
                      srcExtImages: Option<seq<string>>, srcExtVideos: Option<seq<string>>,
                      overwrite: bool, hasCallback: bool)
      returns (r: Result<MediaConverter, ConvertError>)
      requires WellFormed(fs)
      ensures var spec := ConverterInputs(fs, mediaRoot, outputPath, srcExtImages, srcExtVideos);
        && (r.Failure? <==> spec.Failure?)
        && (r.Failure? ==> r.error == spec.error)
        && (r.Success? ==>
              && fresh(r.value)
              && r.value.matchesImages == spec.value.0 && r.value.matchesVideos == spec.value.1
              && r.value.nfiles == |spec.value.0| + |spec.value.1| && r.value.nfiles > 0
              && r.value.resizeImgSize == (if resizeImg && resizeImgSize.None? then Some(DefaultResizeImgSize) else resizeImgSize)
              && r.value.mediaRoot == mediaRoot && r.value.outputPath == outputPath
              && r.value.hasCallback == hasCallback && r.value.events == [])
    {
      if mediaRoot == "" || outputPath == "" {
        return Failure(BothPathsRequired);
      }
      if !IsDir(fs, mediaRoot) {
        return Failure(NoDirectory(mediaRoot));
      }
      if !IsDir(fs, outputPath) {
        return Failure(NoDirectory(outputPath));
      }
      if NoExt(srcExtImages) && NoExt(srcExtVideos) {
        return Failure(NoExtension);
      }
      var size := resizeImgSize;
      if resizeImg && size.None? {
        size := Some(DefaultResizeImgSize);
      }
      var images := GetMatches(fs, mediaRoot, srcExtImages);
      if images.Failure? {
        return Failure(images.error);
      }
      var videos := GetMatches(fs, mediaRoot, srcExtVideos);
      if videos.Failure? {
        return Failure(videos.error);
      }
      if |images.value| + |videos.value| == 0 {
        return Failure(NothingToConvert);
      }
      var c := new MediaConverter(mediaRoot, outputPath, keepMdt, resizeImg, size, convert2mp4, convert2webm,
                                  srcExtImages, srcExtVideos, overwrite, hasCallback, images.value, videos.value);
      return Success(c);
    }

    /** `handle()` with a callback that raises when it is called with the
        number `raisesAt` (as `ConvertScreen.progress_callback` does once a
        stop is requested): the counter starts at 1 and goes up by one per
        file, through the images and then the videos; the callback hears
        each file with its number before the file is converted, and a raise
        ends `handle` right after that call. */
    method Handle(raisesAt: Option<int>) returns (ok: bool)
      modifies this`events
      ensures var all := matchesImages + matchesVideos;
        var stop := if hasCallback then StopIndex(raisesAt, 1, |all|) else None;
        && (ok <==> stop.None?)
        && events == old(events) +
             (if !hasCallback then [] else if stop.Some? then Numbered(all, 1)[..stop.value + 1] else Numbered(all, 1))
    {
      var images, videos := matchesImages, matchesVideos;
      NumberedConcat(images, videos, 1);
      StopIndexConcat(raisesAt, 1, |images|, |videos|);
      var i;
      i, ok := CountThrough(images, 1, raisesAt);
      if !ok {
        PrefixOfConcat(Numbered(images, 1), Numbered(videos, 1 + |images|), StopIndex(raisesAt, 1, |images|).value + 1);
        return;
      }
      i, ok := CountThrough(videos, i, raisesAt);
      if !ok {
        PrefixOfConcat(Numbered(images, 1), Numbered(videos, 1 + |images|),
                       |images| + StopIndex(raisesAt, 1 + |images|, |videos|).value + 1);
      }
    }

    /** The counter part of one of `handle`'s two loops, numbering `files`
        from `start`. */
    method CountThrough(files: seq<string>, start: int, raisesAt: Option<int>) returns (next: int, ok: bool)
      modifies this`events
      ensures var stop := if hasCallback then StopIndex(raisesAt, start, |files|) else None;
        && (ok <==> stop.None?)
        && (ok ==> next == start + |files|)
        && events == old(events) +
             (if !hasCallback then [] else if stop.Some? then Numbered(files, start)[..stop.value + 1] else Numbered(files, start))
    {
      var i := start;
      var k := 0;
      while k < |files|
        invariant 0 <= k <= |files| && i == start + k
        invariant hasCallback ==> raisesAt.None? || !(start <= raisesAt.value < start + k)
        invariant events == old(events) + (if hasCallback then Numbered(files[..k], start) else [])
      {
        assert files[..k + 1][..k] == files[..k];
        if hasCallback {
          events := events + [(i, files[k])];
          if raisesAt == Some(i) {
            NumberedPrefix(files, start, k + 1);
            return i, false;
          }
        }
        i := i + 1;
        k := k + 1;
      }
      assert files[..k] == files;
      return i, true;
    }
  }
}
