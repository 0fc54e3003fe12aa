/** The rules the screens of the desktop application apply around the
    packager, the FTP client and the Trapper connection: the deployments
    template, the local-against-remote validation, the FTP credentials taken
    from the Trapper settings, the choice of files to upload and the start of
    each transfer, the two progress callbacks and the outcome of the
    processing request. Widgets, popups and threads are not modelled; what a
    screen shows becomes a returned value. */
module App {
  import opened Wrappers
  import opened PyStr
  import opened PyPath
  import opened LocalFs
  import opened TimeNorm
  import opened Manifest
  import opened Ftp

  /** The first `i + 1` elements are the first `i` and element `i`. */
  lemma PrefixSnoc<T>(xs: seq<T>, i: nat)
    requires i < |xs|
    ensures xs[..i + 1][..i] == xs[..i] && xs[..i + 1][i] == xs[i] && |xs[..i + 1]| == i + 1
  {
  }

  lemma PrefixAll<T>(xs: seq<T>)
    ensures xs[..|xs|] == xs
  {
  }

  /** `[v for x in xs if (v := f(x)) is not None]`: the values `f` gives, in
      the order of `xs`. */
  function Somes<T, U>(f: T -> Option<U>, xs: seq<T>): (r: seq<U>)
    ensures |r| <= |xs|
  {
    if xs == [] then []
    else Somes(f, xs[..|xs| - 1]) + (match f(xs[|xs| - 1]) case Some(v) => [v] case None => [])
  }

  lemma SomesSnoc<T, U>(f: T -> Option<U>, xs: seq<T>, i: nat)
    requires i < |xs|
    ensures Somes(f, xs[..i + 1]) == Somes(f, xs[..i]) + (match f(xs[i]) case Some(v) => [v] case None => [])
  {
    PrefixSnoc(xs, i);
  }

  /** Each value comes from one of the elements. */
  lemma {:induction false} SomesFrom<T, U>(f: T -> Option<U>, xs: seq<T>, v: U)
    requires v in Somes(f, xs)
    ensures exists k :: 0 <= k < |xs| && f(xs[k]) == Some(v)
  {
    var n := |xs|;
    var init := xs[..n - 1];
    if v in Somes(f, init) {
      SomesFrom(f, init, v);
      var k :| 0 <= k < |init| && f(init[k]) == Some(v);
      assert xs[k] == init[k];
    }
  }

  /** The value of every element that gives one is kept. */
  lemma {:induction false} SomesComplete<T, U>(f: T -> Option<U>, xs: seq<T>, k: nat)
    requires k < |xs| && f(xs[k]).Some?
    ensures f(xs[k]).value in Somes(f, xs)
  {
    var n := |xs|;
    if k < n - 1 {
      var init := xs[..n - 1];
      assert init[k] == xs[k];
      SomesComplete(f, init, k);
    }
  }

  // ---------------------------------------------------------------------
  // Deployments template
  // ---------------------------------------------------------------------

  /** `dep_id.split("-", 1)[1]`, or `""` when the split gives one part: the
      text after the first dash. */
  function LocationId(depId: string): (r: string)
    ensures '-' !in depId ==> r == ""
    ensures '-' in depId ==> exists p :: '-' !in p && depId == p + "-" + r
  {
    var parts := SplitOnce(depId, "-");
    if |parts| == 2 then
      var p := parts[0];
      assert '-' !in p by {
        forall i | 0 <= i < |p| ensures p[i] != '-' {
          assert !OccursAt(depId, "-", i);
          assert depId[i..i + 1] == [p[i]];
        }
      }
      parts[1]
    else
      assert '-' !in depId by {
        forall i | 0 <= i < |depId| ensures depId[i] != '-' {
          assert !OccursAt(depId, "-", i);
          assert depId[i..i + 1] == [depId[i]];
        }
      }
      ""
  }

  /** The location is read back from `<id>-<location>` when the id has no
      dash of its own, whatever dashes the location holds. */
  lemma LocationIdOf(p: string, q: string)
    requires '-' !in p
    ensures LocationId(p + "-" + q) == q
  {
    var d := p + "-" + q;
    assert OccursAt(d, "-", |p|) by {
      assert d[|p|..|p| + 1] == "-";
    }
    forall i | 0 <= i < |p| ensures !OccursAt(d, "-", i) {
      assert d[i..i + 1] == [p[i]];
    }
    assert Find(d, "-") == Some(|p|);
    assert d[|p| + 1..] == q;
  }

  /** What the template reads: the file system, the media root, the zone
      and its "ignore DST" setting, and the selected image and video
      extensions. */
  datatype TemplateSettings = TemplateSettings(
    fs: FileSystem,
    mediaRoot: string,
    zone: Zone,
    ignoreDst: bool,
    imageExt: seq<string>,
    videoExt: seq<string>)

  /** One row of the deployments template. */
  datatype TemplateRow = TemplateRow(deploymentId: string, locationId: string, start: int, end: int)

  /** The file is a selected image or a selected video. */
  predicate IsMedia(s: TemplateSettings, name: string)
  {
    HasExt(name, s.imageExt) || HasExt(name, s.videoExt)
  }

  /** The recorded instant of one file of a directory: an image's capture
      tag (its modification time when the tag cannot be read), a video's
      modification time, made aware in the zone; `None` for any other file.
      Every name a walk reports is a file, so the first branch is the case
      of a name that is not one. */
  function FileDate(s: TemplateSettings, root: string, name: string): (r: Option<int>)
    ensures r.Some? <==> IsFile(s.fs, Join(root, name)) && IsMedia(s, name)
  {
    var path := Join(root, name);
    if path !in s.fs.files then None
    else if HasExt(name, s.imageExt) then Some(CaptureInstant(s.zone, s.ignoreDst, NaiveCaptureTime(s.fs.files[path], true)))
    else if HasExt(name, s.videoExt) then Some(CaptureInstant(s.zone, s.ignoreDst, s.fs.files[path].mtime))
    else None
  }

  /** `FileDate` for the files of `root`. */
  function DateOf(s: TemplateSettings, root: string): string -> Option<int>
  {
    name => FileDate(s, root, name)
  }

  /** `rdates`: the instants of the media files of a directory, in listing
      order. */
  function Dates(s: TemplateSettings, root: string, names: seq<string>): seq<int>
  {
    Somes(DateOf(s, root), names)
  }

  /** Every name of the listing is a file under `root`. */
  predicate ListedFiles(fs: FileSystem, root: string, names: seq<string>)
  {
    forall k :: 0 <= k < |names| ==> IsFile(fs, Join(root, names[k]))
  }

  /** When the names are files there is one instant per selected image or
      video among them. */
  lemma {:induction false} DatesCount(s: TemplateSettings, root: string, names: seq<string>)
    requires ListedFiles(s.fs, root, names)
    ensures |Dates(s, root, names)| == |FilterByExt(names, s.imageExt + s.videoExt)|
  {
    if names != [] {
      var n := |names|;
      var init := names[..n - 1];
      assert ListedFiles(s.fs, root, init) by {
        forall k | 0 <= k < |init| ensures IsFile(s.fs, Join(root, init[k])) {
          assert init[k] == names[k];
        }
      }
      DatesCount(s, root, init);
      SomesSnoc(DateOf(s, root), names, n - 1);
      PrefixAll(names);
      FilterByExtSnoc(names, s.imageExt + s.videoExt);
      HasExtConcat(names[n - 1], s.imageExt, s.videoExt);
      assert DateOf(s, root)(names[n - 1]) == FileDate(s, root, names[n - 1]);
    }
  }

  /** Each instant is the instant of one of the names. */
  lemma DatesFrom(s: TemplateSettings, root: string, names: seq<string>, d: int)
    requires d in Dates(s, root, names)
    ensures exists k :: 0 <= k < |names| && FileDate(s, root, names[k]) == Some(d)
  {
    SomesFrom(DateOf(s, root), names, d);
    var k :| 0 <= k < |names| && DateOf(s, root)(names[k]) == Some(d);
    assert FileDate(s, root, names[k]) == Some(d);
  }

  /** `min(rdates)`. */
  function MinOf(xs: seq<int>): (m: int)
    requires xs != []
    ensures m in xs
    ensures forall k :: 0 <= k < |xs| ==> m <= xs[k]
  {
    if |xs| == 1 then xs[0]
    else
      var t := MinOf(xs[1..]);
      if xs[0] <= t then xs[0] else t
  }

  /** `max(rdates)`. */
  function MaxOf(xs: seq<int>): (m: int)
    requires xs != []
    ensures m in xs
    ensures forall k :: 0 <= k < |xs| ==> xs[k] <= m
  {
    if |xs| == 1 then xs[0]
    else
      var t := MaxOf(xs[1..]);
      if xs[0] >= t then xs[0] else t
  }

  /** The row a directory of a collection's walk contributes: none for the
      collection's own directory, for a directory without files or for one
      without media files; otherwise the directory's name, the location
      derived from it, and the earliest and latest instants of its media
      files. */
  function StepRow(s: TemplateSettings, col: string, step: WalkStep): (r: Option<TemplateRow>)
    ensures r.None? <==> Basename(step.root) == col || |Dates(s, step.root, step.filenames)| == 0
  {
    var dep := Basename(step.root);
    if dep == col || step.filenames == [] then None
    else
      var ds := Dates(s, step.root, step.filenames);
      if ds == [] then None
      else Some(TemplateRow(dep, LocationId(dep), MinOf(ds), MaxOf(ds)))
  }

  /** A row is the directory's name, which is not the collection's, the
      location derived from that name, and a start and an end that are the
      least and the greatest of the instants of the directory's media files. */
  lemma StepRowFacts(s: TemplateSettings, col: string, step: WalkStep, row: TemplateRow)
    requires StepRow(s, col, step) == Some(row)
    ensures step.filenames != []
    ensures row.deploymentId == Basename(step.root) != col
    ensures row.locationId == LocationId(row.deploymentId)
    ensures row.start <= row.end
    ensures row.start in Dates(s, step.root, step.filenames)
    ensures row.end in Dates(s, step.root, step.filenames)
    ensures forall k :: 0 <= k < |Dates(s, step.root, step.filenames)| ==>
      row.start <= Dates(s, step.root, step.filenames)[k] <= row.end
  {
    var ds := Dates(s, step.root, step.filenames);
    assert row == TemplateRow(Basename(step.root), LocationId(Basename(step.root)), MinOf(ds), MaxOf(ds));
  }

  /** `StepRow` for the steps of the walk of `col`. */
  function RowOf(s: TemplateSettings, col: string): WalkStep -> Option<TemplateRow>
  {
    step => StepRow(s, col, step)
  }

  /** The rows of one collection's walk, in walk order. */
  function Rows(s: TemplateSettings, col: string, steps: seq<WalkStep>): seq<TemplateRow>
  {
    Somes(RowOf(s, col), steps)
  }

  /** A collection's rows are exactly the rows its steps contribute. */
  lemma RowsExactly(s: TemplateSettings, col: string, steps: seq<WalkStep>, row: TemplateRow)
    ensures row in Rows(s, col, steps) <==> exists k :: 0 <= k < |steps| && StepRow(s, col, steps[k]) == Some(row)
  {
    if row in Rows(s, col, steps) {
      SomesFrom(RowOf(s, col), steps, row);
      var k :| 0 <= k < |steps| && RowOf(s, col)(steps[k]) == Some(row);
      assert StepRow(s, col, steps[k]) == Some(row);
    }
    if exists k :: 0 <= k < |steps| && StepRow(s, col, steps[k]) == Some(row) {
      var k :| 0 <= k < |steps| && StepRow(s, col, steps[k]) == Some(row);
      assert RowOf(s, col)(steps[k]) == Some(row);
      SomesComplete(RowOf(s, col), steps, k);
    }
  }

  /** The walk of the collection `col` under the media root. */
  function CollectionWalk(s: TemplateSettings, col: string): seq<WalkStep>
    requires WellFormed(s.fs)
  {
    Walk(s.fs, Join(s.mediaRoot, col))
  }

  /** The template's rows: the rows of each collection's walk, collection
      by collection. */
  function TemplateRows(s: TemplateSettings, cols: seq<string>): (r: seq<TemplateRow>)
    requires WellFormed(s.fs)
  {
    if cols == [] then []
    else
      var n := |cols|;
      TemplateRows(s, cols[..n - 1]) + Rows(s, cols[n - 1], CollectionWalk(s, cols[n - 1]))
  }

  lemma TemplateRowsSnoc(s: TemplateSettings, cols: seq<string>, i: nat)
    requires WellFormed(s.fs) && i < |cols|
    ensures TemplateRows(s, cols[..i + 1]) == TemplateRows(s, cols[..i]) + Rows(s, cols[i], CollectionWalk(s, cols[i]))
  {
    PrefixSnoc(cols, i);
  }

  /** A template row comes from a directory inside one of the collections:
      the directory is not the collection's own, it holds media files, its
      start and end are the least and greatest of their instants, and its
      location is derived from its name. */
  lemma {:induction false} TemplateRowFacts(s: TemplateSettings, cols: seq<string>, row: TemplateRow)
    requires WellFormed(s.fs)
    requires row in TemplateRows(s, cols)
    ensures row.start <= row.end
    ensures row.locationId == LocationId(row.deploymentId)
    ensures exists j, k ::
      && 0 <= j < |cols| && 0 <= k < |CollectionWalk(s, cols[j])|
      && StepRow(s, cols[j], CollectionWalk(s, cols[j])[k]) == Some(row)
  {
    var n := |cols|;
    if row in TemplateRows(s, cols[..n - 1]) {
      TemplateRowFacts(s, cols[..n - 1], row);
      var j, k :|
        && 0 <= j < n - 1 && 0 <= k < |CollectionWalk(s, cols[..n - 1][j])|
        && StepRow(s, cols[..n - 1][j], CollectionWalk(s, cols[..n - 1][j])[k]) == Some(row);
      assert cols[..n - 1][j] == cols[j];
    } else {
      var w := CollectionWalk(s, cols[n - 1]);
      RowsExactly(s, cols[n - 1], w, row);
      var k :| 0 <= k < |w| && StepRow(s, cols[n - 1], w[k]) == Some(row);
      StepRowFacts(s, cols[n - 1], w[k], row);
    }
  }

  /** `rdates` for one directory: the loop over its file names. */
  method CollectDates(s: TemplateSettings, root: string, filenames: seq<string>) returns (rdates: seq<int>)
    ensures rdates == Dates(s, root, filenames)
  {
    rdates := [];
    var i := 0;
    while i < |filenames|
      invariant 0 <= i <= |filenames|
      invariant rdates == Dates(s, root, filenames[..i])
    {
      SomesSnoc(DateOf(s, root), filenames, i);
      var name := filenames[i];
      var path := Join(root, name);
      if path in s.fs.files {
        if HasExt(name, s.imageExt) {
          rdates := rdates + [CaptureInstant(s.zone, s.ignoreDst, NaiveCaptureTime(s.fs.files[path], true))];
        } else if HasExt(name, s.videoExt) {
          rdates := rdates + [CaptureInstant(s.zone, s.ignoreDst, s.fs.files[path].mtime)];
        }
      }
      i := i + 1;
    }
    PrefixAll(filenames);
  }

  /** The body of the walk loop for one directory: skip the collection's
      own directory and a directory without files, collect the dates, and
      make the row when there are any. */
  method DirectoryRow(s: TemplateSettings, col: string, step: WalkStep) returns (row: Option<TemplateRow>)
    ensures row == StepRow(s, col, step)
  {
    var dep := Basename(step.root);
    if dep == col || step.filenames == [] {
      return None;
    }
    var rdates := CollectDates(s, step.root, step.filenames);
    if rdates == [] {
      return None;
    }
    return Some(TemplateRow(dep, LocationId(dep), MinOf(rdates), MaxOf(rdates)));
  }

  /** The rows of one collection: the loop over its walk. */
  method CollectionRows(s: TemplateSettings, col: string) returns (rows: seq<TemplateRow>)
    requires WellFormed(s.fs)
    ensures rows == Rows(s, col, CollectionWalk(s, col))
  {
    var steps := Walk(s.fs, Join(s.mediaRoot, col));
    rows := [];
    var i := 0;
    while i < |steps|
      invariant 0 <= i <= |steps|
      invariant rows == Rows(s, col, steps[..i])
    {
      SomesSnoc(RowOf(s, col), steps, i);
      var row := DirectoryRow(s, col, steps[i]);
      assert RowOf(s, col)(steps[i]) == row;
      if row.Some? {
        rows := rows + [row.value];
      }
      i := i + 1;
    }
    PrefixAll(steps);
  }

  /** `get_deployments_csv_template`: the rows of every collection, in
      collection order. */
  method DeploymentsTemplate(s: TemplateSettings, cols: seq<string>) returns (rows: seq<TemplateRow>)
    requires WellFormed(s.fs)
    ensures rows == TemplateRows(s, cols)
  {
    rows := [];
    var i := 0;
    while i < |cols|
      invariant 0 <= i <= |cols|
      invariant rows == TemplateRows(s, cols[..i])
    {
      TemplateRowsSnoc(s, cols, i);
      var more := CollectionRows(s, cols[i]);
      rows := rows + more;
      i := i + 1;
    }
    PrefixAll(cols);
  }

  // ---------------------------------------------------------------------
  // Validation of local deployments against Trapper's
  // ---------------------------------------------------------------------

  /** The deployments (sub-directories) of a collection under the media
      root. */
  function LocalDeps(fs: FileSystem, mediaRoot: string, col: string): seq<string>
  {
    SubDirs(fs, Join(mediaRoot, col))
  }

  /** The index of the first collection without deployments. */
  function FirstEmpty(fs: FileSystem, mediaRoot: string, cols: seq<string>): (r: Option<nat>)
    ensures r.Some? ==> r.value < |cols| && |LocalDeps(fs, mediaRoot, cols[r.value])| == 0
    ensures r.Some? ==> forall j :: 0 <= j < r.value ==> |LocalDeps(fs, mediaRoot, cols[j])| > 0
    ensures r.None? ==> forall j :: 0 <= j < |cols| ==> |LocalDeps(fs, mediaRoot, cols[j])| > 0
  {
    if cols == [] then None
    else if |LocalDeps(fs, mediaRoot, cols[0])| == 0 then Some(0)
    else
      match FirstEmpty(fs, mediaRoot, cols[1..])
      case None => None
      case Some(i) => Some(i + 1)
  }

  /** The first collection without deployments is the one every earlier
      collection precedes with deployments of its own. */
  lemma FirstEmptyIs(fs: FileSystem, mediaRoot: string, cols: seq<string>, i: nat)
    requires i < |cols| && |LocalDeps(fs, mediaRoot, cols[i])| == 0
    requires forall j :: 0 <= j < i ==> |LocalDeps(fs, mediaRoot, cols[j])| > 0
    ensures FirstEmpty(fs, mediaRoot, cols) == Some(i)
  {
  }

  lemma HaveDepsStep(fs: FileSystem, mediaRoot: string, cols: seq<string>, i: nat)
    requires i < |cols| && |LocalDeps(fs, mediaRoot, cols[i])| > 0
    requires forall j :: 0 <= j < i ==> |LocalDeps(fs, mediaRoot, cols[j])| > 0
    ensures forall j :: 0 <= j < i + 1 ==> |LocalDeps(fs, mediaRoot, cols[j])| > 0
  {
  }

  /** `zip([col] * n, [k for k in local_deps if k not in trapper_deps])`. */
  function Missing(col: string, local: seq<string>, remote: seq<string>): (r: seq<(string, string)>)
    ensures |r| <= |local|
  {
    if local == [] then []
    else
      var k := local[|local| - 1];
      Missing(col, local[..|local| - 1], remote) + (if k !in remote then [(col, k)] else [])
  }

  /** The pairs are the collection with each of its local deployments
      Trapper does not know. */
  lemma {:induction false} MissingExactly(col: string, local: seq<string>, remote: seq<string>, e: (string, string))
    ensures e in Missing(col, local, remote) <==> e.0 == col && e.1 in local && e.1 !in remote
  {
    if local != [] {
      var init := local[..|local| - 1];
      MissingExactly(col, init, remote, e);
      assert local == init + [local[|local| - 1]];
    }
  }

  /** `errors` after the loop has run over `cols`. */
  function Errors(fs: FileSystem, mediaRoot: string, cols: seq<string>, remote: seq<string>): seq<(string, string)>
  {
    if cols == [] then []
    else
      var n := |cols|;
      Errors(fs, mediaRoot, cols[..n - 1], remote) + Missing(cols[n - 1], LocalDeps(fs, mediaRoot, cols[n - 1]), remote)
  }

  lemma ErrorsSnoc(fs: FileSystem, mediaRoot: string, cols: seq<string>, remote: seq<string>, i: nat)
    requires i < |cols|
    ensures Errors(fs, mediaRoot, cols[..i + 1], remote) ==
      Errors(fs, mediaRoot, cols[..i], remote) + Missing(cols[i], LocalDeps(fs, mediaRoot, cols[i]), remote)
  {
    PrefixSnoc(cols, i);
  }

  /** An error names a selected collection and one of its local deployments
      Trapper does not know, and every such pair is an error. */
  lemma {:induction false} ErrorsExactly(fs: FileSystem, mediaRoot: string, cols: seq<string>, remote: seq<string>, e: (string, string))
    ensures e in Errors(fs, mediaRoot, cols, remote) <==>
      e.0 in cols && e.1 in LocalDeps(fs, mediaRoot, e.0) && e.1 !in remote
  {
    if cols != [] {
      var n := |cols|;
      var init := cols[..n - 1];
      ErrorsExactly(fs, mediaRoot, init, remote, e);
      MissingExactly(cols[n - 1], LocalDeps(fs, mediaRoot, cols[n - 1]), remote, e);
      assert cols == init + [cols[n - 1]];
    }
  }

  /** What `validate` ends with. */
  datatype ValidateOutcome =
    | EmptyCollection(col: string)
    | MissingDeployments(errors: seq<(string, string)>)
    | Validated

  /** The first collection without deployments stops the validation, before
      any error is reported; otherwise the missing deployments, if any, are
      reported all together. */
  function ValidateOutcomeOf(fs: FileSystem, mediaRoot: string, cols: seq<string>, remote: seq<string>): ValidateOutcome
  {
    match FirstEmpty(fs, mediaRoot, cols)
    case Some(i) => EmptyCollection(cols[i])
    case None =>
      var errors := Errors(fs, mediaRoot, cols, remote);
      if errors == [] then Validated else MissingDeployments(errors)
  }

  /** The data is validated exactly when every selected collection has a
      deployment and Trapper knows every local deployment. */
  lemma ValidatedIff(fs: FileSystem, mediaRoot: string, cols: seq<string>, remote: seq<string>)
    ensures ValidateOutcomeOf(fs, mediaRoot, cols, remote) == Validated <==>
      && (forall j :: 0 <= j < |cols| ==> |LocalDeps(fs, mediaRoot, cols[j])| > 0)
      && (forall j, k :: 0 <= j < |cols| && k in LocalDeps(fs, mediaRoot, cols[j]) ==> k in remote)
  {
    var errors := Errors(fs, mediaRoot, cols, remote);
    if forall j :: 0 <= j < |cols| ==> |LocalDeps(fs, mediaRoot, cols[j])| > 0 {
      assert FirstEmpty(fs, mediaRoot, cols).None?;
      if errors != [] {
        var e := errors[0];
        ErrorsExactly(fs, mediaRoot, cols, remote, e);
        var j :| 0 <= j < |cols| && cols[j] == e.0;
      } else {
        forall j, k | 0 <= j < |cols| && k in LocalDeps(fs, mediaRoot, cols[j]) ensures k in remote {
          ErrorsExactly(fs, mediaRoot, cols, remote, (cols[j], k));
        }
      }
    } else {
      var j :| 0 <= j < |cols| && |LocalDeps(fs, mediaRoot, cols[j])| == 0;
      assert FirstEmpty(fs, mediaRoot, cols).Some?;
    }
  }

  /** The validation state of the package screen. */
  class PackageScreen {
    var validated: bool

    constructor ()
      ensures !validated
    {
      validated := false;
    }

    /** `validate()`, after the connections are checked and Trapper's
      deployment ids `remote` are fetched: returns 0 and marks the data
      validated, or returns 1 and marks it not validated. */
    method Validate(fs: FileSystem, mediaRoot: string, cols: seq<string>, remote: seq<string>)
      returns (code: int, outcome: ValidateOutcome)
      modifies this`validated
      ensures outcome == ValidateOutcomeOf(fs, mediaRoot, cols, remote)
      ensures code == (if outcome == Validated then 0 else 1)
      ensures validated <==> code == 0
    {
      var errors := [];
      var i := 0;
      while i < |cols|
        invariant 0 <= i <= |cols|
        invariant forall j :: 0 <= j < i ==> |LocalDeps(fs, mediaRoot, cols[j])| > 0
        invariant errors == Errors(fs, mediaRoot, cols[..i], remote)
      {
        ErrorsSnoc(fs, mediaRoot, cols, remote, i);
        var localDeps := LocalDeps(fs, mediaRoot, cols[i]);
        if |localDeps| == 0 {
          FirstEmptyIs(fs, mediaRoot, cols, i);
          validated := false;
          return 1, EmptyCollection(cols[i]);
        }
        errors := errors + Missing(cols[i], localDeps, remote);
        HaveDepsStep(fs, mediaRoot, cols, i);
        i := i + 1;
      }
      PrefixAll(cols);
      if |errors| > 0 {
        validated := false;
        return 1, MissingDeployments(errors);
      }
      validated := true;
      return 0, Validated;
    }
  }

  // ---------------------------------------------------------------------
  // FTP credentials taken from the Trapper settings
  // ---------------------------------------------------------------------

  /** The FTP host: the setting when it is non-empty; otherwise, with a
      Trapper host, the part of it after the first `//` (`None` for the
      `IndexError` a host without `//` raises). */
  function DeriveHost(setting: string, trapperHost: string): (r: Option<string>)
    ensures setting != "" || trapperHost == "" ==> r == Some(setting)
    ensures setting == "" && trapperHost != "" ==>
      (r.None? <==> Find(trapperHost, "//").None?)
    ensures setting == "" && r.Some? && trapperHost != "" ==>
      exists p :: trapperHost == p + "//" + r.value && forall i :: 0 <= i < |p| ==> !OccursAt(trapperHost, "//", i)
  {
    if setting == "" && trapperHost != "" then
      var parts := SplitOnce(trapperHost, "//");
      if |parts| == 2 then Some(parts[1]) else None
    else Some(setting)
  }

  /** A URL `scheme://rest` whose scheme has no slash gives `rest`. */
  lemma DeriveHostOfUrl(scheme: string, rest: string)
    requires '/' !in scheme
    ensures DeriveHost("", scheme + "//" + rest) == Some(rest)
  {
    var u := scheme + "//" + rest;
    assert OccursAt(u, "//", |scheme|) by {
      assert u[|scheme|..|scheme| + 2] == "//";
    }
    forall i | 0 <= i < |scheme| ensures !OccursAt(u, "//", i) {
      if i + 2 <= |u| {
        assert u[i..i + 2][0] == scheme[i];
      }
    }
    assert Find(u, "//") == Some(|scheme|);
    assert u[|scheme| + 2..] == rest;
  }

  /** The FTP login: the setting when it is non-empty; otherwise the part of
      the Trapper login before its first `@`. */
  function DeriveLogin(setting: string, trapperLogin: string): (r: string)
    ensures setting != "" || trapperLogin == "" ==> r == setting
    ensures setting == "" && trapperLogin != "" ==>
      && '@' !in r
      && |r| <= |trapperLogin| && trapperLogin[..|r|] == r
      && ('@' in trapperLogin ==> trapperLogin[|r|] == '@')
      && ('@' !in trapperLogin ==> r == trapperLogin)
  {
    if setting == "" && trapperLogin != "" then
      if '@' in trapperLogin then
        var i := IndexOf(trapperLogin, '@');
        assert SplitChar(trapperLogin, '@')[0] == trapperLogin[..i];
        SplitChar(trapperLogin, '@')[0]
      else SplitChar(trapperLogin, '@')[0]
    else setting
  }

  /** The user part of `user@domain` is the FTP login. */
  lemma DeriveLoginOfAddress(user: string, domain: string)
    requires '@' !in user
    ensures DeriveLogin("", user + "@" + domain) == user
  {
    var a := user + "@" + domain;
    assert a[|user|] == '@';
    assert a[..|user|] == user;
    var i := IndexOf(a, '@');
    assert i == |user| by {
      assert forall k :: 0 <= k < |user| ==> a[k] == user[k];
      assert a[..i + 1][i] == '@';
    }
  }

  /** The settings the screen manager keeps. */
  class ScreenManager {
    var trapperHost: string
    var trapperLogin: string
    var trapperPass: string
    var ftpHost: string
    var ftpLogin: string
    var ftpPass: string

    constructor (trapperHost: string, trapperLogin: string, trapperPass: string)
      ensures this.trapperHost == trapperHost && this.trapperLogin == trapperLogin && this.trapperPass == trapperPass
      ensures ftpHost == "" && ftpLogin == "" && ftpPass == ""
    {
      this.trapperHost := trapperHost;
      this.trapperLogin := trapperLogin;
      this.trapperPass := trapperPass;
      ftpHost := "";
      ftpLogin := "";
      ftpPass := "";
    }

    /** `get_ftp_credentials()` with the stored FTP settings `host`,
      `login` and `pass`. An `IndexError` on the host leaves the host at its
      setting and the login and password as they were. */
    method GetFtpCredentials(host: string, login: string, pass: string) returns (indexError: bool)
      modifies this`ftpHost, this`ftpLogin, this`ftpPass
      ensures indexError <==> DeriveHost(host, trapperHost).None?
      ensures indexError ==> ftpHost == host && ftpLogin == old(ftpLogin) && ftpPass == old(ftpPass)
      ensures !indexError ==>
        && Some(ftpHost) == DeriveHost(host, trapperHost)
        && ftpLogin == DeriveLogin(login, trapperLogin)
        && ftpPass == (if pass == "" then trapperPass else pass)
    {
      ftpHost := host;
      if ftpHost == "" && trapperHost != "" {
        var parts := SplitOnce(trapperHost, "//");
        if |parts| < 2 {
          return true;
        }
        ftpHost := parts[1];
      }
      ftpLogin := login;
      if ftpLogin == "" && trapperLogin != "" {
        ftpLogin := SplitChar(trapperLogin, '@')[0];
      }
      ftpPass := pass;
      if ftpPass == "" && trapperPass != "" {
        ftpPass := trapperPass;
      }
      return false;
    }
  }

  // ---------------------------------------------------------------------
  // Upload
  // ---------------------------------------------------------------------

  /** `[k for k in [yaml, zip] if k]`. */
  function Files2Upload(yaml: string, zip: string): (r: seq<string>)
    ensures forall k :: 0 <= k < |r| ==> r[k] != ""
    ensures |r| == (if yaml != "" then 1 else 0) + (if zip != "" then 1 else 0)
    ensures yaml != "" ==> r[0] == yaml
    ensures zip != "" ==> r[|r| - 1] == zip
  {
    (if yaml != "" then [yaml] else []) + (if zip != "" then [zip] else [])
  }

  /** The index of the first path that is not an existing file. */
  function FirstNotFile(fs: FileSystem, paths: seq<string>): (r: Option<nat>)
    ensures r.Some? ==> r.value < |paths| && !IsFile(fs, paths[r.value])
    ensures r.Some? ==> forall j :: 0 <= j < r.value ==> IsFile(fs, paths[j])
    ensures r.None? ==> forall j :: 0 <= j < |paths| ==> IsFile(fs, paths[j])
  {
    if paths == [] then None
    else if !IsFile(fs, paths[0]) then Some(0)
    else
      match FirstNotFile(fs, paths[1..])
      case None => None
      case Some(i) => Some(i + 1)
  }

  /** How `upload()` ends before the transfer thread is started. */
  datatype UploadStart =
    | NoFtpConnection
    | NothingToUpload
    | NoSuchFile(path: string)
    | StartUpload(files: seq<string>)

  /** The message the screen shows for each way of not starting. */
  function UploadStartMessage(u: UploadStart): string
  {
    match u
    case NoFtpConnection => "You have not set up & verified your FTP connection.\nPlease check your settings."
    case NothingToUpload => "There are no files to upload."
    case NoSuchFile(fp) => "There is no file " + fp + "."
    case StartUpload(_) => ""
  }

  /** The checks in order: an FTP client, something to upload, every path
      an existing file. */
  function UploadStartOf(hasFtp: bool, fs: FileSystem, yaml: string, zip: string): UploadStart
  {
    if !hasFtp then NoFtpConnection
    else
      var files := Files2Upload(yaml, zip);
      if files == [] then NothingToUpload
      else
        match FirstNotFile(fs, files)
        case Some(i) => NoSuchFile(files[i])
        case None => StartUpload(files)
  }

  /** A transfer starts only with an FTP client and with the non-empty
      package paths, the yaml first, all of them existing files. */
  lemma UploadStartsWithFiles(hasFtp: bool, fs: FileSystem, yaml: string, zip: string)
    ensures UploadStartOf(hasFtp, fs, yaml, zip).StartUpload? <==>
      hasFtp && (yaml != "" || zip != "") && (yaml != "" ==> IsFile(fs, yaml)) && (zip != "" ==> IsFile(fs, zip))
    ensures UploadStartOf(hasFtp, fs, yaml, zip).StartUpload? ==>
      UploadStartOf(hasFtp, fs, yaml, zip).files == Files2Upload(yaml, zip)
  {
    var files := Files2Upload(yaml, zip);
    if hasFtp && files != [] {
      if yaml != "" && !IsFile(fs, yaml) {
        assert !IsFile(fs, files[0]);
      }
      if zip != "" && !IsFile(fs, zip) {
        assert !IsFile(fs, files[|files| - 1]);
      }
    }
  }

  /** `upload(resume)` up to starting the transfer thread. */
  method Upload(hasFtp: bool, fs: FileSystem, yaml: string, zip: string) returns (r: UploadStart)
    ensures r == UploadStartOf(hasFtp, fs, yaml, zip)
  {
    if !hasFtp {
      return NoFtpConnection;
    }
    var files := Files2Upload(yaml, zip);
    if files == [] {
      return NothingToUpload;
    }
    var i := 0;
    while i < |files|
      invariant 0 <= i <= |files|
      invariant forall j :: 0 <= j < i ==> IsFile(fs, files[j])
    {
      if !IsFile(fs, files[i]) {
        assert FirstNotFile(fs, files) == Some(i);
        return NoSuchFile(files[i]);
      }
      i := i + 1;
    }
    return StartUpload(files);
  }

  /** The block size the upload screen sends with. */
  const Blocksize := 8192

  const ResumeMessage := "Can not resume a previous upload. There is no such a file on the FTP server."

  const UploadStoppedMessage := "The upload of your data has been stopped."

  /** What makes an upload progress call raise: the stop request, or an
      exception from reconnecting. */
  datatype CallbackError = UploadStopped | Raised(error: FtpError)

  /** The progress state of the upload screen. */
  class UploadScreen {
    const blocksize: nat
    /** `pbar.value`. */
    var pbarValue: int
    /** `stop_thread_upload_flag`. */
    var stopFlag: bool

    constructor ()
      ensures blocksize == Blocksize && pbarValue == 0 && !stopFlag
    {
      blocksize := Blocksize;
      pbarValue := 0;
      stopFlag := false;
    }

    /** The start of the transfer of file `fp` in `thread_upload`: a new
      progress bar at 0 and, when resuming, the change into `/collections`
      and a `SIZE` request for the file's base name, whose answer is
      `remoteSize` (`None` when `SIZE` fails or gives nothing). Any failure
      there aborts the upload with the "Can not resume" message; otherwise
      the bar starts at the remote size and the transfer restarts from it. */
    method StartFile(ftp: FtpClient, fp: string, resume: bool, cwdReply: Reply, mkdReply: Reply, remoteSize: Option<nat>)
      returns (restPos: Result<Option<nat>, string>)
      modifies this`pbarValue, ftp`sent
      ensures !resume ==> restPos == Success(None) && pbarValue == 0 && ftp.sent == old(ftp.sent)
      ensures resume ==>
        var dirSelected := cwdReply.Ok? || (cwdReply == Raises(IoError) && mkdReply.Ok?);
        ftp.sent == old(ftp.sent) +
          (if ftp.ftp.Some?
           then [Cwd("/collections")] + (if cwdReply == Raises(IoError) then [Mkd("/collections")] else []) +
                (if dirSelected then [Size(Basename(fp))] else [])
           else [])
      ensures resume ==>
        (restPos.Success? <==>
          ftp.ftp.Some? && (cwdReply.Ok? || (cwdReply == Raises(IoError) && mkdReply.Ok?)) && remoteSize.Some?)
      ensures resume && restPos.Success? ==> restPos.value == remoteSize && pbarValue == remoteSize.value
      ensures restPos.Failure? ==> restPos.error == ResumeMessage && pbarValue == 0
    {
      pbarValue := 0;
      if !resume {
        return Success(None);
      }
      var dir := ftp.SetFtpDirectory("/collections", cwdReply, mkdReply);
      if dir.Failure? {
        return Failure(ResumeMessage);
      }
      ftp.sent := ftp.sent + [Size(Basename(fp))];
      if remoteSize.None? {
        return Failure(ResumeMessage);
      }
      pbarValue := remoteSize.value;
      return Success(remoteSize);
    }

    /** `progress_callback`, called by the transfer after each block: the
      bar grows by one block. When a stop was requested the flag is
      cleared, the connection is closed (any exception there is ignored) and
      opened again, and the call raises "upload stopped"; an exception while
      reconnecting propagates in its place. */
    method ProgressCallback(ftp: FtpClient, closeReply: Reply, quitReply: Reply, loginReply: Reply)
      returns (r: Result<(), CallbackError>)
      requires ftp.Valid()
      modifies this`pbarValue, this`stopFlag, ftp`connected, ftp`sent, ftp`ftp
      ensures ftp.Valid()
      ensures pbarValue == old(pbarValue) + blocksize
      ensures !stopFlag
      ensures !old(stopFlag) ==> r == Success(()) && unchanged(ftp)
      ensures old(stopFlag) ==> r.Failure?
      ensures old(stopFlag) ==>
        var stillConnected := old(ftp.connected) && !(old(ftp.ftp).Some? && closeReply.Ok?);
        var reconnectRaises := (stillConnected && quitReply.Raises?) || (!(stillConnected && quitReply.Raises?) && loginReply.Raises? && loginReply.error != PermError);
        (r == Failure(UploadStopped) <==> !reconnectRaises)
        && (!reconnectRaises ==> ftp.connected == loginReply.Ok? && ftp.ftp == Some(Session(ftp.tls, ftp.server, ftp.port, ftp.passive, ftp.account)))
    {
      pbarValue := pbarValue + blocksize;
      if stopFlag {
        stopFlag := false;
        var closed := ftp.CloseConnection(closeReply);
        var c := ftp.Connect(quitReply, loginReply);
        if c.Failure? {
          return Failure(Raised(c.error));
        }
        return Failure(UploadStopped);
      }
      return Success(());
    }
  }

  // ---------------------------------------------------------------------
  // Processing request
  // ---------------------------------------------------------------------

  /** How the processing request ended. */
  datatype Notification =
    | Processed
    | NotProcessed(status: int, message: string, errors: string)

  const NoResponseMessage := "TRAPPER API did not respond."

  /** `thread_trigger_processing` on the response: status 200 is success;
      otherwise the `message` and `errors` of the response's `data` (`data`
      is `None` when the body is not JSON or has no `data`), defaulting to
      "TRAPPER API did not respond." and to nothing. */
  function NotificationOf(status: int, data: Option<map<string, string>>): (r: Notification)
    ensures r.Processed? <==> status == 200
    ensures r.NotProcessed? ==> r.status == status
    ensures r.NotProcessed? && data.Some? && "message" in data.value ==> r.message == data.value["message"]
    ensures r.NotProcessed? && data.Some? && "errors" in data.value ==> r.errors == data.value["errors"]
    ensures r.NotProcessed? && (data.None? || "message" !in data.value) ==> r.message == NoResponseMessage
    ensures r.NotProcessed? && (data.None? || "errors" !in data.value) ==> r.errors == ""
  {
    if status == 200 then Processed
    else
      var d := data.GetOr(map[]);
      NotProcessed(status,
        if "message" in d then d["message"] else NoResponseMessage,
        if "errors" in d then d["errors"] else "")
  }

  // ---------------------------------------------------------------------
  // Conversion progress
  // ---------------------------------------------------------------------

  const ConversionStoppedMessage := "The conversion of your media files has been stopped."

  /** The progress state of the convert screen. */
  class ConvertScreen {
    /** `pbar.value`. */
    var pbarValue: int
    /** `stop_thread_convert_flag`. */
    var stopFlag: bool

    constructor ()
      ensures pbarValue == 0 && !stopFlag
    {
      pbarValue := 0;
      stopFlag := false;
    }

    /** `progress_callback(i, fname)`: the bar grows by one file; a
      requested stop clears the flag and raises. The index and the name
      only appear in the progress message. */
    method ProgressCallback() returns (r: Result<(), string>)
      modifies this
      ensures pbarValue == old(pbarValue) + 1
      ensures !stopFlag
      ensures r.Failure? <==> old(stopFlag)
      ensures r.Failure? ==> r.error == ConversionStoppedMessage
    {
      pbarValue := pbarValue + 1;
      if stopFlag {
        stopFlag := false;
        return Failure(ConversionStoppedMessage);
      }
      return Success(());
    }
  }
}
