/** The YAML definition of a data package: its records, the document they
    form, and what walking a media root must produce. A media root holds
    collections, each holding deployments, each holding resource files. */
module Manifest {
  import opened Wrappers
  import opened PyStr
  import opened PyPath
  import opened LocalFs
  import opened TimeNorm

  datatype ResourceDef = ResourceDef(name: string, file: string, dateRecorded: int)
  datatype DeploymentDef = DeploymentDef(deploymentId: string, resources: seq<ResourceDef>)
  datatype CollectionDef = CollectionDef(
    name: string,
    projectName: string,
    timezone: string,
    timezoneIgnoreDst: bool,
    resourcesDir: string,
    deployments: seq<DeploymentDef>,
    resources: seq<ResourceDef>)
  datatype DataDict = DataDict(collections: seq<CollectionDef>)

  /** A YAML node; a mapping keeps its keys in insertion order, as the
      `OrderedDict` representer writes them. */
  datatype Node = NStr(s: string) | NInt(i: int) | NBool(b: bool) | NList(items: seq<Node>) | NMap(entries: seq<(string, Node)>)

  function Keys(entries: seq<(string, Node)>): (ks: seq<string>)
    ensures |ks| == |entries|
    ensures forall i :: 0 <= i < |entries| ==> ks[i] == entries[i].0
  {
    seq(|entries|, i requires 0 <= i < |entries| => entries[i].0)
  }

  /** Date-recorded values are written as UTC instants. */
  function ResourceNode(r: ResourceDef): Node
  {
    NMap([("name", NStr(r.name)), ("file", NStr(r.file)), ("date_recorded", NInt(r.dateRecorded))])
  }

  function DeploymentNode(d: DeploymentDef): Node
  {
    NMap([("deployment_id", NStr(d.deploymentId)),
          ("resources", NList(seq(|d.resources|, i requires 0 <= i < |d.resources| => ResourceNode(d.resources[i]))))])
  }

  /** A collection record is written with its keys in the order the
      definition schema expects. */
  function CollectionNode(c: CollectionDef): (n: Node)
    ensures n.NMap? && Keys(n.entries) == ["name", "project_name", "timezone", "timezone_ignore_dst", "resources_dir", "deployments", "resources"]
  {
    NMap([("name", NStr(c.name)),
          ("project_name", NStr(c.projectName)),
          ("timezone", NStr(c.timezone)),
          ("timezone_ignore_dst", NBool(c.timezoneIgnoreDst)),
          ("resources_dir", NStr(c.resourcesDir)),
          ("deployments", NList(seq(|c.deployments|, i requires 0 <= i < |c.deployments| => DeploymentNode(c.deployments[i])))),
          ("resources", NList(seq(|c.resources|, i requires 0 <= i < |c.resources| => ResourceNode(c.resources[i]))))])
  }

  /** The document `dump_yaml` writes. */
  function DataDictNode(d: DataDict): Node
  {
    NMap([("collections", NList(seq(|d.collections|, i requires 0 <= i < |d.collections| => CollectionNode(d.collections[i]))))])
  }

  /** What a definition generator is built from: the file system it reads,
      the media root, the zone, the image extensions (which decide whether a
      capture tag is looked for), all accepted extensions and the project. */
  datatype Config = Config(
    fs: FileSystem,
    dataDir: string,
    zone: Zone,
    ignoreDst: bool,
    imageExt: seq<string>,
    allExt: seq<string>,
    projectName: string)

  /** `get_collection_def(name)`: a collection record whose deployments are
      not yet added. */
  function GetCollectionDef(cfg: Config, name: string): CollectionDef
  {
    CollectionDef(name, cfg.projectName, cfg.zone.name, cfg.ignoreDst, name, [], [])
  }

  /** `get_deployment_def(deployment)`. */
  function GetDeploymentDef(deployment: string): DeploymentDef
  {
    DeploymentDef(deployment, [])
  }

  /** The naive local time a file was captured at: an image's capture tag
      when it can be read, otherwise the file's modification time. */
  function NaiveCaptureTime(meta: FileMeta, isImage: bool): (t: int)
    ensures !isImage ==> t == meta.mtime
    ensures isImage && meta.exifOriginal.Some? ==> t == meta.exifOriginal.value
    ensures isImage && meta.exifOriginal.None? ==> t == meta.mtime
  {
    if isImage then meta.exifOriginal.GetOr(meta.mtime) else meta.mtime
  }

  /** `get_date_recorded(filepath)`: the capture time, made aware in the
      collection's zone (ignoring daylight-saving time when asked to) and
      converted to UTC. */
  function GetDateRecorded(cfg: Config, filepath: string): int
    requires IsFile(cfg.fs, filepath)
  {
    CaptureInstant(cfg.zone, cfg.ignoreDst, NaiveCaptureTime(cfg.fs.files[filepath], HasExt(filepath, cfg.imageExt)))
  }

  /** `get_resource_def(resource, resources_level)`: the record's name is the
      file name without its extension. */
  function GetResourceDef(cfg: Config, resource: string, level: string): (r: ResourceDef)
    requires IsFile(cfg.fs, Join(level, resource))
    ensures r.file == resource
    ensures r.name + SplitExt(resource).1 == resource
    ensures r.dateRecorded == GetDateRecorded(cfg, Join(level, resource))
  {
    ResourceDef(SplitExt(resource).0, resource, GetDateRecorded(cfg, Join(level, resource)))
  }

  // What `build_data_dict` reads at each level of the tree.

  predicate CollectionsExist(cfg: Config, cols: seq<string>)
  {
    forall i :: 0 <= i < |cols| ==> IsDir(cfg.fs, Join(cfg.dataDir, cols[i]))
  }

  /** The deployments of a collection: its sub-directories in listing order. */
  function Deployments(cfg: Config, colPath: string): (r: seq<string>)
    requires IsDir(cfg.fs, colPath)
    ensures forall i :: 0 <= i < |r| ==> IsDir(cfg.fs, Join(colPath, r[i]))
  {
    OnlyDirs(cfg.fs, colPath, cfg.fs.dirs[colPath])
  }

  /** The resources of a deployment: its files with an accepted extension,
      in listing order. */
  function Resources(cfg: Config, depPath: string): (r: seq<string>)
    requires IsDir(cfg.fs, depPath)
    ensures forall i :: 0 <= i < |r| ==> IsFile(cfg.fs, Join(depPath, r[i])) && HasExt(r[i], cfg.allExt)
  {
    FilterByExt(OnlyFiles(cfg.fs, depPath, cfg.fs.dirs[depPath]), cfg.allExt)
  }

  /** The complete record of one deployment. */
  function DeploymentDefOf(cfg: Config, colPath: string, dep: string): DeploymentDef
    requires IsDir(cfg.fs, Join(colPath, dep))
  {
    var p := Join(colPath, dep);
    DeploymentDef(dep, ResourceDefs(cfg, p, Resources(cfg, p)))
  }

  /** The records of the files `names` of the deployment directory `p`, in
      order. */
  function ResourceDefs(cfg: Config, p: string, names: seq<string>): (r: seq<ResourceDef>)
    requires forall i :: 0 <= i < |names| ==> IsFile(cfg.fs, Join(p, names[i]))
    ensures |r| == |names|
    ensures forall i :: 0 <= i < |names| ==> r[i].file == names[i]
  {
    if names == [] then []
    else
      var init := ResourceDefs(cfg, p, names[..|names| - 1]);
      var last := GetResourceDef(cfg, names[|names| - 1], p);
      SnocFiles(init, last, names);
      init + [last]
  }

  lemma SnocFiles(init: seq<ResourceDef>, last: ResourceDef, names: seq<string>)
    requires names != [] && |init| == |names| - 1
    requires forall i :: 0 <= i < |init| ==> init[i].file == names[..|names| - 1][i]
    requires last.file == names[|names| - 1]
    ensures forall i :: 0 <= i < |names| ==> (init + [last])[i].file == names[i]
  {
    forall i | 0 <= i < |names| ensures (init + [last])[i].file == names[i] {
      if i < |init| { assert names[..|names| - 1][i] == names[i]; }
    }
  }

  lemma ResourceDefsSnoc(cfg: Config, p: string, names: seq<string>, i: nat)
    requires i < |names|
    requires forall i :: 0 <= i < |names| ==> IsFile(cfg.fs, Join(p, names[i]))
    ensures ResourceDefs(cfg, p, names[..i + 1]) == ResourceDefs(cfg, p, names[..i]) + [GetResourceDef(cfg, names[i], p)]
  {
    assert names[..i + 1][..i] == names[..i];
  }

  function DeploymentDefsOf(cfg: Config, colPath: string, deps: seq<string>): (r: seq<DeploymentDef>)
    requires forall i :: 0 <= i < |deps| ==> IsDir(cfg.fs, Join(colPath, deps[i]))
    ensures |r| == |deps|
  {
    if deps == [] then []
    else
      var last := deps[|deps| - 1];
      DeploymentDefsOf(cfg, colPath, deps[..|deps| - 1]) + [DeploymentDefOf(cfg, colPath, last)]
  }

  /** The complete record of one collection. */
  function CollectionDefOf(cfg: Config, c: string): CollectionDef
    requires IsDir(cfg.fs, Join(cfg.dataDir, c))
  {
    var p := Join(cfg.dataDir, c);
    var col := GetCollectionDef(cfg, c);
    col.(deployments := DeploymentDefsOf(cfg, p, Deployments(cfg, p)))
  }

  function Defs(cfg: Config, cols: seq<string>): (r: seq<CollectionDef>)
    requires CollectionsExist(cfg, cols)
    ensures |r| == |cols|
  {
    if cols == [] then []
    else
      var last := cols[|cols| - 1];
      Defs(cfg, cols[..|cols| - 1]) + [CollectionDefOf(cfg, last)]
  }

  /** The paths a deployment adds to `files`. */
  function DeploymentFiles(depPath: string, names: seq<string>): seq<string>
  {
    seq(|names|, i requires 0 <= i < |names| => Join(depPath, names[i]))
  }

  lemma DeploymentFilesSnoc(depPath: string, names: seq<string>, i: nat)
    requires i < |names|
    ensures DeploymentFiles(depPath, names[..i + 1]) == DeploymentFiles(depPath, names[..i]) + [Join(depPath, names[i])]
  {
    var l, r := DeploymentFiles(depPath, names[..i + 1]), DeploymentFiles(depPath, names[..i]) + [Join(depPath, names[i])];
    assert |l| == |r|;
    forall k | 0 <= k < |l| ensures l[k] == r[k] {
    }
  }

  lemma AppendAssoc<T>(a: seq<T>, b: seq<T>, c: seq<T>)
    ensures (a + b) + c == a + (b + c)
  {
  }

  function DeploymentsFiles(cfg: Config, colPath: string, deps: seq<string>): seq<string>
    requires forall i :: 0 <= i < |deps| ==> IsDir(cfg.fs, Join(colPath, deps[i]))
  {
    if deps == [] then []
    else
      var last := Join(colPath, deps[|deps| - 1]);
      DeploymentsFiles(cfg, colPath, deps[..|deps| - 1]) + DeploymentFiles(last, Resources(cfg, last))
  }

  /** The paths a collection adds to `files`. */
  function CollectionFiles(cfg: Config, c: string): seq<string>
    requires IsDir(cfg.fs, Join(cfg.dataDir, c))
  {
    var p := Join(cfg.dataDir, c);
    DeploymentsFiles(cfg, p, Deployments(cfg, p))
  }

  function Flatten<T>(ss: seq<seq<T>>): seq<T>
  {
    if ss == [] then [] else Flatten(ss[..|ss| - 1]) + ss[|ss| - 1]
  }

  /** A flattened sequence starts with its first part. */
  lemma {:induction false} FlattenFirst<T>(ss: seq<seq<T>>)
    requires ss != []
    ensures |ss[0]| <= |Flatten(ss)| && Flatten(ss)[..|ss[0]|] == ss[0]
  {
    var init := ss[..|ss| - 1];
    if |ss| == 1 {
      assert init == [];
      assert Flatten(ss) == ss[0];
    } else {
      FlattenFirst(init);
      assert (Flatten(init) + ss[|ss| - 1])[..|ss[0]|] == Flatten(init)[..|ss[0]|];
    }
  }

  function FilesPerCollection(cfg: Config, cols: seq<string>): (r: seq<seq<string>>)
    requires CollectionsExist(cfg, cols)
    ensures |r| == |cols|
  {
    if cols == [] then []
    else
      var last := cols[|cols| - 1];
      FilesPerCollection(cfg, cols[..|cols| - 1]) + [CollectionFiles(cfg, last)]
  }

  /** `files` after the walk of `cols`. */
  function AllFiles(cfg: Config, cols: seq<string>): seq<string>
    requires CollectionsExist(cfg, cols)
  {
    Flatten(FilesPerCollection(cfg, cols))
  }

  /** The exceptions the packager raises, each with the text it carries. */
  datatype PackageError =
    | BothPathsRequired
    | NoDirectory(path: string)
    | NoExtension
    | BadTimezone
    | ExtTypeError(imageExtMissing: bool)
    | NothingToPackage

  function Message(e: PackageError): string
  {
    match e
    case BothPathsRequired => "You have to choose both \"Media root\" and \"Output path\"."
    case NoDirectory(p) => "There is no directory: " + p
    case NoExtension => "You have to provide at least one image or video extension."
    case BadTimezone => "You have to specify a correct timezone. See:\nhttps://en.wikipedia.org/wiki/List_of_tz_database_time_zones"
    case ExtTypeError(imageExtMissing) =>
      if imageExtMissing then "unsupported operand type(s) for +: 'NoneType' and 'list'"
      else "can only concatenate list (not \"NoneType\") to list"
    case NothingToPackage =>
      "There is nothing to package. Better check your \"Media root\" path and selected image and video extensions."
  }

  /** The outcome of `build_data_dict`: the emptiness check runs once per
      collection, so the walk fails exactly when the first collection
      contributes no file. */
  function BuildResult(cfg: Config, cols: seq<string>): Result<DataDict, PackageError>
    requires CollectionsExist(cfg, cols)
  {
    if |cols| > 0 && CollectionFiles(cfg, cols[0]) == [] then Failure(NothingToPackage)
    else Success(DataDict(Defs(cfg, cols)))
  }

  // The manifest read back: one (resources_dir, deployment_id, file) entry
  // per resource record, in document order.

  function DeploymentEntries(dir: string, d: DeploymentDef): seq<(string, string, string)>
  {
    seq(|d.resources|, i requires 0 <= i < |d.resources| => (dir, d.deploymentId, d.resources[i].file))
  }

  function CollectionEntries(dir: string, ds: seq<DeploymentDef>): seq<(string, string, string)>
  {
    if ds == [] then [] else CollectionEntries(dir, ds[..|ds| - 1]) + DeploymentEntries(dir, ds[|ds| - 1])
  }

  function Entries(cs: seq<CollectionDef>): seq<(string, string, string)>
  {
    if cs == [] then []
    else
      var c := cs[|cs| - 1];
      Entries(cs[..|cs| - 1]) + CollectionEntries(c.resourcesDir, c.deployments)
  }

  /** Where a reader of the definition finds a resource below `root`. */
  function EntryPath(root: string, e: (string, string, string)): string
  {
    Join(Join(Join(root, e.0), e.1), e.2)
  }

  function EntryPaths(root: string, es: seq<(string, string, string)>): seq<string>
  {
    seq(|es|, i requires 0 <= i < |es| => EntryPath(root, es[i]))
  }

  /** The name a resource is archived under. */
  function EntryName(e: (string, string, string)): string
  {
    e.0 + "/" + e.1 + "/" + e.2
  }

  lemma EntryPathsConcat(root: string, a: seq<(string, string, string)>, b: seq<(string, string, string)>)
    ensures EntryPaths(root, a + b) == EntryPaths(root, a) + EntryPaths(root, b)
  {
    var l, r := EntryPaths(root, a + b), EntryPaths(root, a) + EntryPaths(root, b);
    forall i | 0 <= i < |l| ensures l[i] == r[i] {
      if i < |a| { assert (a + b)[i] == a[i]; } else { assert (a + b)[i] == b[i - |a|]; }
    }
  }

  lemma DeploymentDefsOfSplit(cfg: Config, colPath: string, deps: seq<string>)
    requires deps != [] && forall i :: 0 <= i < |deps| ==> IsDir(cfg.fs, Join(colPath, deps[i]))
    ensures DeploymentDefsOf(cfg, colPath, deps)[..|deps| - 1] == DeploymentDefsOf(cfg, colPath, deps[..|deps| - 1])
    ensures DeploymentDefsOf(cfg, colPath, deps)[|deps| - 1] == DeploymentDefOf(cfg, colPath, deps[|deps| - 1])
  {
  }

  /** What one more deployment adds to the records and to `files`. */
  lemma DeploymentsSnoc(cfg: Config, colPath: string, deps: seq<string>, j: nat)
    requires j < |deps| && forall i :: 0 <= i < |deps| ==> IsDir(cfg.fs, Join(colPath, deps[i]))
    ensures DeploymentDefsOf(cfg, colPath, deps[..j + 1]) == DeploymentDefsOf(cfg, colPath, deps[..j]) + [DeploymentDefOf(cfg, colPath, deps[j])]
    ensures DeploymentsFiles(cfg, colPath, deps[..j + 1])
      == DeploymentsFiles(cfg, colPath, deps[..j]) + DeploymentFiles(Join(colPath, deps[j]), Resources(cfg, Join(colPath, deps[j])))
  {
    assert deps[..j + 1][..j] == deps[..j];
  }

  /** What one more collection adds to the records and to `files`. */
  lemma CollectionsSnoc(cfg: Config, cols: seq<string>, k: nat)
    requires k < |cols| && CollectionsExist(cfg, cols)
    ensures Defs(cfg, cols[..k + 1]) == Defs(cfg, cols[..k]) + [CollectionDefOf(cfg, cols[k])]
    ensures AllFiles(cfg, cols[..k + 1]) == AllFiles(cfg, cols[..k]) + CollectionFiles(cfg, cols[k])
  {
    assert cols[..k + 1][..k] == cols[..k];
  }

  lemma DefsSplit(cfg: Config, cols: seq<string>)
    requires cols != [] && CollectionsExist(cfg, cols)
    ensures Defs(cfg, cols)[..|cols| - 1] == Defs(cfg, cols[..|cols| - 1])
    ensures Defs(cfg, cols)[|cols| - 1] == CollectionDefOf(cfg, cols[|cols| - 1])
    ensures FilesPerCollection(cfg, cols)[..|cols| - 1] == FilesPerCollection(cfg, cols[..|cols| - 1])
    ensures FilesPerCollection(cfg, cols)[|cols| - 1] == CollectionFiles(cfg, cols[|cols| - 1])
  {
  }

  lemma DeploymentManifest(cfg: Config, dir: string, dep: string)
    requires IsDir(cfg.fs, Join(Join(cfg.dataDir, dir), dep))
    ensures
      var depPath := Join(Join(cfg.dataDir, dir), dep);
      EntryPaths(cfg.dataDir, DeploymentEntries(dir, DeploymentDefOf(cfg, Join(cfg.dataDir, dir), dep)))
        == DeploymentFiles(depPath, Resources(cfg, depPath))
  {
    var depPath := Join(Join(cfg.dataDir, dir), dep);
    var names := Resources(cfg, depPath);
    var d := DeploymentDefOf(cfg, Join(cfg.dataDir, dir), dep);
    assert d.resources == ResourceDefs(cfg, depPath, names);
    var l, r := EntryPaths(cfg.dataDir, DeploymentEntries(dir, d)), DeploymentFiles(depPath, names);
    assert |l| == |r|;
    forall i | 0 <= i < |l| ensures l[i] == r[i] {
      assert d.resources[i].file == names[i];
    }
  }

  lemma {:induction false} CollectionManifest(cfg: Config, dir: string, deps: seq<string>)
    requires forall i :: 0 <= i < |deps| ==> IsDir(cfg.fs, Join(Join(cfg.dataDir, dir), deps[i]))
    ensures
      var colPath := Join(cfg.dataDir, dir);
      EntryPaths(cfg.dataDir, CollectionEntries(dir, DeploymentDefsOf(cfg, colPath, deps)))
        == DeploymentsFiles(cfg, colPath, deps)
  {
    var colPath := Join(cfg.dataDir, dir);
    var ds := DeploymentDefsOf(cfg, colPath, deps);
    if deps != [] {
      var init := deps[..|deps| - 1];
      DeploymentDefsOfSplit(cfg, colPath, deps);
      CollectionManifest(cfg, dir, init);
      EntryPathsConcat(cfg.dataDir, CollectionEntries(dir, ds[..|ds| - 1]), DeploymentEntries(dir, ds[|ds| - 1]));
      DeploymentManifest(cfg, dir, deps[|deps| - 1]);
    }
  }

  /** The records and `files` agree: `files` holds exactly one path per
      resource record, in collection, deployment and listing order, and it
      is the path a reader of the definition finds the resource at. */
  lemma {:induction false} ManifestMatchesFiles(cfg: Config, cols: seq<string>)
    requires CollectionsExist(cfg, cols)
    ensures EntryPaths(cfg.dataDir, Entries(Defs(cfg, cols))) == AllFiles(cfg, cols)
  {
    if cols != [] {
      var init := cols[..|cols| - 1];
      var cs := Defs(cfg, cols);
      DefsSplit(cfg, cols);
      ManifestMatchesFiles(cfg, init);
      var c := cols[|cols| - 1];
      var p := Join(cfg.dataDir, c);
      EntryPathsConcat(cfg.dataDir, Entries(cs[..|cs| - 1]), CollectionEntries(c, cs[|cs| - 1].deployments));
      CollectionManifest(cfg, c, Deployments(cfg, p));
    }
  }

  /** The walk fails on an empty first collection whatever the later ones
      hold, succeeds on no collections at all, and a successful walk over at
      least one collection has files to package. */
  lemma BuildOutcome(cfg: Config, cols: seq<string>)
    requires CollectionsExist(cfg, cols)
    ensures cols == [] ==> BuildResult(cfg, cols) == Success(DataDict([]))
    ensures BuildResult(cfg, cols).Success? && cols != [] ==> AllFiles(cfg, cols) != []
    ensures BuildResult(cfg, cols).Failure? <==> cols != [] && CollectionFiles(cfg, cols[0]) == []
  {
    if cols == [] {
      assert Defs(cfg, cols) == [];
    } else {
      FirstCollectionFiles(cfg, cols);
    }
  }

  /** `files` starts with the files of the first collection. */
  lemma FirstCollectionFiles(cfg: Config, cols: seq<string>)
    requires CollectionsExist(cfg, cols) && cols != []
    ensures |CollectionFiles(cfg, cols[0])| <= |AllFiles(cfg, cols)|
    ensures AllFiles(cfg, cols)[..|CollectionFiles(cfg, cols[0])|] == CollectionFiles(cfg, cols[0])
  {
    FilesPerCollectionAt(cfg, cols, 0);
    FlattenFirst(FilesPerCollection(cfg, cols));
  }

  lemma {:induction false} FilesPerCollectionAt(cfg: Config, cols: seq<string>, k: nat)
    requires CollectionsExist(cfg, cols) && k < |cols|
    ensures FilesPerCollection(cfg, cols)[k] == CollectionFiles(cfg, cols[k])
  {
    if k < |cols| - 1 {
      DefsSplit(cfg, cols);
      FilesPerCollectionAt(cfg, cols[..|cols| - 1], k);
    }
  }

  /** A resource of a well-formed tree is a listed, plain name. */
  lemma ResourceListed(cfg: Config, p: string, i: nat)
    requires WellFormed(cfg.fs) && IsDir(cfg.fs, p) && i < |Resources(cfg, p)|
    ensures ValidName(Resources(cfg, p)[i])
  {
    var x := Resources(cfg, p)[i];
    assert x in Resources(cfg, p);
    ListedName(cfg.fs, p, x);
  }

  /** A deployment of a well-formed tree is a listed, plain name. */
  lemma DeploymentListed(cfg: Config, p: string, i: nat)
    requires WellFormed(cfg.fs) && IsDir(cfg.fs, p) && i < |Deployments(cfg, p)|
    ensures ValidName(Deployments(cfg, p)[i])
  {
    var x := Deployments(cfg, p)[i];
    assert x in Deployments(cfg, p);
    ListedName(cfg.fs, p, x);
  }

  predicate ValidEntry(e: (string, string, string))
  {
    ValidName(e.0) && ValidName(e.1) && ValidName(e.2)
  }

  lemma DeploymentEntriesValid(cfg: Config, dir: string, dep: string)
    requires WellFormed(cfg.fs) && ValidName(dir) && ValidName(dep)
    requires IsDir(cfg.fs, Join(Join(cfg.dataDir, dir), dep))
    ensures forall e :: e in DeploymentEntries(dir, DeploymentDefOf(cfg, Join(cfg.dataDir, dir), dep)) ==> ValidEntry(e)
  {
    var colPath := Join(cfg.dataDir, dir);
    var p := Join(colPath, dep);
    var names := Resources(cfg, p);
    var es := DeploymentEntries(dir, DeploymentDefOf(cfg, colPath, dep));
    forall i | 0 <= i < |es| ensures ValidEntry(es[i]) {
      ResourceListed(cfg, p, i);
    }
  }

  lemma {:induction false} CollectionEntriesValid(cfg: Config, dir: string, deps: seq<string>)
    requires WellFormed(cfg.fs) && ValidName(dir)
    requires forall i :: 0 <= i < |deps| ==> ValidName(deps[i]) && IsDir(cfg.fs, Join(Join(cfg.dataDir, dir), deps[i]))
    ensures forall e :: e in CollectionEntries(dir, DeploymentDefsOf(cfg, Join(cfg.dataDir, dir), deps)) ==> ValidEntry(e)
  {
    var colPath := Join(cfg.dataDir, dir);
    if deps != [] {
      DeploymentDefsOfSplit(cfg, colPath, deps);
      CollectionEntriesValid(cfg, dir, deps[..|deps| - 1]);
      DeploymentEntriesValid(cfg, dir, deps[|deps| - 1]);
    }
  }

  /** Over a well-formed tree, every manifest entry is made of plain names. */
  lemma {:induction false} EntriesValid(cfg: Config, cols: seq<string>)
    requires WellFormed(cfg.fs) && CollectionsExist(cfg, cols)
    requires forall i :: 0 <= i < |cols| ==> ValidName(cols[i])
    ensures forall e :: e in Entries(Defs(cfg, cols)) ==> ValidEntry(e)
  {
    if cols != [] {
      DefsSplit(cfg, cols);
      EntriesValid(cfg, cols[..|cols| - 1]);
      var c := cols[|cols| - 1];
      var p := Join(cfg.dataDir, c);
      var deps := Deployments(cfg, p);
      forall i | 0 <= i < |deps| ensures ValidName(deps[i]) {
        DeploymentListed(cfg, p, i);
      }
      CollectionEntriesValid(cfg, c, deps);
    }
  }

  /** Every file is archived under `collection/deployment/file`, the entry of
      its record. */
  lemma ArchiveNames(cfg: Config, cols: seq<string>)
    requires WellFormed(cfg.fs) && CollectionsExist(cfg, cols) && cfg.dataDir != ""
    requires forall i :: 0 <= i < |cols| ==> ValidName(cols[i])
    ensures |AllFiles(cfg, cols)| == |Entries(Defs(cfg, cols))|
    ensures forall i :: 0 <= i < |AllFiles(cfg, cols)| ==>
      RelPath(AllFiles(cfg, cols)[i], cfg.dataDir) == EntryName(Entries(Defs(cfg, cols))[i])
  {
    ManifestMatchesFiles(cfg, cols);
    EntriesValid(cfg, cols);
    var es := Entries(Defs(cfg, cols));
    forall i | 0 <= i < |es| ensures RelPath(EntryPath(cfg.dataDir, es[i]), cfg.dataDir) == EntryName(es[i]) {
      assert es[i] in es;
      RelPathOfJoins(cfg.dataDir, es[i].0, es[i].1, es[i].2);
    }
  }
}
