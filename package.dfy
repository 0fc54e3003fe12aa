/** The packager: the definition generator that walks a media root, and the
    package generator that validates its inputs, names the output files and
    writes the definition and the archive. */
module Package {
  import opened Wrappers
  import opened PyStr
  import opened PyPath
  import opened LocalFs
  import opened TimeNorm
  import opened Manifest

  /** `image_ext + video_ext`: concatenating `None` raises a `TypeError`. */
  function AllExt(imageExt: Option<seq<string>>, videoExt: Option<seq<string>>): (r: Result<seq<string>, PackageError>)
    ensures r.Success? <==> imageExt.Some? && videoExt.Some?
    ensures r.Success? ==> r.value == imageExt.value + videoExt.value
    ensures r.Failure? ==> r.error == ExtTypeError(imageExt.None?)
  {
    match (imageExt, videoExt)
    case (Some(i), Some(v)) => Success(i + v)
    case (None, _) => Failure(ExtTypeError(true))
    case (Some(_), None) => Failure(ExtTypeError(false))
  }

  /** `YAMLDefinitionGenerator`: walks the media root once, at construction,
      into the definition `dataDict` and the flat list `files` of resource
      paths. */
  class YamlDefinitionGenerator {
    const fs: FileSystem
    const dataDir: string
    const collections: seq<string>
    const timezone: Zone
    const timezoneIgnoreDst: bool
    const imageExt: seq<string>
    const videoExt: seq<string>
    const allExt: seq<string>
    const projectName: string
    var files: seq<string>
    var dataDict: DataDict

    function Cfg(): Config
    {
      Config(fs, dataDir, timezone, timezoneIgnoreDst, imageExt, allExt, projectName)
    }

    constructor (fs: FileSystem, dataDir: string, collections: seq<string>, timezone: Zone, timezoneIgnoreDst: bool,
                 imageExt: seq<string>, videoExt: seq<string>, projectName: string)
      ensures this.fs == fs && this.dataDir == dataDir && this.collections == collections
      ensures this.timezone == timezone && this.timezoneIgnoreDst == timezoneIgnoreDst
      ensures this.imageExt == imageExt && this.videoExt == videoExt && allExt == imageExt + videoExt
      ensures this.projectName == projectName
      ensures files == [] && dataDict == DataDict([])
    {
      this.fs := fs;
      this.dataDir := dataDir;
      this.collections := collections;
      this.timezone := timezone;
      this.timezoneIgnoreDst := timezoneIgnoreDst;
      this.imageExt := imageExt;
      this.videoExt := videoExt;
      this.allExt := imageExt + videoExt;
      this.projectName := projectName;
      files := [];
      dataDict := DataDict([]);
    }

    /** The construction as a whole: the extension lists are concatenated and
        the walk runs; either step may raise. */
    static method New(fs: FileSystem, dataDir: string, collections: seq<string>, timezone: Zone, timezoneIgnoreDst: bool,
                      imageExt: Option<seq<string>>, videoExt: Option<seq<string>>, projectName: string)
      returns (r: Result<YamlDefinitionGenerator, PackageError>)
      requires forall i :: 0 <= i < |collections| ==> IsDir(fs, Join(dataDir, collections[i]))
      ensures AllExt(imageExt, videoExt).Failure? ==> r == Failure(AllExt(imageExt, videoExt).error)
      ensures AllExt(imageExt, videoExt).Success? ==>
        var cfg := Config(fs, dataDir, timezone, timezoneIgnoreDst, imageExt.value, AllExt(imageExt, videoExt).value, projectName);
        && (r.Failure? <==> BuildResult(cfg, collections).Failure?)
        && (r.Failure? ==> r.error == BuildResult(cfg, collections).error)
        && (r.Success? ==>
              && fresh(r.value) && r.value.Cfg() == cfg && r.value.collections == collections
              && r.value.dataDict == BuildResult(cfg, collections).value
              && r.value.files == AllFiles(cfg, collections))
    {
      if imageExt.None? || videoExt.None? {
        return Failure(ExtTypeError(imageExt.None?));
      }
      var g := new YamlDefinitionGenerator(fs, dataDir, collections, timezone, timezoneIgnoreDst,
                                           imageExt.value, videoExt.value, projectName);
      var d := g.BuildDataDict();
      match d
      case Failure(e) =>
        return Failure(e);
      case Success(dd) =>
        g.dataDict := dd;
        return Success(g);
    }

    /** `build_data_dict`: collections in the given order, their
        sub-directories in listing order, their accepted files in listing
        order; `files` receives each resource's path as its record is made.
        The emptiness check sits inside the collection loop. */
    method BuildDataDict() returns (r: Result<DataDict, PackageError>)
      requires files == [] && CollectionsExist(Cfg(), collections)
      modifies this`files
      ensures r == BuildResult(Cfg(), collections)
      ensures r.Success? ==> files == AllFiles(Cfg(), collections)
    {
      var cfg := Cfg();
      var defs: seq<CollectionDef> := [];
      var k := 0;
      while k < |collections|
        invariant 0 <= k <= |collections|
        invariant CollectionsExist(cfg, collections[..k])
        invariant files == AllFiles(cfg, collections[..k])
        invariant defs == Defs(cfg, collections[..k])
        invariant k > 0 ==> CollectionFiles(cfg, collections[0]) != []
      {
        var c := collections[k];
        if k > 0 {
          FirstCollectionFiles(cfg, collections[..k]);
        }
        var col := BuildCollection(c);
        defs := defs + [col];
        CollectionsSnoc(cfg, collections, k);
        if |files| == 0 {
          return Failure(NothingToPackage);
        }
        k := k + 1;
      }
      assert collections[..k] == collections;
      return Success(DataDict(defs));
    }

    /** One iteration of the collection loop of `build_data_dict`. */
    method BuildCollection(c: string) returns (col: CollectionDef)
      requires IsDir(fs, Join(dataDir, c))
      modifies this`files
      ensures col == CollectionDefOf(Cfg(), c)
      ensures files == old(files) + CollectionFiles(Cfg(), c)
    {
      col := GetCollectionDef(Cfg(), c);
      var level := Join(dataDir, c);
      var deployments := OnlyDirs(fs, level, fs.dirs[level]);
      assert deployments == Deployments(Cfg(), level);
      var deps := BuildDeployments(level, deployments);
      col := col.(deployments := deps, resources := []);
    }

    /** The deployment loop of `build_data_dict`: one record per
        sub-directory, in listing order. */
    method BuildDeployments(level: string, deployments: seq<string>) returns (deps: seq<DeploymentDef>)
      requires forall i :: 0 <= i < |deployments| ==> IsDir(fs, Join(level, deployments[i]))
      modifies this`files
      ensures deps == DeploymentDefsOf(Cfg(), level, deployments)
      ensures files == old(files) + DeploymentsFiles(Cfg(), level, deployments)
    {
      var cfg := Cfg();
      deps := [];
      var j := 0;
      while j < |deployments|
        invariant 0 <= j <= |deployments|
        invariant deps == DeploymentDefsOf(cfg, level, deployments[..j])
        invariant files == old(files) + DeploymentsFiles(cfg, level, deployments[..j])
      {
        var d := BuildDeployment(level, deployments[j]);
        DeploymentsSnoc(cfg, level, deployments, j);
        var p := Join(level, deployments[j]);
        AppendAssoc(old(files), DeploymentsFiles(cfg, level, deployments[..j]), DeploymentFiles(p, Resources(cfg, p)));
        deps := deps + [d];
        j := j + 1;
      }
      assert deployments[..j] == deployments;
    }

    /** One iteration of the deployment loop of `build_data_dict`. */
    method BuildDeployment(level: string, dep: string) returns (d: DeploymentDef)
      requires IsDir(fs, Join(level, dep))
      modifies this`files
      ensures d == DeploymentDefOf(Cfg(), level, dep)
      ensures files == old(files) + DeploymentFiles(Join(level, dep), Resources(Cfg(), Join(level, dep)))
    {
      d := GetDeploymentDef(dep);
      var resourcesLevel := Join(level, dep);
      var resources := OnlyFiles(fs, resourcesLevel, fs.dirs[resourcesLevel]);
      resources := FilterByExt(resources, allExt);
      assert resources == Resources(Cfg(), resourcesLevel);
      var records := RecordResources(resourcesLevel, resources);
      d := d.(resources := records);
    }

    /** The resource loop of `build_data_dict`: one record and one path per
        accepted file, in listing order. */
    method RecordResources(resourcesLevel: string, resources: seq<string>) returns (records: seq<ResourceDef>)
      requires forall i :: 0 <= i < |resources| ==> IsFile(fs, Join(resourcesLevel, resources[i]))
      modifies this`files
      ensures records == ResourceDefs(Cfg(), resourcesLevel, resources)
      ensures files == old(files) + DeploymentFiles(resourcesLevel, resources)
    {
      var cfg := Cfg();
      ghost var files0 := files;
      records := [];
      var i := 0;
      while i < |resources|
        invariant 0 <= i <= |resources|
        invariant records == ResourceDefs(cfg, resourcesLevel, resources[..i])
        invariant files == files0 + DeploymentFiles(resourcesLevel, resources[..i])
      {
        var r := GetResourceDef(cfg, resources[i], resourcesLevel);
        ResourceDefsSnoc(cfg, resourcesLevel, resources, i);
        records := records + [r];
        var path := Join(resourcesLevel, resources[i]);
        DeploymentFilesSnoc(resourcesLevel, resources, i);
        AppendAssoc(files0, DeploymentFiles(resourcesLevel, resources[..i]), [path]);
        files := files + [path];
        i := i + 1;
      }
      assert resources[..i] == resources;
    }
  }

  /** The `timezone` argument: a zone object, a name to look up in the tz
      database, or a value of another type (the look-up then raises
      `AttributeError`). */
  datatype TzArg = TzObject(zone: Zone) | TzName(name: string) | TzOther

  /** The zone the constructor keeps; `db` is the tz database by name. */
  function ResolveZone(tz: TzArg, db: map<string, Zone>): Option<Zone>
  {
    match tz
    case TzObject(z) => Some(z)
    case TzName(n) => if n in db then Some(db[n]) else None
    case TzOther => None
  }

  /** The path of the first collection, in the given order, that is not a
      directory. */
  function MissingCollection(fs: FileSystem, dataPath: string, cols: seq<string>): (r: Option<string>)
    ensures r.None? <==> forall i :: 0 <= i < |cols| ==> IsDir(fs, Join(dataPath, cols[i]))
    ensures r.Some? ==> exists i :: && 0 <= i < |cols| && r.value == Join(dataPath, cols[i]) && !IsDir(fs, r.value)
                                    && forall j :: 0 <= j < i ==> IsDir(fs, Join(dataPath, cols[j]))
  {
    if cols == [] then None
    else if !IsDir(fs, Join(dataPath, cols[0])) then Some(Join(dataPath, cols[0]))
    else
      var r := MissingCollection(fs, dataPath, cols[1..]);
      assert r.Some? ==> exists i :: && 0 <= i < |cols| && r.value == Join(dataPath, cols[i]) && !IsDir(fs, r.value)
                                     && forall j :: 0 <= j < i ==> IsDir(fs, Join(dataPath, cols[j])) by {
        if r.Some? {
          var i :| && 0 <= i < |cols[1..]| && r.value == Join(dataPath, cols[1..][i]) && !IsDir(fs, r.value)
                   && forall j :: 0 <= j < i ==> IsDir(fs, Join(dataPath, cols[1..][j]));
          assert forall j :: 0 <= j < i + 1 ==> IsDir(fs, Join(dataPath, cols[j])) by {
            forall j | 0 <= j < i + 1 ensures IsDir(fs, Join(dataPath, cols[j])) {
              if j > 0 {
                assert cols[j] == cols[1..][j - 1];
              }
            }
          }
        }
      }
      r
  }

  /** What the package generator's constructor raises, checking in the
      source's order: both paths given, both directories, some extension,
      every collection directory, a known time zone. */
  function InitError(fs: FileSystem, dataPath: string, outputPath: string, collections: seq<string>,
                     tz: TzArg, db: map<string, Zone>,
                     imageExt: Option<seq<string>>, videoExt: Option<seq<string>>): (r: Option<PackageError>)
    ensures r.None? <==>
      && dataPath != "" && outputPath != ""
      && IsDir(fs, dataPath) && IsDir(fs, outputPath)
      && !(NoExt(imageExt) && NoExt(videoExt))
      && (forall i :: 0 <= i < |collections| ==> IsDir(fs, Join(dataPath, collections[i])))
      && ResolveZone(tz, db).Some?
    ensures r == Some(BothPathsRequired) <==> dataPath == "" || outputPath == ""
    ensures r.Some? && r.value.NoDirectory? ==> !IsDir(fs, r.value.path)
    ensures r == Some(BadTimezone) ==> ResolveZone(tz, db).None?
  {
    if dataPath == "" || outputPath == "" then Some(BothPathsRequired)
    else if !IsDir(fs, dataPath) then Some(NoDirectory(dataPath))
    else if !IsDir(fs, outputPath) then Some(NoDirectory(outputPath))
    else if NoExt(imageExt) && NoExt(videoExt) then Some(NoExtension)
    else if MissingCollection(fs, dataPath, collections).Some? then Some(NoDirectory(MissingCollection(fs, dataPath, collections).value))
    else if ResolveZone(tz, db).None? then Some(BadTimezone)
    else None
  }

  /** The name shared by a package's three output files, before spaces are
      replaced. */
  function PackageStem(prefix: string, project: string, timestamp: string, username: string): string
  {
    var base := project + "_" + timestamp + "_" + username;
    if prefix != "" then prefix + "_" + base else base
  }

  /** `get_package_name(ext, timestamp)`: the stem followed by the
      extension, spaces replaced by underscores. */
  function GetPackageName(prefix: string, project: string, timestamp: string, username: string, ext: string): (r: string)
    ensures ' ' !in r
    ensures r == ReplaceChar(PackageStem(prefix, project, timestamp, username), ' ', '_') + ReplaceChar(ext, ' ', '_')
  {
    var pname := project + "_" + timestamp + "_" + username + ext;
    var named := if prefix != "" then prefix + "_" + pname else pname;
    assert named == PackageStem(prefix, project, timestamp, username) + ext;
    ReplaceCharConcat(PackageStem(prefix, project, timestamp, username), ext, ' ', '_');
    var r := ReplaceChar(named, ' ', '_');
    assert ' ' !in r by {
      forall i | 0 <= i < |r| ensures r[i] != ' ' {
      }
    }
    r
  }

  /** The path of one output file. */
  function OutputPath(outputPath: string, prefix: string, project: string, timestamp: string, username: string, ext: string): string
  {
    Join(outputPath, GetPackageName(prefix, project, timestamp, username, ext))
  }

  /** Joining one directory with two different names that start with the
      same character gives two different paths. */
  lemma JoinDistinct(a: string, b: string, c: string)
    requires b != [] && c != [] && b[0] == c[0] && b != c
    ensures Join(a, b) != Join(a, c)
  {
    JoinSuffix(a, b);
    JoinSuffix(a, c);
  }

  /** The log, the definition and the archive of one package share their
      stem, so their file names end in `.log`, `.yaml` and `.zip`; the three
      paths are different. */
  lemma OutputPathsDistinct(outputPath: string, prefix: string, project: string, timestamp: string, username: string)
    ensures var stem := ReplaceChar(PackageStem(prefix, project, timestamp, username), ' ', '_');
      && GetPackageName(prefix, project, timestamp, username, ".log") == stem + ".log"
      && GetPackageName(prefix, project, timestamp, username, ".yaml") == stem + ".yaml"
      && GetPackageName(prefix, project, timestamp, username, ".zip") == stem + ".zip"
    ensures OutputPath(outputPath, prefix, project, timestamp, username, ".log") != OutputPath(outputPath, prefix, project, timestamp, username, ".yaml")
    ensures OutputPath(outputPath, prefix, project, timestamp, username, ".yaml") != OutputPath(outputPath, prefix, project, timestamp, username, ".zip")
    ensures OutputPath(outputPath, prefix, project, timestamp, username, ".log") != OutputPath(outputPath, prefix, project, timestamp, username, ".zip")
  {
    var stemRaw := PackageStem(prefix, project, timestamp, username);
    var stem := ReplaceChar(stemRaw, ' ', '_');
    ReplaceCharAbsent(".log", ' ', '_');
    ReplaceCharAbsent(".yaml", ' ', '_');
    ReplaceCharAbsent(".zip", ' ', '_');
    var l, y, z := stem + ".log", stem + ".yaml", stem + ".zip";
    assert |stemRaw| > 0;
    assert l[0] == y[0] == z[0] == stem[0];
    assert l[|l| - 1] == 'g' && y[|y| - 1] == 'l' && z[|z| - 1] == 'p';
    JoinDistinct(outputPath, l, y);
    JoinDistinct(outputPath, y, z);
    JoinDistinct(outputPath, l, z);
  }

  /** `(source, arcname)` for each file, in order: the members `make_zip`
      writes, named relative to the media root. */
  function ArchiveEntries(files: seq<string>, root: string): (r: seq<(string, string)>)
    ensures |r| == |files|
  {
    if files == [] then []
    else ArchiveEntries(files[..|files| - 1], root) + [(files[|files| - 1], RelPath(files[|files| - 1], root))]
  }

  /** `(i, arcname)` for each file, in order: the calls `make_zip` makes to
      the progress callback. */
  function ProgressEvents(files: seq<string>, root: string): (r: seq<(int, string)>)
    ensures |r| == |files|
  {
    if files == [] then []
    else ProgressEvents(files[..|files| - 1], root) + [(|files| - 1, RelPath(files[|files| - 1], root))]
  }

  /** The archive member and the callback call for the `i`-th file both
      carry its path relative to the media root; the call also passes `i`. */
  lemma {:induction false} ArchiveEntriesAt(files: seq<string>, root: string)
    ensures forall i :: 0 <= i < |files| ==> ArchiveEntries(files, root)[i] == (files[i], RelPath(files[i], root))
    ensures forall i :: 0 <= i < |files| ==> ProgressEvents(files, root)[i] == (i, RelPath(files[i], root))
  {
    if files != [] {
      var init := files[..|files| - 1];
      ArchiveEntriesAt(init, root);
      forall i | 0 <= i < |init| ensures files[i] == init[i] {
      }
    }
  }

  lemma ArchiveEntriesSnoc(files: seq<string>, root: string, i: nat)
    requires i < |files|
    ensures ArchiveEntries(files[..i + 1], root) == ArchiveEntries(files[..i], root) + [(files[i], RelPath(files[i], root))]
    ensures ProgressEvents(files[..i + 1], root) == ProgressEvents(files[..i], root) + [(i, RelPath(files[i], root))]
  {
    assert files[..i + 1][..i] == files[..i];
  }

  /** A package's archive holds every resource of its definition, in
      document order, under `collection/deployment/file`. */
  lemma ArchiveMatchesManifest(cfg: Config, cols: seq<string>)
    requires WellFormed(cfg.fs) && CollectionsExist(cfg, cols) && cfg.dataDir != ""
    requires forall i :: 0 <= i < |cols| ==> ValidName(cols[i])
    ensures var es := Entries(Defs(cfg, cols)); var a := ArchiveEntries(AllFiles(cfg, cols), cfg.dataDir);
      && |a| == |es|
      && forall i :: 0 <= i < |a| ==> a[i].1 == EntryName(es[i])
  {
    var files := AllFiles(cfg, cols);
    ArchiveNames(cfg, cols);
    ArchiveEntriesAt(files, cfg.dataDir);
  }

  /** An exception raised while `run` writes the package: opening or dumping
      the definition, opening the archive, or writing its `at`-th member. */
  datatype Fault = NoFault | YamlOpenFails | YamlDumpFails | ZipOpenFails | ZipWriteFails(at: nat)

  /** `make_zip` returns: no fault, or a write fault past the last member. */
  predicate ZipCompletes(fault: Fault, n: nat)
  {
    fault.NoFault? || (fault.ZipWriteFails? && fault.at >= n)
  }

  /** The members written before `make_zip` stops. */
  function MembersWritten(fault: Fault, n: nat): (k: nat)
    ensures k <= n
  {
    if fault.ZipOpenFails? then 0 else if fault.ZipWriteFails? && fault.at < n then fault.at else n
  }

  /** The callback calls made before `make_zip` stops: the call for a member
      comes before its write. */
  function CallsMade(fault: Fault, n: nat): (k: nat)
    ensures k <= n
  {
    if fault.ZipOpenFails? then 0 else if fault.ZipWriteFails? && fault.at < n then fault.at + 1 else n
  }

  /** `DataPackageGenerator`: the validated inputs, the three output paths,
      the definition generator, and what `run` has produced. */
  class DataPackageGenerator {
    const dataPath: string
    const outputPath: string
    const hasCallback: bool
    const logPath: string
    const yamlPath: string
    const zipPath: string
    const yamlGenerator: YamlDefinitionGenerator
    /** The output files this generator has created and not removed. */
    var written: set<string>
    /** The document in the definition file, once it is dumped. */
    var yamlDoc: Option<Node>
    /** The archive's `(source, arcname)` members, in write order. */
    var archive: seq<(string, string)>
    /** The `(index, arcname)` arguments of the callback calls, in call order. */
    var progress: seq<(int, string)>

    /** The three output paths are different files. */
    predicate Valid()
    {
      logPath != yamlPath && yamlPath != zipPath && logPath != zipPath
    }

    constructor (dataPath: string, outputPath: string, hasCallback: bool,
                 logPath: string, yamlPath: string, zipPath: string, yamlGenerator: YamlDefinitionGenerator)
      ensures this.dataPath == dataPath && this.outputPath == outputPath && this.hasCallback == hasCallback
      ensures this.logPath == logPath && this.yamlPath == yamlPath && this.zipPath == zipPath
      ensures this.yamlGenerator == yamlGenerator
      ensures written == {} && yamlDoc == None && archive == [] && progress == []
    {
      this.dataPath := dataPath;
      this.outputPath := outputPath;
      this.hasCallback := hasCallback;
      this.logPath := logPath;
      this.yamlPath := yamlPath;
      this.zipPath := zipPath;
      this.yamlGenerator := yamlGenerator;
      written := {};
      yamlDoc := None;
      archive := [];
      progress := [];
    }

    /** The construction as a whole: validation, the output paths for one
        timestamp, then the definition generator (whose walk may raise). */
    static method New(fs: FileSystem, dataPath: string, outputPath: string, collections: seq<string>,
                      username: string, tz: TzArg, db: map<string, Zone>, ignoreDst: bool,
                      imageExt: Option<seq<string>>, videoExt: Option<seq<string>>, project: string,
                      hasCallback: bool, prefix: string, timestamp: string)
      returns (r: Result<DataPackageGenerator, PackageError>)
      ensures InitError(fs, dataPath, outputPath, collections, tz, db, imageExt, videoExt).Some? ==>
        r == Failure(InitError(fs, dataPath, outputPath, collections, tz, db, imageExt, videoExt).value)
      ensures InitError(fs, dataPath, outputPath, collections, tz, db, imageExt, videoExt).None? && AllExt(imageExt, videoExt).Failure? ==>
        r == Failure(AllExt(imageExt, videoExt).error)
      ensures InitError(fs, dataPath, outputPath, collections, tz, db, imageExt, videoExt).None? && AllExt(imageExt, videoExt).Success? ==>
        var cfg := Config(fs, dataPath, ResolveZone(tz, db).value, ignoreDst, imageExt.value, AllExt(imageExt, videoExt).value, project);
        && (r.Failure? <==> BuildResult(cfg, collections).Failure?)
        && (r.Failure? ==> r.error == BuildResult(cfg, collections).error)
        && (r.Success? ==>
              && fresh(r.value) && fresh(r.value.yamlGenerator) && r.value.Valid()
              && r.value.dataPath == dataPath && r.value.outputPath == outputPath && r.value.hasCallback == hasCallback
              && r.value.logPath == OutputPath(outputPath, prefix, project, timestamp, username, ".log")
              && r.value.yamlPath == OutputPath(outputPath, prefix, project, timestamp, username, ".yaml")
              && r.value.zipPath == OutputPath(outputPath, prefix, project, timestamp, username, ".zip")
              && r.value.yamlGenerator.Cfg() == cfg && r.value.yamlGenerator.collections == collections
              && r.value.yamlGenerator.dataDict == BuildResult(cfg, collections).value
              && r.value.yamlGenerator.files == AllFiles(cfg, collections)
              && r.value.written == {} && r.value.yamlDoc == None && r.value.archive == [] && r.value.progress == [])
    {
      if dataPath == "" || outputPath == "" {
        return Failure(BothPathsRequired);
      }
      if !IsDir(fs, dataPath) {
        return Failure(NoDirectory(dataPath));
      }
      if !IsDir(fs, outputPath) {
        return Failure(NoDirectory(outputPath));
      }
      if NoExt(imageExt) && NoExt(videoExt) {
        return Failure(NoExtension);
      }
      var missing := CheckCollections(fs, dataPath, collections);
      if missing.Some? {
        return Failure(NoDirectory(missing.value));
      }
      var zone := ResolveZone(tz, db);
      if zone.None? {
        return Failure(BadTimezone);
      }
      OutputPathsDistinct(outputPath, prefix, project, timestamp, username);
      var logPath := OutputPath(outputPath, prefix, project, timestamp, username, ".log");
      var yamlPath := OutputPath(outputPath, prefix, project, timestamp, username, ".yaml");
      var zipPath := OutputPath(outputPath, prefix, project, timestamp, username, ".zip");
      var g := YamlDefinitionGenerator.New(fs, dataPath, collections, zone.value, ignoreDst, imageExt, videoExt, project);
      match g
      case Failure(e) =>
        return Failure(e);
      case Success(gen) =>
        var p := new DataPackageGenerator(dataPath, outputPath, hasCallback, logPath, yamlPath, zipPath, gen);
        return Success(p);
    }

    /** The loop that validates the collection paths: the first one that is
        not a directory. */
    static method CheckCollections(fs: FileSystem, dataPath: string, collections: seq<string>) returns (missing: Option<string>)
      ensures missing == MissingCollection(fs, dataPath, collections)
    {
      var i := 0;
      while i < |collections|
        invariant 0 <= i <= |collections|
        invariant MissingCollection(fs, dataPath, collections) == MissingCollection(fs, dataPath, collections[i..])
      {
        var path := Join(dataPath, collections[i]);
        if !IsDir(fs, path) {
          return Some(path);
        }
        assert collections[i..][1..] == collections[i + 1..];
        i := i + 1;
      }
      return None;
    }

    /** `make_zip(zip_path, files)` with the definition generator's files: the
        archive is created afresh; for each file the callback, when there is
        one, hears its index and member name, and then the file is written
        under that name. */
    method MakeZip(fault: Fault) returns (ok: bool)
      requires fault.NoFault? || fault.ZipOpenFails? || fault.ZipWriteFails?
      modifies this`written, this`archive, this`progress
      ensures ok <==> ZipCompletes(fault, |yamlGenerator.files|)
      ensures written == old(written) + (if fault.ZipOpenFails? then {} else {zipPath})
      ensures !fault.ZipOpenFails? ==>
        archive == ArchiveEntries(yamlGenerator.files[..MembersWritten(fault, |yamlGenerator.files|)], dataPath)
      ensures fault.ZipOpenFails? ==> archive == old(archive)
      ensures progress == old(progress) +
        (if hasCallback then ProgressEvents(yamlGenerator.files[..CallsMade(fault, |yamlGenerator.files|)], dataPath) else [])
    {
      if fault.ZipOpenFails? {
        assert yamlGenerator.files[..0] == [];
        return false;
      }
      written := written + {zipPath};
      archive := [];
      ok := WriteMembers(yamlGenerator.files, fault);
    }

    /** The member loop of `make_zip` over `files`, on a freshly created
        archive. */
    method WriteMembers(files: seq<string>, fault: Fault) returns (ok: bool)
      requires fault.NoFault? || fault.ZipWriteFails?
      modifies this`archive, this`progress
      ensures ok <==> ZipCompletes(fault, |files|)
      ensures archive == old(archive) + ArchiveEntries(files[..MembersWritten(fault, |files|)], dataPath)
      ensures progress == old(progress) +
        (if hasCallback then ProgressEvents(files[..CallsMade(fault, |files|)], dataPath) else [])
    {
      var i := 0;
      while i < |files|
        invariant 0 <= i <= |files|
        invariant fault.ZipWriteFails? ==> i <= fault.at
        invariant archive == old(archive) + ArchiveEntries(files[..i], dataPath)
        invariant hasCallback ==> progress == old(progress) + ProgressEvents(files[..i], dataPath)
        invariant !hasCallback ==> progress == old(progress)
      {
        ArchiveEntriesSnoc(files, dataPath, i);
        var name := RelPath(files[i], dataPath);
        if hasCallback {
          progress := progress + [(i, name)];
        }
        if fault == ZipWriteFails(i) {
          return false;
        }
        archive := archive + [(files[i], name)];
        i := i + 1;
      }
      assert files[..i] == files;
      return true;
    }

    /** `run()`: the log file is opened first, then the definition is dumped
        and the archive built. When either raises, only the log file is
        removed before the exception propagates; a definition or archive
        already created stays. */
    method Run(fault: Fault) returns (ok: bool)
      requires Valid()
      modifies this`written, this`yamlDoc, this`archive, this`progress
      ensures ok <==> ZipCompletes(fault, |yamlGenerator.files|)
      ensures ok ==> logPath in written
      ensures !ok ==> logPath !in written
      ensures yamlPath in written <==> yamlPath in old(written) || !fault.YamlOpenFails?
      ensures zipPath in written <==> zipPath in old(written) || fault.NoFault? || fault.ZipWriteFails?
      ensures written - {logPath, yamlPath, zipPath} == old(written) - {logPath, yamlPath, zipPath}
      ensures ok ==> yamlDoc == Some(DataDictNode(yamlGenerator.dataDict))
      ensures ok ==> archive == ArchiveEntries(yamlGenerator.files, dataPath)
      ensures ok ==> progress == old(progress) + (if hasCallback then ProgressEvents(yamlGenerator.files, dataPath) else [])
      ensures fault.YamlOpenFails? || fault.YamlDumpFails? ==>
        yamlDoc == old(yamlDoc) && archive == old(archive) && progress == old(progress)
      ensures !(fault.YamlOpenFails? || fault.YamlDumpFails?) ==> yamlDoc == Some(DataDictNode(yamlGenerator.dataDict))
      ensures fault.ZipOpenFails? ==> archive == old(archive) && progress == old(progress)
      ensures fault.NoFault? || fault.ZipWriteFails? ==>
        var files := yamlGenerator.files;
        && archive == ArchiveEntries(files[..MembersWritten(fault, |files|)], dataPath)
        && progress == old(progress) + (if hasCallback then ProgressEvents(files[..CallsMade(fault, |files|)], dataPath) else [])
    {
      written := written + {logPath};
      if fault.YamlOpenFails? {
        written := written - {logPath};
        return false;
      }
      written := written + {yamlPath};
      if fault.YamlDumpFails? {
        written := written - {logPath};
        return false;
      }
      yamlDoc := Some(DataDictNode(yamlGenerator.dataDict));
      ok := MakeZip(fault);
      if ok {
        assert yamlGenerator.files[..|yamlGenerator.files|] == yamlGenerator.files;
      } else {
        written := written - {logPath};
      }
    }
  }
}
