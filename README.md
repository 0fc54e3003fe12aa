# trapper-client-backup core, modelled in Dafny

This project models the core of the Trapper desktop client, then proves properties of that model. The client packages camera-trap media for upload to a Trapper server. A media root holds collections. Each collection holds deployments, and each deployment holds image and video files.

The client can:
- build a YAML definition and a zip archive of selected collections (`package.py`);
- derive a deployments template;
- check local deployments against the server;
- upload the package over FTP (`main.py`, `ftp.py`);
- query the server's research projects (`trapper_con.py`);
- convert media files (`convert.py`).

Modelling choices:

- **File system.** The local file system is a value. It maps each directory to its listing, in the order the platform returns it. It also maps each regular file to its capture-time sources: the parsed EXIF original-capture tag and the modification time. `os.listdir`, `os.path.isdir`, `os.path.isfile` and `os.walk` are functions over that value (`LocalFs`).
- **Paths.** Paths are POSIX strings. `os.path.join`, `basename`, `splitext` and `relpath` are modelled in `PyPath`. The `str` helpers (`lower`, `split`, `find`, `int()`, `str(int)`) are modelled in `PyStr`.
- **Times.** Times are whole seconds. An aware time is a wall-clock time with its UTC offset, and `astimezone` keeps the instant it denotes. A time zone is a tz-database table of periods: the total offset and its daylight-saving part (`TimeNorm`).
- **Servers.** What a server does is an input. For each FTP call, that is whether it returns or which kind of exception it raises. For HTTP calls, it is the decoded JSON response.
- **Classes.** Classes whose fields the source updates in place become Dafny classes with `modifies` frames:
  - `FTPClient`;
  - `TrapperConnection`;
  - the two generators of `package.py`;
  - `MediaConverter`;
  - the progress state of the upload and convert screens;
  - the `validated` flag;
  - the FTP credentials of the screen manager.
- **Loops.** Loops in the source are methods with loop invariants. Each is proved equal to a specification function, and the properties are proved about that function. Examples: the three-level manifest walk, the zip loop, the templating walk, validation, the role filter, and the converter's match collection.

Where the code and its description differ, the model follows the code:
- The "nothing to package" check runs at the end of every collection. So an empty first collection fails even when later collections have files, and zero collections never fail (`Manifest.BuildOutcome`).
- In `run`, the `raise` sits inside the removal loop. Only the log file is removed before the exception propagates (`Package.DataPackageGenerator.Run`).
- `set_ftp_directory` catches only `OSError` (`IOError`), and ftplib's permanent-error reply is not one. So `MKD` is sent only on an `OSError`, a refused `CWD` propagates, and the client never changes into the created directory (`Ftp.FtpClient.SetFtpDirectory`).
- `close_connection` leaves the client unconnected only when `QUIT` returns. Without a session, or when `QUIT` raises, the flag is unchanged and the exception propagates (`Ftp.FtpClient.CloseConnection`).
- The package validation accepts one extension list being `None`. `image_ext + video_ext` then raises `TypeError` in the definition generator (`Package.AllExt`).
- The converter's filter with a `None` extension list raises only when some walked directory has a file (`Convert.FilterFiles`).
- When the Trapper host has no `//`, `get_ftp_credentials` raises `IndexError` after `ftp_host` has already been set from the settings (`App.ScreenManager.GetFtpCredentials`).

## Model

| member | source | states |
|---|---|---|
| PyPath.SplitExt | package.py:111 | the stem and the extension concatenate back to the path; the extension is empty or one dot followed by no dot and no separator |
| PyPath.SplitExtRule | package.py:111 | an extension is split off only when the stem's base name has a character other than a dot; without one, everything in the base name before its last dot is a dot |
| PyPath.SplitExtLeadingDots | package.py:111 | a base name of leading dots and a dot-free name, such as .bashrc or .., has no extension |
| PyPath.FilterByExt | package.py:118-119 | keeps exactly the names whose lower-cased extension is in the list, no more than the input |
| PyPath.FilterByExtConcat | package.py:118-119 | filtering distributes over concatenation, so input order is kept |
| PyPath.HasExtConcat | package.py:61 | a name matches the joined image and video lists iff it matches either list |
| PyPath.RelPathOfJoins | package.py:272 | the archive name of data_dir/collection/deployment/file is collection/deployment/file |
| TimeNorm.AsTimezone | package.py:37 | a conversion keeps the instant and takes the target zone's offset at that instant |
| TimeNorm.AsTimezoneTwice | package.py:37 | converting to one zone and then another is converting to the second |
| TimeNorm.LocalizeIgnoreDst | package.py:32-37 | the result denotes the naive time read in standard time, and is expressed in the zone |
| TimeNorm.CaptureTime | package.py:99-105 | the UTC time recorded is the naive time minus the standard offset when DST is ignored, minus the zone's UTC offset otherwise |
| TimeNorm.IgnoreDstIsStandardTime | package.py:32-37 | ignoring DST records what tagging the naive time with the standard offset and converting to UTC records; the detour through the zone does not move it |
| TimeNorm.IgnoreDstMatters | package.py:100-103 | the two localisations differ by exactly the DST offset, and agree iff it is zero |
| TimeNorm.PeriodBeforeTransitions | package.py:33-34 | before every transition the zone's first period applies |
| TimeNorm.PeriodOfLastStarted | package.py:33-34 | the period in force is that of the last transition already started |
| Manifest.CollectionNode | package.py:66-75 | a collection record has the keys name, project_name, timezone, timezone_ignore_dst, resources_dir, deployments, resources in that order |
| Manifest.NaiveCaptureTime | package.py:90-98 | an image uses its EXIF original time when present and its mtime otherwise; a video uses its mtime |
| Manifest.GetResourceDef | package.py:109-116 | file is the listed name; name plus the splitext extension is the file name; the date is that of the joined path |
| Manifest.Deployments | package.py:131-135 | every listed deployment is a directory under the collection |
| Manifest.Resources | package.py:139-144 | every resource is a file under the deployment whose extension is selected |
| Manifest.ResourceDefs | package.py:145-147 | one record per resource, each naming its file, in listing order |
| Manifest.ManifestMatchesFiles | package.py:125-152 | the files list is exactly the resources_level/file paths of the manifest's records, in collection, deployment, listing order |
| Manifest.BuildOutcome | package.py:121-166 | no collections gives an empty definition; building fails iff the first collection has no files; success with collections means files is non-empty |
| Manifest.FirstCollectionFiles | package.py:159-165 | the first collection's files head the files list |
| Manifest.FilesPerCollectionAt | package.py:125-152 | the k-th block of files is the k-th collection's files |
| Manifest.EntriesValid | package.py:125-152 | every record names a non-empty collection, deployment and file without separators |
| Manifest.ArchiveNames | package.py:268-276 | each file's path relative to the data path is its record's collection/deployment/file name |
| Package.AllExt | package.py:61 | the joined list is image then video extensions, and TypeError exactly when one list is None |
| Package.YamlDefinitionGenerator.constructor | package.py:45-63 | all fields as given, all_ext the joined lists, no files yet |
| Package.YamlDefinitionGenerator.New | package.py:45-64 | fails with TypeError on a None list, else fails iff the definition cannot be built; on success holds the definition and exactly the files list |
| Package.YamlDefinitionGenerator.BuildDataDict | package.py:121-166 | result is the specified definition or nothing-to-package error; files is the full files list on success |
| Package.YamlDefinitionGenerator.BuildCollection | package.py:126-155 | the collection record and the appended files are those of the specification |
| Package.YamlDefinitionGenerator.BuildDeployments | package.py:136-152 | one record per deployment, in order, and their files appended |
| Package.YamlDefinitionGenerator.BuildDeployment | package.py:137-152 | the deployment record and its files appended |
| Package.YamlDefinitionGenerator.RecordResources | package.py:145-150 | one resource record per resource and its joined path appended, in order |
| Package.MissingCollection | package.py:216-219 | none iff every collection is a directory; otherwise the first missing one's path |
| Package.InitError | package.py:197-234 | no error iff both paths given and existing, some extension given, every collection existing and the zone resolving; each error names its cause |
| Package.GetPackageName | package.py:251-255 | the name has no spaces and is the prefixed stem with spaces replaced, followed by the extension |
| Package.OutputPathsDistinct | package.py:236-246 | log, yaml and zip names share one stem and the three paths differ |
| Package.JoinDistinct | package.py:238-246 | joining different names that start alike to one directory gives different paths |
| Package.ArchiveEntriesAt | package.py:271-276 | the i-th archive member is the i-th file under its relative name; the i-th callback is (i, that name) |
| Package.ArchiveEntriesSnoc | package.py:271-276 | one loop step appends exactly one member and one callback |
| Package.ArchiveMatchesManifest | package.py:268-276 | the archive has one member per manifest record, named as that record |
| Package.MembersWritten | package.py:271-276 | no more members are written than files |
| Package.CallsMade | package.py:271-276 | no more callbacks than files |
| Package.DataPackageGenerator.constructor | package.py:178-249 | fields as given, nothing written yet |
| Package.DataPackageGenerator.New | package.py:178-249 | each validation failure before anything is built; then the generator error; on success the three paths from one stem and the built definition |
| Package.DataPackageGenerator.CheckCollections | package.py:215-219 | the result is the first missing collection path |
| Package.DataPackageGenerator.MakeZip | package.py:268-276 | the zip is created unless opening fails; members and callbacks in file order, the callback for a member before its write |
| Package.DataPackageGenerator.WriteMembers | package.py:271-276 | the archive and the callback log grow by exactly the members reached |
| Package.DataPackageGenerator.Run | package.py:278-297 | success iff no fault; on failure only the log file is removed; a YAML failure leaves document, archive and callbacks as they were; otherwise the document is written, a zip that cannot be opened leaves archive and callbacks as they were, and a write fault leaves the members and callbacks reached before it |
| App.LocationId | main.py:905-911 | empty without a dash; otherwise the text after the first dash |
| App.LocationIdOf | main.py:907-911 | a dash-free prefix joined by a dash yields the suffix |
| App.FileDate | main.py:873-897 | a date exactly for files with an image or video extension |
| App.DatesCount | main.py:872-897 | one date per file with a selected extension |
| App.DatesFrom | main.py:872-897 | every collected date comes from some listed file |
| App.MinOf | main.py:902 | the minimum is an element and no larger than any element |
| App.MaxOf | main.py:903 | the maximum is an element and no smaller than any element |
| App.StepRow | main.py:869-911 | no row iff the directory is the collection root or has no dated file |
| App.StepRowFacts | main.py:899-911 | a row has deploymentID the directory name, its locationID, start the minimum and end the maximum of the dates, start <= end |
| App.RowsExactly | main.py:866-911 | a row is produced iff some walked directory produces it |
| App.TemplateRowsSnoc | main.py:865-911 | each collection appends exactly its walk's rows |
| App.TemplateRowFacts | main.py:865-911 | every template row has start <= end, its locationID, and comes from one walked directory of one selected collection |
| App.CollectDates | main.py:872-897 | the loop collects exactly the specified dates |
| App.DirectoryRow | main.py:869-911 | one directory's loop body gives exactly its specified row |
| App.CollectionRows | main.py:866-911 | the walk loop produces exactly the collection's rows |
| App.DeploymentsTemplate | main.py:865-911 | the nested loop produces exactly the template rows |
| App.FirstEmpty | main.py:946-955 | the first collection without deployments, every earlier one having some |
| App.Missing | main.py:956-957 | no more errors than local deployments |
| App.MissingExactly | main.py:956-957 | a pair is reported iff its deployment is local and not on the server |
| App.ErrorsSnoc | main.py:956-957 | each collection appends exactly its missing deployments |
| App.ErrorsExactly | main.py:946-957 | a pair is an error iff its collection is selected, the deployment is local and absent from the server |
| App.ValidatedIff | main.py:946-978 | validated iff every collection has deployments and every local deployment is on the server |
| App.PackageScreen.Validate | main.py:946-978 | outcome as specified; code 0 iff validated and then the flag is set, else 1 and the flag cleared |
| App.DeriveHost | main.py:348-350 | a non-empty setting is kept; otherwise the host is the text after the first // and IndexError without one |
| App.DeriveHostOfUrl | main.py:349-350 | scheme://rest yields rest |
| App.DeriveLogin | main.py:351-353 | a non-empty setting is kept; otherwise the login is the text before the first @ |
| App.DeriveLoginOfAddress | main.py:352-353 | user@domain yields user |
| App.ScreenManager.GetFtpCredentials | main.py:347-356 | the three derived settings; on IndexError only the host is set |
| App.Files2Upload | main.py:1186 | the non-empty of yaml and zip, in that order |
| App.FirstNotFile | main.py:1195-1200 | the first path that is not a file |
| App.UploadStartsWithFiles | main.py:1176-1203 | the upload starts iff a connection exists, some file is selected and every selected file exists, and then with the selected files |
| App.Upload | main.py:1176-1203 | the check loop gives the specified outcome |
| App.UploadScreen.StartFile | main.py:1119-1143 | without resume the bar starts at 0 and nothing is sent; with resume CWD (and MKD after an OSError) and, once the directory is selected, SIZE of the file's base name; the bar starts at the remote size, or it aborts with the resume message |
| App.UploadScreen.ProgressCallback | main.py:1100-1113 | the bar grows by blocksize; a stop request clears the flag, closes ignoring errors, reconnects and raises |
| App.NotificationOf | main.py:1063-1088 | processed iff status 200; otherwise the response's message and errors, defaulting to the no-response message and nothing |
| App.ConvertScreen.ProgressCallback | main.py:589-596 | the bar grows by one; a stop request clears the flag and raises the stop message |
| Ftp.ParseServer | ftp.py:35-40 | one colon splits host and port with port defaulting to 21; any other string is the host with port 21 |
| Ftp.ParseServerParts | ftp.py:35-40 | a colon-free host and a colon-free port text split into the host and the port parsed with default 21 |
| Ftp.ParseServerHostPort | ftp.py:35-40 | host:port with a colon-free host parses back to the pair |
| Ftp.ParseServerBadPort | ftp.py:37-40 | a non-integer port gives 21 |
| Ftp.StorCommand | ftp.py:68-69 | STOR followed by the path's base name: the longest suffix without a slash |
| Ftp.FtpClient.constructor | ftp.py:28-40 | parsed host and port, not connected, no session |
| Ftp.FtpClient.CloseConnection | ftp.py:77-79 | QUIT is sent; unconnected iff it returns; an exception leaves the flag |
| Ftp.FtpClient.Connect | ftp.py:42-58 | closes first when connected; a new session; connected iff login succeeds; a permanent error is swallowed, others propagate |
| Ftp.FtpClient.SetFtpDirectory | ftp.py:60-64 | CWD, and MKD only after an OSError; success iff CWD succeeds or MKD does after an OSError |
| Ftp.FtpClient.Upload | ftp.py:66-75 | fails when the file cannot be opened; otherwise one STOR with the block size, rest and the read offset rest_pos or 0 |
| TrapperCon.UrlJoin | trapper_con.py:75 | the absolute path replaces the base's path part: the result is the base up to the end of its authority, then the path |
| TrapperCon.RprojectsUrl | trapper_con.py:75-77 | base?query&psize=N, with N reading back as psize |
| TrapperCon.RprojectsResult | trapper_con.py:79-90 | unfiltered when results are missing or empty or no roles; otherwise filtered |
| TrapperCon.GrantedRoles | trapper_con.py:87-88 | exactly the requested roles the entry grants |
| TrapperCon.RoleHitsAre | trapper_con.py:86-88 | every hit is the project, there is one per requested role the entry grants, and so some iff some requested role is granted |
| TrapperCon.EntryHitsAre | trapper_con.py:82-88 | every hit is the project, one per pair of an entry for the user and a requested role it grants, so some iff such a pair exists |
| TrapperCon.FilteredExactly | trapper_con.py:80-89 | every kept project is a result granting the user a role, and every such result is kept |
| TrapperCon.FilteredConcat | trapper_con.py:82-88 | filtering distributes over concatenation, so order is kept |
| TrapperCon.FilterDuplicates | trapper_con.py:82-88 | a project granting both requested roles appears twice |
| TrapperCon.TrapperConnection.constructor | trapper_con.py:22-29 | login URL fixed from the host, not logged in |
| TrapperCon.TrapperConnection.TestLogin | trapper_con.py:31-49 | credentials kept; returns the error code; logged in iff it is "0", then the username from the response |
| TrapperCon.TrapperConnection.GetRprojects | trapper_con.py:73-90 | the URL and result as specified |
| TrapperCon.TrapperConnection.ProjectHits | trapper_con.py:83-88 | the loop's hits for one project are those of the specification |
| TrapperCon.TrapperConnection.MatchRoles | trapper_con.py:86-88 | the inner loop's hits are those of the specification |
| Convert.LastComponent | convert.py:71 | a dot-free suffix of ext following its last dot |
| Convert.ReplaceExtSplit | convert.py:70-73 | the result splits into the original stem and the new extension |
| Convert.FilterFiles | convert.py:75-76 | TypeError iff the list is None and there are names; otherwise the extension filter |
| Convert.StepMatchesAt | convert.py:81-82 | the i-th match is the joined path of the i-th name, with no backslash |
| Convert.WalkMatchesCount | convert.py:78-83 | one match per selected file of the walk |
| Convert.WalkMatchesNone | convert.py:78-83 | a None list fails iff some directory has files, and otherwise matches nothing |
| Convert.WalkMatchesFailurePersists | convert.py:78-83 | a failure stops the walk |
| Convert.GetMatches | convert.py:78-83 | the walk loop gives the specified matches |
| Convert.MatchSteps | convert.py:80-83 | the loop over the walk steps gives the specified matches or the first raise |
| Convert.WalkMatchesSnoc | convert.py:80-82 | one more step raises with its filter or appends its matches |
| Convert.AppendMatches | convert.py:81-82 | one directory's matches in listing order |
| Convert.ConverterInputs | convert.py:29-68 | succeeds iff both paths exist, some extension is given, both match lists can be built and they hold a file |
| Convert.NumberedAt | convert.py:100-130 | the k-th callback carries index start + k and the k-th file |
| Convert.NumberedConcat | convert.py:100-130 | counting through two lists continues the numbering |
| Convert.HandleOrder | convert.py:100-130 | images get indices 1 to n, then videos continue from n + 1 |
| Convert.MediaConverter.constructor | convert.py:14-68 | fields as given, nfiles is the sum of the matches |
| Convert.MediaConverter.New | convert.py:14-68 | fails as specified; otherwise the matches, nfiles > 0 and the default resize size when none is given |
| Convert.MediaConverter.Handle | convert.py:100-130 | callbacks (1, first image) onwards, images then videos, one per file; when the callback raises at some number, handle fails right after that call |
| Convert.MediaConverter.CountThrough | convert.py:104-109 | the counter advances by one per file with one callback each, up to and including a callback that raises |

## Left out

- Kivy screens, popups, the file chooser, messages shown in the interface, `progress_msg` texts and the threads that run uploads and conversions: interface and concurrency.
- Settings persistence and Windows DPI calls: platform code.
- HTTP requests and JSON decoding: a response is an input value. `get_deployments`, `get_cp_results` and `collection_process` only forward requests and CSV tables, so they are not modelled.
- `urljoin` is modelled only for an absolute path joined to a base: the path replaces everything after the base's authority.
- EXIF reading, `strptime`, file times and `utime`: capture times are inputs in the file system value.
- The `%Y-%m-%dT%H:%M:%S%z` formatting of dates and the `now()` timestamp text: a date is its UTC instant, and the timestamp is an input string.
- pytz zone look-up: the tz database is a map of zone tables, and for a naive time the period of the last transition started applies.
- TimeNorm.LocalizeIgnoreDst: never fails. In pytz, `utcoffset` and `dst` of a naive time localize it with `is_dst=None`, which raises `AmbiguousTimeError` in a fall-back fold and `NonExistentTimeError` in a spring-forward gap. So with `timezone_ignore_dst` set, `build_data_dict` (and the `DataPackageGenerator` constructor) and the template loop raise for such a capture time; Manifest.GetDateRecorded, Manifest.BuildResult and App.StepRow do not model that exception. Likewise `localize`'s `is_dst=False` choice in a fold or gap is not modelled: fold and gap detection is outside the zone model.
- YAML serialisation and zip compression: only the document tree, the archive member names and their order are modelled.
- Log messages: only the creation of the log file is modelled.
- Errors raised by `os.listdir` and `os.walk` on unreadable directories: the file system value is consistent.
- `str.lower` is modelled on ASCII letters only. `int()` accepts optional surrounding whitespace, a sign and ASCII digits; underscores and non-ASCII digits are not modelled.
- Windows path separators: paths are POSIX, so the backslash replacement in convert and upload changes nothing.
- A `project` of `None` raises TypeError in `get_package_name`; a project name is always a string here.
- Response JSON values that are not strings or mappings.
- App.UploadScreen.StartFile: models the resume-start decision of `thread_upload`. The per-file loop, `getsize`, the transfer call and the final close and processing trigger are not modelled.
- `stop_thread_upload` and `stop_thread_convert`: they only set the stop flags that the progress callbacks read.
- The conversion work of `handle`: ffmpeg, image thumbnails, copies, `get_outfile_path`, `makedirs` and `update_mdt`. Only the callback numbering is modelled.
- `FTPS.ntransfercmd` TLS session reuse and socket behaviour: foreign library code.
