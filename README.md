# gop vendoring core in Dafny

gop is a command-line tool that builds Go projects outside `GOPATH`. A gop project has its own `src`
directory, with a `src/vendor` directory for copies of its dependencies. This project models the
core of gop. That core has three parts:

- **Dependency resolution.** This covers the standard-library membership set, the package
  classifier `getPkgType`, and the recursive import walk `ListImports`, in both its typed revision
  (`cmd/package.go`) and its string revision (`cmd/status.go`).
- **Vendor-tree maintenance.** This covers the commands `add`, `update`, `ensure` and `rm`, the
  `status` report, and the directory listing and copy they rely on.
- **Argument and environment rewriting.** This is what `build`, `release`, `test`, `vet` and
  `run` do before they start the Go toolchain.

The model also covers some small helpers:

- the import-path splitter `NormalizeName`;
- the map-backed settings `Get`/`Set`;
- `snakeCasedName`;
- the rebuild classifier of `gop run`.

How the model is built:

- **The disk is a value.** `Files.Fs` maps each path to a file or a directory, and a directory
  lists its entry names in reading order. A set of "broken" paths holds those whose stat or open
  fails with an error other than "does not exist". `Files.FileSystem` is a class that holds the
  current tree. Its methods `MkdirAll`, `Copy` and `RemoveAll` change the tree in place, and the
  commands that change the disk are methods that take it.
- **Paths.** `filepath.Join` is concatenation with `/` (`Strings.PathJoin`).
- **The Go toolchain's package reader.** `build.Context.Import` becomes `GoBuild.Toolchain`. That
  is an oracle from the exact import request to the imports and test imports it reads, together
  with the standard-library path set and `GOPATH`. A directory with no Go files reads as empty
  import lists.
- **Recursion depth.** The two import walks and `add`, `update` and `ensure` recurse with no
  visited set, so their depth is bounded only by the goroutine stack. The model gives each of
  them a `Fuel` value, which is the stack depth left, and running out yields the error
  `StackExhausted`. For the two import walks, `Package.SelfImportExhausts` and
  `Status.SelfImportExhausts` show that a package importing itself exhausts every fuel; no such
  lemma is stated for `add`, `update` or `ensure`.
- **Process-wide state is a class.** `curTarget` becomes `Build.Session`, `updatedPackage`
  becomes `Ensure.Ensurer`, and the settings map becomes `Global.GlobalConfig`.
- **Interface values.** Go's `interface{}` values become the datatype `Global.Value`. A type
  assertion that panics in Go becomes the error `TypeAssertionPanic`.
- **Index panics.** With no target chosen and an empty target list, `analysisTarget` indexes
  `config.Targets[0]` (`cmd/build.go:53-55`), which panics in Go; the model returns the error
  `NoTargets` instead.
- **Files from different revisions keep separate modules.** Some of the source files come from
  different revisions and declare the same identifiers. Each such file gets its own module:
  `Package` and `Status` for the two `ListImports`, and `Global` and `Config` for the two
  `GlobalConfig`.
- **Duplicated helpers are modelled once.** `cmd/ensure.go` and `cmd/status.go` repeat
  `statDir`/`StatDir`/`CopyDir`/`isDirExist` word for word from `cmd/util.go`, and these are
  modelled once, in `CmdUtil`. The `GOPATH=` rewriting that four commands share is modelled once,
  as `Build.SetGopathEnv`.

Where the code and its tests disagree, the model follows the code:

- **An empty vendor directory stays behind.** `CopyDir` creates the destination before it lists
  the source (`cmd/util.go:132-141`). So adding a package that is missing from `GOPATH` leaves an
  empty vendor directory behind, as `CmdUtil.CopyDirLeavesDestination` and `Add.AddMissingSource`
  state. The integration test at `cmd/integration_test.go:86-88` expects no directory.
- **Keys of three segments are not supported.** `cmd/config_test.go` uses keys of three segments,
  which neither `Get` supports. `Global.LongKeysIgnored` states what the code does with them.
- **Two results that look unintended are modelled as written.** The model keeps two
  results that look unintended but follow directly from the code:
  - `NormalizeName` keeps three segments even for the hosts whose table depth is 2
    (`NameUtil.GopkgKeepsThree`).
  - A `GOPATH=` entry at index 0 is duplicated rather than replaced, because the test is
    `gopathIdx > 0` (`Build.GopathAtZeroDuplicated`).

## Model

| member | source | states |
|---|---|---|
| NameUtil.NormalizeName | util/util.go:17-32 | An empty name gives ("", ""); a name whose first segment is not a known host, or which has no more segments than that host's depth, is its own parent with no sub-package |
| NameUtil.NormalizeSplits | util/util.go:23-28 | When the name is split, the parent is exactly its first three segments, and parent + "/" + sub gives the name back (a three-segment name is its own parent) |
| NameUtil.NormalizeKeepsHost | util/util.go:7-14 | A split name and its parent both start with the host segment and a '/', and every host of the table is at least eight characters long |
| NameUtil.NormalizeIdempotent | util/util.go:18-32 | The parent is a fixed point: normalizing it again gives it back with an empty sub-package |
| NameUtil.GopkgKeepsThree | util/util.go:7-27 | A four-segment gopkg.in path (table depth 2) still keeps three segments as its parent, because the slice is parts[:3] whatever the depth |
| Add.CopyStep | cmd/add.go:42-70 | A vendor copy is kept, unchanged, exactly when it exists and isUpdate is off; a stat failure other than "not exist" is returned; an existing file under isUpdate is the "Dest dir is a file" error |
| Add.AddSpec | cmd/add.go:33-94 | A relative or absolute name is refused with the disk unchanged |
| Add.AddByPhase | cmd/add.go:38-94 | Once past its guards, add is the copy step of the repository followed by what that step decides |
| Add.CopyPackage | cmd/add.go:42-70 | The copy step on the disk computes CopyStep and leaves the disk it describes |
| Add.Add | cmd/add.go:33-94 | add, run on the disk, returns the error and leaves the disk that AddSpec gives |
| Add.FinishAdd | cmd/add.go:68-94 | The rest of add after the copy step returns the error and leaves the disk that AddSpec gives |
| Add.ImportAll | cmd/add.go:72-93 | The listing and the loop, including the inner search for an earlier equal name, leave the disk and error of AddImports |
| Add.RunAdd | cmd/add.go:96-119 | No argument, or no $GOPATH, is an error with the disk unchanged; otherwise every argument is added in turn and the first failure is returned |
| Add.AddEachIsDedup | cmd/add.go:77-92 | The loop with its skip of earlier equal names adds exactly the first occurrences of the imports, in order |
| Add.RejectedByRepo | cmd/add.go:34-38 | A name is refused exactly when its repository is, and the repository of a repository is itself |
| Add.AddByRepo | cmd/add.go:38-40 | Adding a name gives the same disk and error as adding its NormalizeName parent |
| Add.CopyStepGrows | cmd/add.go:42-70 | Without isUpdate the copy step never removes a node and never changes a node's kind |
| Add.UpdateRecopies | cmd/add.go:42-70 | With isUpdate, a vendor copy that is a directory is removed and copied afresh: the step equals the missing-copy step on the disk RemoveAll leaves, and on success nothing is left below the copy but what the fresh copy made for its kept entries |
| Add.AddGrows | cmd/add.go:33-94 | Without isUpdate, add (with all the nested adds it makes) never removes a node and never changes a node's kind |
| Add.AddEachGrows | cmd/add.go:77-92 | Without isUpdate the loop over the imports only adds to the disk |
| Add.AddVendors | cmd/add.go:40-94 | When add succeeds without isUpdate, src/vendor/<repository> exists afterwards |
| Add.FreshCopyVendored | cmd/add.go:42-93 | A fresh vendor copy survives everything the adds of its imports do |
| Add.AddIdempotent | cmd/add.go:55-70 | Adding again without isUpdate, once add succeeded, changes nothing and returns no error |
| Add.AddEachVendors | cmd/add.go:77-92 | When the loop succeeds without isUpdate, every import not seen earlier is vendored when it ends |
| Add.AddImportsVendors | cmd/add.go:72-93 | After a fresh copy, a successful pass vendors every import the package's listing gives |
| Add.AddVendorsImports | cmd/add.go:33-94 | A first add without isUpdate that succeeds leaves the repository and every import of its listing vendored |
| Add.AddMissingSource | cmd/add.go:48-54 | Adding a repository $GOPATH/src lacks fails, and leaves behind the vendor directory CopyDir created |
| Add.AddGuards | cmd/add.go:33-36 | add succeeds only for a name that is neither relative nor absolute, and only with stack left |
| Update.Refusal | cmd/update.go:48-60 | update goes ahead exactly when the source exists and the vendor copy is missing or a directory; a vendor copy that is a file is the "Dest dir is a file" error |
| Update.UpdateSpec | cmd/update.go:40-99 | A relative or absolute name is refused, and any refusal of the stat checks leaves the disk unchanged with an error |
| Update.NeedUpdate | cmd/update.go:86-90 | A dependency is updated exactly when --full is set or its vendor directory is not a directory |
| Update.UpdateOne | cmd/update.go:40-99 | update, run on the disk, returns the error and leaves the disk that UpdateSpec gives |
| Update.UpdateDependencies | cmd/update.go:69-98 | The typed listing of the fresh copy and the loop over it leave the disk and error of UpdateImports |
| Update.RunUpdate | cmd/update.go:101-124 | No argument, or no $GOPATH, is an error with the disk unchanged; otherwise every argument is updated in turn and the first failure is returned |
| Update.RecopyStartsEmpty | cmd/update.go:62-64 | copyPkg always starts from a disk holding nothing at or below the vendor copy, and everything outside it kept |
| Update.UpdateEachIsDedup | cmd/update.go:74-97 | The loop with its skip of earlier equal records processes exactly the first occurrences, in order |
| Update.VendoredLeftAlone | cmd/update.go:86-96 | Without --full, records whose vendor directories all exist cause no update and no change |
| Ensure.EnsureStep | cmd/ensure.go:52-139 | Imports present under src, standard packages, "C", relative names and every import under --dry go on untouched; without --update an existing vendor directory goes on untouched; with --update a repository already updated goes on, and a restart records exactly the new repository |
| Ensure.Ensurer.Ensure | cmd/ensure.go:46-142 | ensure, run on the disk and the process-wide set of updated repositories, leaves the disk, the set and the error that EnsureSpec gives, a restart being a nested call |
| Ensure.Ensurer.Handle | cmd/ensure.go:52-139 | One turn of the loop performs EnsureStep on the disk, and changes the set only on a restart |
| Ensure.RunEnsure | cmd/ensure.go:144-177 | Without GOPATH it fails with the disk, the updated set and the current target unchanged; a target that cannot be chosen is returned as the error with the same three unchanged; otherwise the chosen target becomes current and ensure runs over src/<target dir>, giving the disk, the set and the error |
| Ensure.DryRunChangesNothing | cmd/ensure.go:70-74 | A dry run changes neither the disk nor the set, and fails only when the listing fails |
| Ensure.DryLoopChangesNothing | cmd/ensure.go:52-74 | A dry loop changes nothing and returns no error |
| Ensure.UpdatedGrows | cmd/ensure.go:79-102 | The set of updated repositories only grows across ensure and its restarts |
| Ensure.LoopUpdatedGrows | cmd/ensure.go:52-139 | The set of updated repositories only grows across the loop |
| Ensure.NoUpdateNoRecord | cmd/ensure.go:79-100 | Without --update the set of updated repositories stays as it was |
| Ensure.LoopNoRecord | cmd/ensure.go:52-139 | Without --update the loop leaves the set as it was |
| Ensure.NotFoundAbandons | cmd/ensure.go:110-129 | When neither the vendor copy nor the $GOPATH copy exists and --get is off, the scan ends without an error and without a change |
| Ensure.CopiedFromGopath | cmd/ensure.go:105-138 | A dependency only $GOPATH holds is copied into the vendor tree as a directory holding every listed entry that does not start with ".git", each with its kind, while no ".git" entry's target appears there that was not there before |
| Ensure.Ensurer.constructor | cmd/ensure.go:44 | No package has been updated when the process starts |
| Status.InitGoRepoPath | cmd/status.go:240-253 | The set init builds from the standard-path table is the closure of that table under cutting at a '/' |
| Status.CloseTable | cmd/status.go:242-253 | The two loops of init, over any table of paths, build exactly its closure under cutting at a '/' |
| Status.StdClosureMembership | cmd/status.go:242-257 | A path is in the closure exactly when it is a table entry or the part of an entry before one of its '/' |
| Status.PkixClosure | cmd/status.go:100-257 | "crypto/x509/pkix" puts "crypto/x509" and "crypto" in the set as well, so IsGoRepoPath holds for all three |
| Status.ListImportsSpec | cmd/status.go:280-347 | A successful listing never records a standard package, "C" or a relative name |
| Status.WalkImports | cmd/status.go:305-345 | A successful walk of the raw imports never records a standard package, "C" or a relative name |
| Status.SelfImportExhausts | cmd/status.go:280-347 | The walk keeps no visited set: a package below the root that imports itself exhausts any stack depth |
| Status.ListImports | cmd/status.go:280-347 | The loop and recursion the source runs return the ListImportsSpec result |
| Status.WalkCovers | cmd/status.go:305-345 | Every raw import that is not skipped is recorded, and so is everything its own listing (from ./name under rootPath or from $GOPATH/src/name) records |
| Status.ListingCovers | cmd/status.go:290-345 | A successful listing holds each direct import that is not skipped and everything that import lists in turn |
| Status.Report | cmd/status.go:66-95 | The report loop, with its inner search for an earlier equal name, returns the ReportFrom lines or the first isDirExist error |
| Status.RunStatus | cmd/status.go:29-98 | Without GOPATH, or with a target that cannot be chosen, it fails and the current target is unchanged; otherwise the chosen target becomes current and the imports of src/<target dir> are listed and reported |
| Status.ReportLinesSound | cmd/status.go:66-95 | Every reported line names an import not seen before and absent from projectRoot/src, and is marked exactly when src/vendor/<name> is a directory |
| Status.ReportDistinct | cmd/status.go:72-81 | No two reported lines name the same import |
| Status.ReportSound | cmd/status.go:66-95 | The report is sound line by line and names each import at most once |
| Status.ReportIncludes | cmd/status.go:66-95 | A first occurrence at or after position i that is absent from projectRoot/src is reported |
| Status.ReportComplete | cmd/status.go:66-95 | Every listed import absent from projectRoot/src is reported |
| Package.InitGoRepoPath | cmd/package.go:19-42 | goRepoPath is {"builtin"} plus the closure, under cutting at a '/', of every standard path not under "vendor/" |
| Package.GoRepoMembership | cmd/package.go:19-86 | A path is in goRepoPath exactly when it is "builtin", or a standard path not under "vendor/", or the part of one before one of its '/' |
| Package.GlobalOrStd | cmd/package.go:133-145 | After the project's own directories: GOPATH's vendor directory gives (GlobalGoPath, true), else a standard package gives (GoRoot, true), else (GlobalGoPath, false), each in both directions |
| Package.GetPkgType | cmd/package.go:99-146 | A project directory wins; a missing project directory with a vendor directory holding a ".go" entry is ProjectVendor; a file at either place is the "same name file" error and a failing stat is returned; without a ".go" entry the GOPATH and standard checks decide; a type is never Unknown on success, and "not existing" only comes with GlobalGoPath |
| Package.ListImportsSpec | cmd/package.go:155-235 | A successful listing records no "C", no relative name, no standard package and no record with Exist set |
| Package.WalkImports | cmd/package.go:180-233 | A successful walk of the raw imports records only such records |
| Package.ImportStep | cmd/package.go:181-232 | One raw import adds only such records |
| Package.SubImports | cmd/package.go:199-229 | The listing the walk descends into for an existing package holds only such records |
| Package.ListImports | cmd/package.go:155-235 | The loop and recursion the source runs return the ListImportsSpec result |
| Package.WalkCovers | cmd/package.go:180-233 | Every raw import that is not skipped and not standard is recorded with its classification, and when it exists its own listing is recorded too |
| Package.AbsentNotExpanded | cmd/package.go:194-205 | A package found nowhere is recorded as a global package and not listed further |
| Package.SelfImportExhausts | cmd/package.go:155-235 | The walk keeps no visited set: a project package that imports itself exhausts any stack depth |
| CmdUtil.IsDirExist | cmd/util.go:20-32 | (true, nil) exactly for a directory, (false, nil) exactly for a missing path, the "same name file" error exactly for a file, and the stat error otherwise |
| CmdUtil.IsFileExist | cmd/util.go:44-56 | The mirror image: (true, nil) exactly for a file, (false, nil) for a missing path, the "same name directory" error exactly for a directory |
| CmdUtil.StatDirSpec | cmd/util.go:108-118 | A root that is not a directory is the "not a directory or does not exist" error |
| CmdUtil.ListDir | cmd/util.go:65-99 | statDir's loop and recursion return the Listing of the directory |
| CmdUtil.StatDir | cmd/util.go:108-118 | StatDir returns StatDirSpec |
| CmdUtil.ListingShape | cmd/util.go:65-99 | Every listed path names a node below the listed directory, relative to recPath, with a trailing '/' exactly on directories, reached through no ".DS_Store" entry |
| CmdUtil.ListingComplete | cmd/util.go:65-99 | Conversely, every node reached from the listed directory through no ".DS_Store" entry is listed relative to recPath: a directory with a trailing '/' when directories are included, any other node unless only directories are listed |
| CmdUtil.EntriesShape | cmd/util.go:78-97 | The same for the listing of any sequence of entries of a directory |
| CmdUtil.EntryShape | cmd/util.go:79-96 | The same for the listing one entry contributes |
| CmdUtil.CopyDirSpec | cmd/util.go:126-164 | An existing destination is refused with the disk unchanged |
| CmdUtil.CopyDir | cmd/util.go:126-164 | The copy, run on the disk, leaves the disk and error CopyDirSpec gives |
| CmdUtil.CopyDirGrows | cmd/util.go:126-164 | CopyDir never removes a node or changes its kind, whether it succeeds or not |
| CmdUtil.FilterIsPerEntry | cmd/util.go:143-152 | The filter judges each listed path on its own: copying with it is copying the kept entries with no filter |
| CmdUtil.CopyEntriesGrows | cmd/util.go:148-162 | The copy loop keeps what it made before a failure, and when it succeeds every kept entry exists at its destination, as a directory exactly when the entry ends in '/' |
| CmdUtil.CopyEntriesOnlyTargets | cmd/util.go:148-162 | Every node the copy loop creates lies at or below the destination of an entry the filter keeps |
| CmdUtil.CopyDirLeavesDestination | cmd/util.go:132-141 | Once the destination is created it stays a directory, so a missing or unreadable source leaves an error and an empty destination |
| CmdUtil.CopyDirComplete | cmd/util.go:126-164 | A successful copy had no destination before, creates it as a directory, creates every listed source entry the filter keeps with its kind, and every node it creates is the destination, one of its ancestors, or at or below the target of a kept entry |
| CmdUtil.CopyDirReproduces | cmd/util.go:126-164 | After a successful copy, every node below the source reached through no ".DS_Store" entry and kept by the filter is found at the same relative path below the destination: a directory as a directory, anything else as a file |
| CmdUtil.CopyDirSkipsGit | cmd/util.go:126-164 | A successful copy with the ".git" filter used by add and ensure leaves absent the target of any entry starting with ".git" that was absent before |
| CmdUtil.HomeWindows | cmd/util.go:267-284 | HOME wins, then HOMEDRIVE+HOMEPATH when both are set, then USERPROFILE; it fails exactly when all three are blank, and never returns "" |
| Files.AttachKeepsKinds | cmd/util.go:132-191 | Creating a node changes the kind of no other node |
| Files.MkdirAllGrows | cmd/util.go:132-155 | os.MkdirAll only adds directories at or above p, and succeeds exactly when p and its ancestors are readable and not files, leaving p a directory |
| Files.CopyGrows | cmd/util.go:167-206 | Copy of one file only adds, and on success the destination exists |
| Files.RemoveAllEffects | cmd/rm.go:46 | os.RemoveAll empties the subtree at p, unless p is unreadable, and keeps every other node with its kind |
| Files.FileSystem.MkdirAll | cmd/util.go:132-135 | The disk changes as AfterMkdirAll says |
| Files.FileSystem.Copy | cmd/util.go:167-206 | The disk changes as AfterCopy says |
| Files.FileSystem.RemoveAll | cmd/rm.go:46 | The disk changes as AfterRemoveAll says |
| Build.FirstNamed | cmd/build.go:57-66 | The index of the first target whose name or directory is the given name, with none before it; -1 exactly when no target carries it |
| Build.AnalysisTargetSpec | cmd/build.go:31-80 | Without a name at target level the result is always {dirName, dirName}, the loop's match being overwritten; without a name elsewhere, the current target, else the first configured one, an error only when there is none; with a name and no earlier choice, a target carrying that name; an error only when no target was chosen before |
| Build.NamedTargetChosen | cmd/build.go:57-66 | A named target is the first configured one whose name or directory matches, whatever was chosen before |
| Build.UnknownTargetExactly | cmd/build.go:68-77 | "unknow target" is returned exactly when no target matches, none was chosen before and src/name does not exist; an existing src/name becomes a target named after itself |
| Build.Session.AnalysisTarget | cmd/build.go:31-80 | curTarget becomes the chosen target, or stays as it was on an error |
| Build.TargetArg | cmd/build.go:92-97 | The first argument is the target name, and is dropped, exactly when it does not start with '-' |
| Build.BinaryExt | cmd/build.go:111-114 | ".exe" exactly on windows, "" elsewhere |
| Build.OutputArgs | cmd/build.go:103-124 | After the rewrite the first -o has a value and the arguments before it are untouched; a value after the first -o is kept and becomes the target name; a trailing -o or none at all gets "-o" name+ext at the end |
| Build.FirstGopathIndex | cmd/build.go:128-134 | The index of the first GOPATH= entry, with none before it; -1 exactly when there is none |
| Build.LastGopathIndex | cmd/build.go:136-142 | The index of the last GOPATH= entry, the one a child process sees |
| Build.EffectiveGopath | cmd/build.go:128-142 | With at most one GOPATH= entry to start from, the child process sees GOPATH=projectRoot |
| Build.GopathAtZeroDuplicated | cmd/build.go:137-141 | A GOPATH= entry at index 0 is not replaced (the test is gopathIdx > 0): the old entry stays first and the new one is appended |
| Build.GopathIndex | cmd/build.go:128-134 | The loop finds the first GOPATH= entry |
| Build.SetGopathEnv | cmd/build.go:127-142 | The environment rewriting returns WithGopath |
| Build.FindFlag | cmd/build.go:103-109 | The loop finds the first occurrence of the flag |
| Build.Session.RunBuild | cmd/build.go:82-150 | The chosen target's directory, the rewritten arguments and environment make the command; a user-given -o value becomes curTarget's name; a target error is returned with curTarget unchanged |
| Build.Session.constructor | cmd/build.go:29 | No target is chosen when the process starts |
| Config.ToLower | cmd/config.go:74-78 | An ASCII capital is lowered; no capital comes out; every other rune is kept |
| Config.SnakeCasedName | cmd/config.go:71-84 | The loop builds SnakeCased(name) |
| Config.SnakeCasedLength | cmd/config.go:71-84 | The output is longer than the name by the number of capitals after the first rune |
| Config.SnakeCasedLowers | cmd/config.go:71-84 | The output holds no capital |
| Config.SnakeCasedLayout | cmd/config.go:71-84 | Every rune lands, lowered, at its shifted position, with '_' just before each capital that is not the first rune |
| Config.SnakeCasedUnderscores | cmd/config.go:74-80 | The '_' of the output are those of the name plus one per inserted separator |
| Config.SnakeCasedNoUpper | cmd/config.go:71-84 | A name without capitals is unchanged |
| Config.SnakeCasedIdempotent | cmd/config.go:71-84 | Snake-casing twice is snake-casing once |
| Config.StructGet | cmd/config.go:86-89 | An empty key reads "" before any field lookup |
| Global.Lookup | cmd/global_config.go:67 | Indexing a map with an absent key reads nil |
| Global.Defaults | cmd/global_config.go:53-62 | The settings start with the tables init and repos |
| Global.GetSpec | cmd/global_config.go:64-80 | Get changes the map at most by giving a missing first segment of a two-segment key an empty table; a non-empty string read is stored under the key; a failed type assertion leaves the map as it was |
| Global.SetSpec | cmd/global_config.go:82-93 | Set changes only the entry of the first segment; a non-table first segment panics with the map unchanged; keys of three or more segments change nothing |
| Global.SetThenGet | cmd/global_config.go:64-93 | A value written by Set under a one- or two-segment key is read back by Get |
| Global.SetTwoOnlyThatEntry | cmd/global_config.go:86-91 | Setting a.b changes that one entry of table a and no other entry of it |
| Global.LongKeysIgnored | cmd/global_config.go:64-93 | Keys of three or more segments read "" and are never stored |
| Global.GetInsertsTable | cmd/global_config.go:70-73 | Reading a.b with a absent creates an empty table a and reads "" |
| Global.GetOneSegment | cmd/global_config.go:66-69 | Reading a one-segment key never changes the map and fails exactly when a non-string, non-nil value is stored |
| Global.DefaultsReadEmpty | cmd/global_config.go:53-80 | init.default_editor and repos.default_dir read "" from the defaults without changing them |
| Global.GlobalConfig.constructor | cmd/global_config.go:53-62 | The settings start as the defaults |
| Global.GlobalConfig.Get | cmd/global_config.go:64-80 | The settings and the result are those of GetSpec |
| Global.GlobalConfig.Set | cmd/global_config.go:82-93 | The settings and the error are those of SetSpec |
| Rm.RemoveSpec | cmd/rm.go:32-49 | No arguments is an error with nothing changed; otherwise the whole repository directory under src/vendor is gone, nothing appears, and no error is reported |
| Rm.RunRemove | cmd/rm.go:32-49 | The disk and the error are those of RemoveSpec |
| Rm.RemoveKeepsOthers | cmd/rm.go:42-46 | Another vendored repository outside the removed one, and the vendor directory itself, survive |
| Rm.EmptyNameRemovesVendor | cmd/rm.go:42-46 | An empty first argument removes the whole src/vendor directory |
| Run.NeedReBuild | cmd/run.go:95-108 | A .go file means rebuild and run, a .log file nothing, and any other file run again exactly when it is one of the current target's monitored files |
| Run.ScanRunFlags | cmd/run.go:116-124 | -v was seen exactly when it is among the arguments; the indices are those of the last -w and the last -e |
| Run.CutRunFlags | cmd/run.go:126-134 | Removing the -w and then the -e at its shifted index leaves exactly the other arguments, in order |
| Run.DelBoth | cmd/run.go:126-134 | The two deletions, with the -e index moved down when it followed -w, are the removal of both positions |
| Run.StripRunFlags | cmd/run.go:110-134 | The arguments runRun passes on are the given ones without the last -w and the last -e |
| Run.RunKeepsOtherArgs | cmd/run.go:126-134 | Every argument other than the removed -w and -e stays, -v included |
| Run.RunStripCount | cmd/run.go:126-134 | Exactly one argument goes for each of -w and -e present |
| Release.ScanRelease | cmd/release.go:62-73 | -v counts only before the first -o; the index found is that of the first -o |
| Release.DropOutputFlag | cmd/release.go:75-81 | Both branches of the cut remove the first -o and the value after it, if any, and keep every other argument in order |
| Release.DropPair | cmd/release.go:75-81 | Deleting the value and then the flag is the cut runRelease makes |
| Release.RunRelease | cmd/release.go:51-100 | The build gets the arguments without the user's -o pair, followed by -o wd/bin/Name, Name being the directory's base name unless gop.yml sets one, and runs in src with GOPATH set to the working directory |
| Release.ReleaseSingleOutput | cmd/release.go:75-83 | With at most one -o given, the appended -o is the only one the build sees |
| Release.NoOtherOutput | cmd/release.go:75-81 | After the cut no -o is left |
| TestCommand.ScanTestFlags | cmd/test.go:27-35 | -v was seen exactly when it is among the arguments; the index is that of the last -e |
| TestCommand.TestArgsKeepOthers | cmd/test.go:37-63 | Only the last -e goes, every other argument stays in order, and then a target name, if any, leaves the front |
| TestCommand.PrepareTest | cmd/test.go:27-63 | The flags seen and the arguments left are those TestArgs describes |
| TestCommand.RunTest | cmd/test.go:26-95 | A target error is returned before anything else, with the current target and disk unchanged; otherwise the chosen target becomes current; with -e the dependencies are ensured first, giving the disk and the updated set, and a missing GOPATH or an ensure error is returned; otherwise `go test` runs with the remaining arguments in the target's directory and GOPATH set to the project, and the updated set is unchanged whenever ensure does not run |
| Vet.VetTargetArg | cmd/vet.go:56-60 | The target name and the remaining arguments make up the given ones exactly when the first argument neither starts with '-' nor contains '/'; otherwise no name is taken and nothing is dropped |
| Vet.VetPassesFlags | cmd/vet.go:56-60 | Every argument starting with '-', and every argument after the first, reaches `go vet` |
| Vet.TargetArgPassesFlags | cmd/build.go:92-97 | The same holds for build's and test's target argument |
| Vet.ScanVerbose | cmd/vet.go:31-36 | -v was seen exactly when it is among the arguments |
| Vet.RunVet | cmd/vet.go:30-80 | A target error is returned with the current target unchanged; otherwise the chosen target becomes current and `go vet` runs with the remaining arguments in the target's directory and GOPATH set to the project |
| Seqs.SeenBefore | cmd/add.go:78-84 | The inner loop finds a name exactly when it occurs earlier in the listing |
| Seqs.FirstOccurrencesExactly | cmd/add.go:77-87 | The names kept from position i on are distinct and are exactly those of the rest of the listing not already seen |
| Seqs.DedupExactly | cmd/status.go:72-81 | The de-duplicated listing holds every name once |
| Seqs.FirstIndex | cmd/release.go:63-73 | The first position of a value, -1 exactly when it is absent |
| Seqs.LastIndex | cmd/run.go:116-124 | The last position of a value, -1 exactly when it is absent |
| Seqs.OmitIsDel | cmd/run.go:126-134 | Removing two positions is deleting the later one and then the earlier one |
| Seqs.OmitKeeps | cmd/run.go:126-134 | Every element at another position is kept |
| Strings.JoinSplit | cmd/global_config.go:65 | Joining the parts of a split gives back the key |
| Strings.SplitJoin | cmd/global_config.go:65 | Splitting the join of separator-free parts gives back the parts |

## Left out

- Printing and logging (`Println`, `showLog` output, `fmt` messages): only the `showLog` flag is modelled.
- `go get`, run by `ensure` with `get` set: a `Getter` parameter that may change the disk and may fail.
- `copyPkg`, called by `update` (`cmd/update.go:64`), is not part of this model's sources: an `update` copy is a `Copier` parameter.
- Byte contents, permissions, modification times and symbolic links in `Copy` (`cmd/util.go:167-206`): a file copy is one step that creates the destination file or fails.
- Path cleaning in `filepath.Join` (`..`, doubled or trailing `/`): joins are plain concatenation with `/`.
- The goroutine stack: every recursion carries an explicit `Fuel` bound instead of running until the stack overflows.
- `retrieveGoStdPkgs` and `retrieveGoVersion` (`cmd/package.go:45-81`) run `go list` and patch its JSON output: the standard-library path list is a parameter of `Package.InitGoRepoPath`.
- YAML loading and saving (`loadConfig`, `loadGlobalConfig`, `saveGlobalConfig`): the targets of `gop.yml` and the name it may set are parameters.
- The reflection-based field lookup of `cmd/config.go:90-177`: only the empty-key guard and `snakeCasedName` are modelled, with the lookup as a function parameter of `Config.StructGet`.
- `os.Getwd`, `analysisDirLevel`, `os.Environ`, `os.LookupEnv("GOPATH")` and `runtime.GOOS`: their results are parameters (the working directory's base name, whether it is a target directory, the project root, the environment, the GOPATH value and the OS name).
- Starting the Go toolchain (`NewCommand(...).RunInDirPipeline`): the commands return the `Invocation` they would run (arguments, environment, directory).
- `gop run`'s process management, file watcher, goroutines, mutexes and one-second debounce (`cmd/run.go:30-87`, `cmd/run.go:156-275`): only `needReBuild` and the flag stripping are modelled.
- `Home` and `homeUnix` (`cmd/util.go:212-265`) call `user.Current`, `getent` and `sh`: only `homeWindows` is modelled.
- `cmd/download.go` (HTTP and zip extraction) and `cmd/init.go` (scaffolding) are not part of this model.
- Build.Session.AnalysisTarget: Go keeps the address of `config.Targets[0]` (or of a loop copy) in `curTarget`, so the output name `runBuild` writes into it also renames that configured target; the model keeps `curTarget` as a value and does not model that aliasing.
- Build.Session.AnalysisTarget: the loop over the targets at target level (`cmd/build.go:41-46`) has no lasting effect, since its result is overwritten at line 48; the model does not carry it.
- `analysisTarget` is declared with four parameters but called with three at `cmd/test.go:65` and `cmd/vet.go:62`; its `ctx` parameter is unused, so the model drops it.
- TestCommand.RunTest: `ensure` is declared with four parameters (`cmd/ensure.go:46`) but called with five at `cmd/test.go:75`, passing the `*Target` `curTarget` where the string `targetDir` is expected and an extra `true`. The model reads that call as an interpretation: it ensures `SrcDir(projectRoot, curTarget.dir)`, the directory `runEnsure` passes (`cmd/ensure.go:174`), and drops the `true`. The `ctx` it passes is used by `ensure` for its flags; the test command declares none (`cmd/test.go:18-24`), so `RunTest` requires every option off.
