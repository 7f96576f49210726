# Android project bootstrapper: a verified model

`MainActivity.java` turns a GitHub repository into an Android Studio project on the
device. `createProject` reads three form fields: a repository URL, an application
name and a package name. From the URL it derives the address of the repository's
`main`-branch ZIP archive. It then starts a `ProjectSetupTask`, whose
`doInBackground` runs six steps in order:

1. download the archive to `temp.zip` in the cache directory;
2. extract it into a directory named after the application on external storage;
3. create the twelve standard Android directories;
4. write the four Gradle files;
5. write `AndroidManifest.xml`;
6. copy every `.java` file found anywhere in the project into the package's source
   directory.

Each step is announced by a progress message. The first exception ends the run
with `"Error: "` followed by the exception's message. Only a run that completes
deletes `temp.zip`.

The model replaces the device filesystem with a finite map from paths to nodes.
A path is a sequence of name segments, and a node is a directory or a regular file
holding bytes (`FileSystem`). Modules:

| module | what it holds |
|---|---|
| `Text` | `String.trim`, `endsWith`, java.io.File path normalisation, and the UTF-8 encoding `FileWriter` applies |
| `Request` | `createProject` |
| `Layout` | the fixed directory list and the five file templates |
| `Extraction` | `extractZip` |
| `Scaffold` | `createAndroidStructure` |
| `Generation` | `writeFile`, `createGradleFiles`, `createManifest` |
| `Organizer` | `organizeSourceFiles`, `moveJavaFiles`, `copyFile` |
| `Assembly` | what the last four steps of `doInBackground` build, together |
| `Pipeline` | `doInBackground` as a function of the tree |
| `Task` | `ProjectSetupTask` as a class over a mutable `Disk` |

The steps that loop or change the filesystem are methods of the class. Each
method's `ensures` ties the new state to the specification function of the same
step. The properties are lemmas about those functions.

Environment inputs are parameters (`Pipeline.Environment`):

- the external-storage and cache directories;
- what the network delivers for a URL;
- the ZIP decoder, which maps bytes to decoded entries and an optional decoding
  failure;
- the order in which `File.listFiles()` returns a directory's children.

## Model

| member | source | states |
|---|---|---|
| Text.Trim | MainActivity.java:45-47 | the result is a slice of the input with only blanks (characters up to U+0020) around it; it starts and ends with a non-blank; it is empty exactly when the input is all blanks |
| Text.TrimIdempotent | MainActivity.java:45-47 | trimming twice gives the same result as trimming once |
| Request.CreateProject | MainActivity.java:44-61 | the task is started exactly when all three trimmed fields are non-empty; it gets the zip URL of the trimmed URL and the trimmed name and package; otherwise the toast is "Please fill all fields" |
| Request.BlankFieldRejected | MainActivity.java:45-52 | a form with any field of blanks only never starts a run |
| Request.StripGit | MainActivity.java:55-57 | a URL ending in ".git" loses exactly those four characters; any other URL is unchanged |
| Request.StripGitOnce | MainActivity.java:55-57 | stripping u + ".git" gives u back: exactly one suffix is removed |
| Request.ZipUrl | MainActivity.java:55-59 | the zip URL ends with "/archive/refs/heads/main.zip", and what precedes it is the URL with ".git" stripped |
| Request.ZipUrlOfGitUrl | MainActivity.java:55-59 | the zip URL of u + ".git" is u followed by the archive path |
| Request.ZipUrlDoubleGit | MainActivity.java:55-59 | "x.git.git" becomes "x.git" followed by the archive path |
| Request.PackagePath | MainActivity.java:170 | pkg.replace(".", "/") has the length of pkg and no '.'; each '.' becomes '/' and every other character stays in its place |
| Request.PackagePathOfJoin | MainActivity.java:170 | a dotted name of parts becomes the same parts joined by '/' |
| Text.Segments | MainActivity.java:148 | java.io.File's normalisation of a child name splits it at '/' and drops the empty parts, so every segment is a non-empty name without '/' |
| Text.SegmentsOfJoin | MainActivity.java:170 | a '/'-joined list of names normalises back to those names as path segments |
| Layout.SourceDir | MainActivity.java:170 | the package directory, "app/src/main/java/" + pkg.replace(".", "/") as path segments; its shape is stated by SourceDirUnderJavaRoot |
| Layout.SourceDirUnderJavaRoot | MainActivity.java:263 | the package directory is app/src/main/java followed by the segments of pkg.replace(".", "/") |
| Layout.SourceDirOfDottedName | MainActivity.java:170 | for a dotted name of plain parts, the package directory is app/src/main/java followed by exactly those parts |
| Layout.ScaffoldDirs | MainActivity.java:169-182 | there are twelve directories, and the first is the package directory that organizeSourceFiles copies into |
| FileSystem.MkDirs | MainActivity.java:185 | File.mkdirs (also at lines 143, 151, 153 and 287) makes p and every directory above it unless a regular file is in the way, and then changes nothing; no existing node changes, and new nodes are only directories above p |
| FileSystem.MkDirsNoChange | MainActivity.java:185 | mkdirs on an existing directory, or on a path a file blocks, changes nothing |
| FileSystem.Create | MainActivity.java:154 | opening an output stream (also at lines 129, 288 and 295) succeeds exactly when the parent is a directory and the path is not a directory; the file then holds exactly the data written, replacing earlier content; otherwise it throws FileNotFoundException |
| FileSystem.WriteBytes | MainActivity.java:153-161 | creating the parents and then writing throws exactly when the path is not writable; on success the file holds the data; every other node is kept; new nodes lie above the path |
| FileSystem.MkParentsThenCreate | MainActivity.java:287-288 | after the parents are made, the open succeeds and fails exactly as the path's ancestors in the original tree decide |
| FileSystem.CreateError | MainActivity.java:154 | the FileNotFoundException of an output stream names the path; it is EISDIR exactly when the path is a directory, ENOTDIR exactly when it is not and a regular file stands above it, and ENOENT otherwise |
| FileSystem.Read | MainActivity.java:294 | an input stream (also at line 144) opens exactly on a regular file and reads all of its bytes; otherwise it throws FileNotFoundException |
| FileSystem.OpenError | MainActivity.java:294 | the FileNotFoundException of an input stream (also at line 144) names the path and is EISDIR, ENOTDIR or ENOENT under the same conditions |
| FileSystem.Message | MainActivity.java:102 | e.getMessage(): for a failed open, Android's "<path>: open failed: ENOENT (No such file or directory)", with ENOTDIR (Not a directory) or EISDIR (Is a directory) in the other cases; a network or ZIP exception carries its own message |
| FileSystem.Delete | MainActivity.java:98 | File.delete removes a regular file or an empty directory other than the root; everything else is kept |
| FileSystem.DeleteFile | MainActivity.java:98 | a regular file is always removed |
| FileSystem.DeleteKeeps | MainActivity.java:98 | deleting one path keeps every other path with its node |
| FileSystem.Disk.Mkdirs | MainActivity.java:185 | changes the disk to MkDirs of its old state |
| FileSystem.Disk.Overwrite | MainActivity.java:295 | changes the disk to Create of its old state, or leaves it unchanged and returns the exception |
| FileSystem.Disk.ReadAll | MainActivity.java:294 | returns Read of the disk |
| FileSystem.Disk.Remove | MainActivity.java:98 | changes the disk to Delete of its old state |
| Pipeline.Download | MainActivity.java:124-140 | a malformed URL throws before anything changes; otherwise the cache directory is created; an unreachable URL throws with nothing stored; a temp.zip that cannot be created throws FileNotFoundException; a broken stream leaves the bytes received and throws; the step succeeds exactly when all bytes arrive into a writable temp.zip, which then holds them; every path other than temp.zip keeps its node, and new paths lie above temp.zip |
| Extraction.IsDirectoryEntry | MainActivity.java:150 | ZipEntry.isDirectory: the entry's name ends with '/' |
| Extraction.EntryPath | MainActivity.java:148 | new File(targetDir, entry.getName()) lies below the target, and each segment after it is a name |
| Extraction.LastWrite | MainActivity.java:147-154 | some bytes are reported for a path exactly when some file entry names that path; they are the bytes of an entry naming it after which no file entry names it again |
| Extraction.ApplyEntry | MainActivity.java:148-163 | a directory entry runs mkdirs and never throws; a file entry throws exactly when its path is not writable, and otherwise holds the entry's bytes; other nodes are kept |
| Extraction.ExtractEntries | MainActivity.java:147-164 | the entry loop keeps every path no file entry names; new nodes lie above entry paths; each file afterwards was a file before or is named by an entry |
| Extraction.Extract | MainActivity.java:142-166 | the target becomes a directory unless a file blocks it; a missing archive throws after the target is made |
| Extraction.ExtractReadable | MainActivity.java:143-165 | on a readable archive, extraction is mkdirs on the target then the entry loop over the decoded entries; a decoding failure is thrown only if no entry threw first |
| Extraction.ExtractLastWins | MainActivity.java:147-161 | after an entry loop that threw nothing, each named path holds the bytes of the last file entry with that name |
| Extraction.ExtractMakesDirectories | MainActivity.java:150-151 | with nothing in the way, every directory entry is a directory after the loop |
| Extraction.ExtractKeeps | MainActivity.java:143-165 | the target is a directory, and every path no file entry names keeps its node |
| Extraction.ExtractClean | MainActivity.java:143-165 | a run that threw nothing read an undamaged archive, and each file entry's path holds the bytes of the last entry with that name |
| Extraction.ExtractDirectories | MainActivity.java:150-151 | a clean, unobstructed run leaves every directory entry's path a directory |
| Extraction.ExtractArchive | MainActivity.java:142-166 | the whole extraction property: the target is a directory; unnamed paths are unchanged; the last entry wins; directory entries become directories |
| Scaffold.MkDirsAll | MainActivity.java:184-186 | the mkdirs loop only adds directories, each above a listed path, and keeps every existing node |
| Scaffold.MkDirsAllKeepsFiles | MainActivity.java:184-186 | the loop leaves the regular files and their content exactly as they were |
| Scaffold.MkDirsAllMakes | MainActivity.java:184-186 | after the loop, each listed path is a directory exactly when no file blocked it, and so is every prefix of it |
| Scaffold.MkDirsAllIdempotent | MainActivity.java:184-186 | running the loop a second time changes nothing |
| Scaffold.CreateAndroidStructure | MainActivity.java:168-187 | the twelve mkdirs leave a well-formed tree that only grows from the one before |
| Scaffold.AndroidStructureCreated | MainActivity.java:168-187 | each of the twelve directories and all of its prefixes exist unless a file blocks it; files are untouched; a second run is a no-op; the first directory is the organiser's destination |
| Layout.AppGradle | MainActivity.java:208-228 | the text of app/build.gradle for pkg; AppGradleDeclaresPackage states what it declares |
| Layout.SettingsGradle | MainActivity.java:232-233 | the text of settings.gradle for appName; SettingsNamesProject states it |
| Layout.Manifest | MainActivity.java:240-257 | the text of AndroidManifest.xml for appName; ManifestLabelsApp states what it labels |
| Layout.AppGradleDeclaresPackage | MainActivity.java:208-228 | app/build.gradle contains namespace '<pkg>' and applicationId "<pkg>" |
| Layout.ManifestLabelsApp | MainActivity.java:240-257 | the manifest contains android:label="<appName>" |
| Layout.SettingsNamesProject | MainActivity.java:232-233 | settings.gradle is exactly "rootProject.name = '" + appName + "'\ninclude ':app'", and different names give different files |
| Text.Utf8 | MainActivity.java:288-289 | FileWriter's UTF-8 encoding writes at least one and at most four bytes per character |
| Text.Utf8Concat | MainActivity.java:288-289 | FileWriter's encoding of a concatenation is the concatenation of the encodings |
| Text.DecodeEncode | MainActivity.java:288-289 | decoding the UTF-8 bytes written for a character gives its code point back |
| Text.Utf8Ascii | MainActivity.java:288-289 | ASCII text is written one byte per character |
| Generation.WriteText | MainActivity.java:286-291 | writeFile throws exactly when the file cannot be written; it then throws the open's FileNotFoundException; on success the file holds the UTF-8 text, replacing what was there; every other node is kept |
| Generation.WriteAll | MainActivity.java:206-236 | consecutive writeFile calls keep every path that none of them names |
| Generation.WriteAllSucceeds | MainActivity.java:206-236 | writes to independent paths complete exactly when each path is writable in the initial tree |
| Generation.WriteAllContents | MainActivity.java:206-236 | after writes that complete, each written file holds its text |
| Generation.WriteAllFailure | MainActivity.java:206-236 | when the writes stop, the exception is the one the first unwritable path gives, and every file before it was writable |
| Generation.GradleFiles | MainActivity.java:189-237 | the four files createGradleFiles writes, in order: build.gradle, app/build.gradle, settings.gradle and gradle.properties with their texts |
| Generation.ManifestFiles | MainActivity.java:239-260 | the one file createManifest writes, app/src/main/AndroidManifest.xml |
| Generation.GradleFilesIndependent | MainActivity.java:206-235 | the four Gradle paths are independent: none is another or lies inside another |
| Generation.GradleFilesWritten | MainActivity.java:189-237 | createGradleFiles completes exactly when its four files can be written; build.gradle and gradle.properties then hold the constant templates, app/build.gradle the package's descriptor, and settings.gradle the name's |
| Generation.ManifestWritten | MainActivity.java:239-260 | createManifest completes exactly when the manifest can be written; it then holds the name's manifest; otherwise the open's exception is thrown |
| Organizer.Children | MainActivity.java:269 | the names listFiles may return: n is a child of p exactly when p + [n] is in the tree |
| Organizer.WalkChildren | MainActivity.java:271-281 | the loop over the listed children keeps every directory and changes nothing but ".java" names directly inside the destination |
| Organizer.Visit | MainActivity.java:272-280 | one child: a directory is walked, a ".java" file is copied, anything else is skipped; the same nodes are kept |
| Organizer.WalkDir | MainActivity.java:267-284 | the walk keeps every directory and never changes a node outside the ".java" names directly inside the destination |
| Organizer.Organize | MainActivity.java:262-265 | organizeSourceFiles walks from the project root into the package directory and keeps every other node |
| Organizer.LastWrittenConcat | MainActivity.java:271-280 | in a log of copies, the last copy into a path wins |
| Organizer.WalkDirSound | MainActivity.java:267-284 | every copy of the walk reads a ".java" file below the source and goes to the destination under the same name; the final tree is the initial tree with each destination holding what the last successful copy into it wrote |
| Organizer.OrganizeCopies | MainActivity.java:262-284 | the organiser's effect is its copies, last one winning; failed copies change nothing and the walk goes on; every copy is faithful to a ".java" file; when listFiles lists every child, every ".java" file below the root is copied |
| Organizer.WalkDirCovers | MainActivity.java:267-284 | when listFiles lists every child, every ".java" file below the source is copied |
| Organizer.CopyFile | MainActivity.java:293-305 | a copy from a regular file to a writable place leaves the source's bytes; a copy onto itself leaves an empty file; otherwise it throws and changes nothing |
| Pipeline.Steps | MainActivity.java:77-97 | the state after the first k steps is a well-formed filesystem that grows from the initial one |
| Pipeline.ProjectDir | MainActivity.java:78 | new File(getExternalStorageDirectory(), appName) lies below the storage directory, each segment after it a name |
| Pipeline.TempZip | MainActivity.java:126 | temp.zip lies directly inside the cache directory |
| Pipeline.Announcement | MainActivity.java:80-95 | the progress message published before each step |
| Pipeline.Execute | MainActivity.java:72-105 | doInBackground on a filesystem; ExecuteOutcome and SuccessfulRunBuildsProject state its properties |
| Pipeline.Run | MainActivity.java:77-104 | a run succeeds exactly when no step throws |
| Pipeline.Announcements | MainActivity.java:80-95 | the first k messages in stage order |
| Pipeline.StepsStop | MainActivity.java:77-104 | once a step has thrown, no later step runs |
| Pipeline.StepsAnnounced | MainActivity.java:80-95 | when nothing has thrown, the messages are the announcements in order |
| Pipeline.StepsGrow | MainActivity.java:77-97 | later states of a run grow from earlier ones |
| Pipeline.FirstFailure | MainActivity.java:77-104 | when a run threw, there is a first step that threw, and the steps before it ran cleanly |
| Pipeline.ThrowingStage | MainActivity.java:86-96 | createAndroidStructure and organizeSourceFiles never throw |
| Pipeline.JobPlanOk | MainActivity.java:78-96 | the steps doInBackground runs are defined on every filesystem, and two of them never throw |
| Pipeline.RunOutcome | MainActivity.java:77-104 | on success all six messages appear in order; on failure some step j threw; the messages are the first j + 1 announcements and then "Error: " + the message; the tree is left as that step left it |
| Pipeline.RunKeepsFile | MainActivity.java:81-104 | after a downloaded archive, success deletes it and keeps every other path; failure leaves it |
| Pipeline.ExecuteOutcome | MainActivity.java:72-105 | doInBackground returns true exactly when no step throws, with the six announcements in order; otherwise the announcements up to the failing step, then "Error: " + its message, and false |
| Pipeline.TempZipRemovedOnlyOnSuccess | MainActivity.java:81-104 | temp.zip is gone after success, when every other path is kept; after a failure that follows a completed download, it is still there |
| Pipeline.PerformedRun | MainActivity.java:77-104 | any plan whose steps are those of doInBackground runs exactly as doInBackground |
| Pipeline.SameRun | MainActivity.java:77-104 | plans whose steps agree on every filesystem end alike |
| Pipeline.CleanBefore | MainActivity.java:77-97 | a run that has thrown nothing after k steps threw nothing after any earlier step |
| Pipeline.StepOfStage | MainActivity.java:77-97 | in a run that has thrown nothing, each state is the step of its stage applied to the state before |
| Pipeline.CleanStep | MainActivity.java:77-97 | in a run that has thrown nothing through all six steps, each state is the step of its stage applied to the state before |
| Pipeline.StructuresForJob | MainActivity.java:87 | the third step of a plan performing the job is createAndroidStructure on the project directory |
| Pipeline.GradleForJob | MainActivity.java:90 | the fourth step is the writing of the four Gradle files below the project directory |
| Pipeline.ManifestForJob | MainActivity.java:93 | the fifth step is the writing of the manifest below the project directory |
| Pipeline.OrganizesForJob | MainActivity.java:96 | the sixth step is organizeSourceFiles on the project directory |
| Pipeline.CleanRunBuilt | MainActivity.java:86-96 | in a run that threw nothing, the last four steps build the project from the extracted tree |
| Pipeline.Extracted | MainActivity.java:81-84 | the tree after downloadFile and extractZip is well-formed and grows from the initial one |
| Pipeline.CleanRunExtracted | MainActivity.java:80-84 | in a run that threw nothing, the state after the first two steps is that tree |
| Pipeline.RunBuilds | MainActivity.java:86-98 | after those steps and the deletion of temp.zip, every written file other than temp.zip holds its text; a regular file blocks the package directory only if one blocked it before the four steps; unless temp.zip lies on its way, the package directory is a directory exactly when nothing blocked it then |
| Pipeline.RunBuildsProject | MainActivity.java:77-99 | the same for any plan performing the job, with the project's Gradle files and manifest, measured against the tree after download and extraction |
| Pipeline.SuccessfulRunBuildsProject | MainActivity.java:77-99 | when doInBackground returns true, each Gradle file and the manifest that is not temp.zip holds the UTF-8 of its template for the name and package; unless temp.zip lies on its way, a regular file blocks the package directory only if one blocked it in the tree after download and extraction; unless temp.zip lies on its way, the package directory is a directory exactly when nothing blocked it there |
| Assembly.BuiltGrows | MainActivity.java:86-96 | the last four steps leave a well-formed tree that grows from the one before them and from the scaffolded one |
| Assembly.BuiltFiles | MainActivity.java:189-260 | after the four steps, each Gradle file and the manifest hold their texts: the organiser copies to none of them |
| Assembly.BuiltPackageDir | MainActivity.java:168-187 | after the four steps, the package directory is a directory unless a regular file blocked it before them; it is blocked afterwards exactly when it was blocked before |
| Assembly.BlockedPackageDirStays | MainActivity.java:168-187 | a regular file on the package directory's way before the four steps keeps it from being a directory after them |
| Assembly.DeleteKeepsBuilt | MainActivity.java:98 | zipFile.delete() keeps every written file other than temp.zip |
| Assembly.DeletedPackageDir | MainActivity.java:98 | zipFile.delete() makes no directory and no blocking file; unless temp.zip lies on the package directory's way, that directory is a directory, or blocked, exactly as before |
| Assembly.DeletedPackageDirFrom | MainActivity.java:98 | after the four steps and zipFile.delete(), the package directory is blocked only if it was blocked before the steps, and, unless temp.zip lies on its way, a directory exactly when it was not |
| Assembly.SeparateBelow | MainActivity.java:206-259 | at the five generated paths, the manifest is none of the Gradle files, and none is a ".java" name inside the package directory |
| Assembly.GeneratedSeparate | MainActivity.java:206-263 | the files of createGradleFiles and createManifest are independent of one another and of the organiser's destination |
| Task.ProjectSetupTask.Store | MainActivity.java:153-161 | getParentFile().mkdirs() and then the output stream: changes the disk as WriteBytes says and returns its exception |
| Task.ProjectSetupTask.PublishProgress | MainActivity.java:80 | appends the message to what has been published |
| Task.ProjectSetupTask.DownloadFile | MainActivity.java:124-140 | changes the disk as Download says and returns the temp.zip path |
| Task.ProjectSetupTask.ExtractZip | MainActivity.java:142-166 | the entry loop changes the disk as Extract says and returns its exception |
| Task.ProjectSetupTask.CreateAndroidStructure | MainActivity.java:168-187 | the mkdirs loop changes the disk as the scaffold function says |
| Task.ProjectSetupTask.WriteFile | MainActivity.java:286-291 | changes the disk as WriteText says |
| Task.ProjectSetupTask.CreateGradleFiles | MainActivity.java:189-237 | writes the four Gradle files in order, stopping at the first exception, as WriteAll over GradleFiles says |
| Task.ProjectSetupTask.CreateManifest | MainActivity.java:239-260 | changes the disk as WriteAll over the manifest file says |
| Task.ProjectSetupTask.CopyFile | MainActivity.java:293-305 | changes the disk as the copy function says, or leaves it unchanged and returns the exception |
| Task.ProjectSetupTask.MoveJavaFiles | MainActivity.java:267-284 | the recursive walk changes the disk as WalkDir says |
| Task.ProjectSetupTask.OrganizeSourceFiles | MainActivity.java:262-265 | changes the disk as Organize says |
| Task.ProjectSetupTask.DoInBackground | MainActivity.java:72-105 | leaves the disk, the published messages and the result exactly as Execute says |
| Task.ProjectSetupTask.TryBlock | MainActivity.java:77-104 | the try and catch blocks, for any plan performing the job, leave disk, messages and result as Run says |

## Left out

- The UI is not modelled: onCreate, the widgets, the toasts beyond the rejected form's text, onPreExecute, onProgressUpdate and onPostExecute (MainActivity.java:107-122). The same goes for AsyncTask threading: progress is a sequence of messages appended in order.
- Network I/O is not modelled. What a URL delivers is an input (`Fetch`): a malformed URL, no connection, a stream that breaks after some bytes, or all bytes. A MalformedURLException is thrown at line 125, before getCacheDir() at line 126, so it leaves the filesystem unchanged; a failed connection is thrown after getCacheDir() has made the cache directory.
- The ZIP format and decompression are not modelled. The decoder is an input that yields the entries in order and an optional decoding failure, which is raised after the entries it decoded.
- The 4096-byte copy loops are modelled as whole-content writes. Only the self-copy consequence is kept: the output stream truncates the file before it is read, so a copy onto itself leaves an empty file.
- `Environment.getExternalStorageDirectory()` and `getCacheDir()` are input paths. `getCacheDir()` creating a missing cache directory is modelled as mkdirs on it.
- Path resolution is segment-based. ".." and "." segments in entry names are not resolved; they are names like any other. The NullPointerException of `getParentFile()` on a root-level path is not modelled, because the root is its own parent here.
- Strings are sequences of Unicode scalar values. Java strings holding unpaired surrogates (which `FileWriter` replaces) cannot be represented.
- Filesystem faults other than "a regular file is in the way" and "the path is a directory" (permissions, full disk, a failing close) are not modelled. Neither is the case of listFiles returning null on a readable directory.
- e.printStackTrace() in moveJavaFiles is not modelled: the failed copy is recorded in the walk's log and the loop goes on.
- Exceptions whose message is null (so that "Error: null" is published) are not modelled: every modelled exception has a message.
- Organizer.OrganizeCopies: the completeness half requires that the listing order names every child exactly as present (Enumerates). For an arbitrary order it states only soundness.
- CreateGradleFiles: the four consecutive writeFile calls are modelled as a loop over the list of the four files, in the same order.
- The ghost plan of doInBackground (`Pipeline.Plan`) is a proof device, not a modelled entity. So are the stage helpers and continuation methods of `Task.ProjectSetupTask` (DownloadStage … OrganizeStage, TryFromExtract … TryFromOrganize, Finished, Failed). They split doInBackground's try block into pieces the verifier checks one at a time.
