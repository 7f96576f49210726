/** ProjectSetupTask as the object the AsyncTask is: the device storage it
    changes, the progress messages it publishes, and one method per step of
    doInBackground. Each method changes the storage exactly as the function
    that specifies it says, so every property proved about those functions
    holds of the methods. */
module Task {
  import opened Text
  import opened FileSystem
  import opened Layout
  import opened Extraction
  import opened Scaffold
  import opened Generation
  import opened Organizer
  import opened Pipeline

  class ProjectSetupTask {
    /** The device storage every java.io call goes to. */
    const disk: Disk
    /** The roots, the network and the platform calls the task relies on. */
    const env: Environment
    /** The messages publishProgress has sent, in order. */
    var progress: seq<string>

    ghost predicate Valid()
      reads this, disk
    {
      disk.Valid()
    }

    constructor (disk: Disk, env: Environment)
      requires disk.Valid()
      ensures Valid() && this.disk == disk && this.env == env && progress == []
    {
      this.disk := disk;
      this.env := env;
      progress := [];
    }

    /** publishProgress(message). */
    method PublishProgress(message: string)
      modifies this
      ensures progress == old(progress) + [message]
    {
      progress := progress + [message];
    }

    /** file.getParentFile().mkdirs(), then a FileOutputStream on file that
        receives data. */
    method Store(file: Path, data: Bytes) returns (error: Option<IoError>)
      requires Valid()
      modifies disk
      ensures Valid()
      ensures var w := WriteBytes(old(disk.nodes), file, data);
              disk.nodes == w.tree && error == w.error
    {
      disk.Mkdirs(Parent(file));
      error := disk.Overwrite(file, data);
    }

    /** downloadFile(urlString): the cache directory, then the stream into
        temp.zip; a connection that breaks leaves what arrived and throws. */
    method DownloadFile(url: string) returns (zip: Path, error: Option<IoError>)
      requires Valid()
      modifies disk
      ensures Valid() && zip == TempZip(env)
      ensures var d := Download(old(disk.nodes), env.cache, env.fetch(url));
              disk.nodes == d.tree && error == d.error
    {
      zip := env.cache + ["temp.zip"];
      assert Parent(zip) == env.cache;
      match env.fetch(url)
      case Malformed(m) =>
        error := Some(Network(m));
      case Unreachable(m) =>
        disk.Mkdirs(env.cache);
        error := Some(Network(m));
      case Broken(part, m) =>
        disk.Mkdirs(env.cache);
        error := disk.Overwrite(zip, part);
        if error == None {
          error := Some(Network(m));
        }
      case Complete(data) =>
        disk.Mkdirs(env.cache);
        error := disk.Overwrite(zip, data);
    }

    /** extractZip(zipFile, targetDir). */
    method ExtractZip(zip: Path, target: Path) returns (error: Option<IoError>)
      requires Valid()
      modifies disk
      ensures Valid()
      ensures var x := Extract(old(disk.nodes), zip, target, env.unzip);
              disk.nodes == x.tree && error == x.error
    {
      disk.Mkdirs(target);
      var read := disk.ReadAll(zip);
      if read.Err? {
        return Some(read.error);
      }
      ExtractReadable(old(disk.nodes), zip, target, env.unzip);
      var archive := env.unzip(read.value);
      var entries := archive.entries;
      ghost var t1 := disk.nodes;
      var i := 0;
      while i < |entries|
        invariant 0 <= i <= |entries| && Valid()
        invariant ExtractEntries(disk.nodes, target, entries[i..]) == ExtractEntries(t1, target, entries)
        decreases |entries| - i
      {
        var entry := entries[i];
        var file := EntryPath(target, entry);
        ghost var a := ApplyEntry(disk.nodes, target, entry);
        EntriesAt(disk.nodes, target, entries, i);
        if IsDirectoryEntry(entry) {
          disk.Mkdirs(file);
          assert disk.nodes == a.tree && a.error == None;
        } else {
          var failed := Store(file, entry.data);
          assert disk.nodes == a.tree && failed == a.error;
          if failed.Some? {
            return failed;
          }
        }
        i := i + 1;
      }
      error := if archive.failure.Some? then Some(Corrupt(archive.failure.value)) else None;
    }

    /** createAndroidStructure(base, appName, pkg). */
    method CreateAndroidStructure(base: Path, pkg: string)
      requires Valid()
      modifies disk
      ensures Valid()
      ensures disk.nodes == Scaffold.CreateAndroidStructure(old(disk.nodes), base, pkg)
    {
      var dirs := Below(base, ScaffoldDirs(pkg));
      ghost var t0 := disk.nodes;
      assert dirs[0..] == dirs;
      for i := 0 to |dirs|
        invariant Valid()
        invariant MkDirsAll(disk.nodes, dirs[i..]) == MkDirsAll(t0, dirs)
      {
        MkDirsAllStep(disk.nodes, dirs, i);
        disk.Mkdirs(dirs[i]);
      }
      MkDirsAllDone(disk.nodes, dirs);
    }

    /** writeFile(file, content): FileWriter writes the text in UTF-8. */
    method WriteFile(file: Path, content: string) returns (error: Option<IoError>)
      requires Valid()
      modifies disk
      ensures Valid()
      ensures var w := WriteText(old(disk.nodes), file, content);
              disk.nodes == w.tree && error == w.error
    {
      error := Store(file, Utf8(content));
    }

    /** createGradleFiles(base, appName, pkg): writeFile for build.gradle,
        app/build.gradle, settings.gradle and gradle.properties, in that order;
        the first that throws ends the method. */
    method CreateGradleFiles(base: Path, appName: string, pkg: string) returns (error: Option<IoError>)
      requires Valid()
      modifies disk
      ensures Valid()
      ensures var w := WriteAll(old(disk.nodes), GradleFiles(base, appName, pkg));
              disk.nodes == w.tree && error == w.error
    {
      var outs := GradleFiles(base, appName, pkg);
      ghost var t0 := disk.nodes;
      assert outs[0..] == outs;
      error := None;
      var i := 0;
      while i < |outs|
        invariant 0 <= i <= |outs| && Valid() && error == None
        invariant WriteAll(t0, outs) == WriteAll(disk.nodes, outs[i..])
      {
        ghost var u := disk.nodes;
        error := WriteFile(outs[i].path, outs[i].text);
        WriteAllStep(u, outs, i);
        if error.Some? {
          return;
        }
        i := i + 1;
      }
      WriteAllDone(disk.nodes, outs);
    }

    /** createManifest(base, appName, pkg). */
    method CreateManifest(base: Path, appName: string) returns (error: Option<IoError>)
      requires Valid()
      modifies disk
      ensures Valid()
      ensures var w := WriteAll(old(disk.nodes), ManifestFiles(base, appName));
              disk.nodes == w.tree && error == w.error
    {
      ghost var t0 := disk.nodes;
      error := WriteFile(base + ManifestFile, Manifest(appName));
      SingleWrite(t0, Output(base + ManifestFile, Manifest(appName)));
    }

    /** copyFile(src, dst). */
    method CopyFile(src: Path, dst: Path) returns (error: Option<IoError>)
      requires Valid()
      modifies disk
      ensures Valid()
      ensures match Organizer.CopyFile(old(disk.nodes), src, dst)
              case Ok(u) => disk.nodes == u && error == None
              case Err(e) => disk.nodes == old(disk.nodes) && error == Some(e)
    {
      var read := disk.ReadAll(src);
      if read.Err? {
        return Some(read.error);
      }
      // The output stream truncates dst before the copy loop reads src, so a
      // copy onto itself finds nothing left to read.
      error := disk.Overwrite(dst, if src == dst then [] else read.value);
    }

    /** moveJavaFiles(source, dest). */
    method MoveJavaFiles(source: Path, dest: Path)
      requires Valid()
      modifies disk
      ensures Valid()
      ensures disk.nodes == WalkDir(old(disk.nodes), source, dest, env.lister).tree
      decreases DirsBelow(disk.nodes, source), 2
    {
      if IsDir(disk.nodes, source) {
        var files := env.lister(source, Children(disk.nodes, source));
        ghost var t0 := disk.nodes;
        for i := 0 to |files|
          invariant Valid() && Kept(t0, disk.nodes, dest)
          invariant WalkChildren(disk.nodes, source, dest, env.lister, files[i..]).tree
                 == WalkChildren(t0, source, dest, env.lister, files).tree
        {
          ghost var u := disk.nodes;
          assert files[i..][0] == files[i] && files[i..][1..] == files[i + 1..];
          var file := source + [files[i]];
          if IsDir(disk.nodes, file) {
            DirsBelowKept(t0, u, source, dest);
            DirsBelowShrinks(u, source, files[i]);
            MoveJavaFiles(file, dest);
          } else if IsJavaName(files[i]) {
            // An IOException is printed and the loop goes on.
            var _ := CopyFile(file, dest + [files[i]]);
          }
          assert disk.nodes == Visit(u, source, dest, env.lister, files[i]).tree;
          KeptTransitive(t0, u, disk.nodes, dest);
        }
      }
    }

    /** organizeSourceFiles(base, pkg). */
    method OrganizeSourceFiles(base: Path, pkg: string)
      requires Valid()
      modifies disk
      ensures Valid()
      ensures disk.nodes == Organize(old(disk.nodes), base, pkg, env.lister).tree
    {
      MoveJavaFiles(base, base + SourceDir(pkg));
    }

    /** The state after the first k steps of a run of plan p from tree t0
        with messages m0 already published. */
    ghost predicate After(p: Plan, t0: Tree, m0: seq<string>, k: nat)
      reads this, disk
      requires WellFormed(t0) && PlanOk(p) && k <= |Stages|
    {
      var q := Steps(t0, p, k);
      disk.nodes == q.tree && progress == m0 + q.messages
    }

    /** The first statement of the try block: announce, then downloadFile. */
    method DownloadStage(zipUrl: string, ghost p: Plan, ghost job: Job) returns (zip: Path, error: Option<IoError>)
      requires Valid() && DownloadsFor(p, env, job) && zipUrl == job.zipUrl
      modifies this, disk
      ensures Valid() && zip == TempZip(env) && progress == old(progress) + [Announcement(Downloading)]
      ensures p.download.requires(old(disk.nodes)) && disk.nodes == p.download(old(disk.nodes)).tree
      ensures error == p.download(old(disk.nodes)).error
    {
      PublishProgress(Announcement(Downloading));
      zip, error := DownloadFile(zipUrl);
    }

    /** Announce, then extractZip into the project directory. */
    method ExtractStage(zip: Path, projectDir: Path, ghost p: Plan, ghost job: Job) returns (error: Option<IoError>)
      requires Valid() && ExtractsFor(p, env, job) && zip == TempZip(env) && projectDir == ProjectDir(env, job)
      modifies this, disk
      ensures Valid() && progress == old(progress) + [Announcement(Extracting)]
      ensures p.extract.requires(old(disk.nodes)) && disk.nodes == p.extract(old(disk.nodes)).tree
      ensures error == p.extract(old(disk.nodes)).error
    {
      PublishProgress(Announcement(Extracting));
      error := ExtractZip(zip, projectDir);
    }

    /** Announce, then createAndroidStructure. */
    method StructureStage(projectDir: Path, pkg: string, ghost p: Plan, ghost job: Job)
      requires Valid() && StructuresFor(p, env, job) && projectDir == ProjectDir(env, job) && pkg == job.pkg
      modifies this, disk
      ensures Valid() && progress == old(progress) + [Announcement(Structuring)]
      ensures p.structure.requires(old(disk.nodes)) && disk.nodes == p.structure(old(disk.nodes)).tree
    {
      PublishProgress(Announcement(Structuring));
      CreateAndroidStructure(projectDir, pkg);
    }

    /** Announce, then createGradleFiles. */
    method GradleStage(projectDir: Path, appName: string, pkg: string, ghost p: Plan, ghost job: Job)
      returns (error: Option<IoError>)
      requires Valid() && GradleFor(p, env, job)
      requires projectDir == ProjectDir(env, job) && appName == job.appName && pkg == job.pkg
      modifies this, disk
      ensures Valid() && progress == old(progress) + [Announcement(WritingGradle)]
      ensures p.gradle.requires(old(disk.nodes)) && disk.nodes == p.gradle(old(disk.nodes)).tree
      ensures error == p.gradle(old(disk.nodes)).error
    {
      PublishProgress(Announcement(WritingGradle));
      error := CreateGradleFiles(projectDir, appName, pkg);
    }

    /** Announce, then createManifest. */
    method ManifestStage(projectDir: Path, appName: string, ghost p: Plan, ghost job: Job) returns (error: Option<IoError>)
      requires Valid() && ManifestFor(p, env, job) && projectDir == ProjectDir(env, job) && appName == job.appName
      modifies this, disk
      ensures Valid() && progress == old(progress) + [Announcement(WritingManifest)]
      ensures p.manifest.requires(old(disk.nodes)) && disk.nodes == p.manifest(old(disk.nodes)).tree
      ensures error == p.manifest(old(disk.nodes)).error
    {
      PublishProgress(Announcement(WritingManifest));
      error := CreateManifest(projectDir, appName);
    }

    /** Announce, then organizeSourceFiles. */
    method OrganizeStage(projectDir: Path, pkg: string, ghost p: Plan, ghost job: Job)
      requires Valid() && OrganizesFor(p, env, job) && projectDir == ProjectDir(env, job) && pkg == job.pkg
      modifies this, disk
      ensures Valid() && progress == old(progress) + [Announcement(Organizing)]
      ensures p.organize.requires(old(disk.nodes)) && disk.nodes == p.organize(old(disk.nodes)).tree
    {
      PublishProgress(Announcement(Organizing));
      OrganizeSourceFiles(projectDir, pkg);
    }

    /** zipFile.delete() once every step of the try block has returned. */
    method Finished(ghost p: Plan, ghost t0: Tree, ghost m0: seq<string>)
      requires Valid() && WellFormed(t0) && PlanOk(p)
      requires After(p, t0, m0, |Stages|) && Steps(t0, p, |Stages|).error == None
      modifies disk
      ensures Valid()
      ensures var r := Run(t0, p, TempZip(env)); disk.nodes == r.tree && progress == m0 + r.messages && r.success
    {
      disk.Remove(TempZip(env));
      RunCompletes(t0, p, TempZip(env));
    }

    /** The catch block: the exception's message after "Error: ", and false. */
    method Failed(error: IoError, ghost p: Plan, ghost t0: Tree, ghost m0: seq<string>, ghost k: nat)
      requires Valid() && WellFormed(t0) && PlanOk(p) && k <= |Stages|
      requires After(p, t0, m0, k) && Steps(t0, p, k).error == Some(error)
      modifies this
      ensures var r := Run(t0, p, TempZip(env));
              disk.nodes == r.tree && progress == m0 + r.messages && !r.success
    {
      PublishProgress("Error: " + Message(error));
      RunStopsAt(t0, p, k, TempZip(env));
    }

    /** doInBackground(zipUrl, appName, packageName). */
    method DoInBackground(zipUrl: string, appName: string, pkg: string) returns (success: bool)
      requires Valid()
      modifies this, disk
      ensures Valid()
      ensures var r := Execute(old(disk.nodes), env, Job(zipUrl, appName, pkg));
              disk.nodes == r.tree && progress == old(progress) + r.messages && success == r.success
    {
      ghost var job := Job(zipUrl, appName, pkg);
      ghost var t0 := disk.nodes;
      ghost var p := SomePlan(env, job);
      success := TryBlock(zipUrl, appName, pkg, p);
      PerformedRun(t0, p, env, job);
    }

    /** The try block of doInBackground and its catch block, stated for any
        plan whose steps are those the try block calls. */
    method TryBlock(zipUrl: string, appName: string, pkg: string, ghost p: Plan) returns (success: bool)
      requires Valid() && Performs(p, env, Job(zipUrl, appName, pkg)) && PlanOk(p)
      modifies this, disk
      ensures Valid()
      ensures var r := Run(old(disk.nodes), p, TempZip(env));
              disk.nodes == r.tree && progress == old(progress) + r.messages && success == r.success
    {
      ghost var job := Job(zipUrl, appName, pkg);
      ghost var t0 := disk.nodes;
      ghost var m0 := progress;
      var projectDir := env.storage + Segments(appName);
      var zip, error := DownloadStage(zipUrl, p, job);
      FirstStep(t0, p);
      Published(m0, Steps(t0, p, 0).messages, Announcement(Downloading));
      if error.Some? {
        Failed(error.value, p, t0, m0, 1);
        return false;
      }
      success := TryFromExtract(zip, projectDir, appName, pkg, p, job, t0, m0, 1);
    }

    /** The try block from extractZip on, once the archive is downloaded. */
    method TryFromExtract(zip: Path, projectDir: Path, appName: string, pkg: string,
              ghost p: Plan, ghost job: Job, ghost t0: Tree, ghost m0: seq<string>, ghost k: nat)
      returns (success: bool)
      requires Valid() && WellFormed(t0) && PlanOk(p)
      requires ExtractsFor(p, env, job) && StructuresFor(p, env, job) && GradleFor(p, env, job) && ManifestFor(p, env, job) && OrganizesFor(p, env, job)
      requires zip == TempZip(env) && projectDir == ProjectDir(env, job) && appName == job.appName && pkg == job.pkg
      requires k + 5 == |Stages| && Stages[k] == Extracting
      requires After(p, t0, m0, k) && Steps(t0, p, k).error == None
      modifies this, disk
      ensures Valid()
      ensures var r := Run(t0, p, TempZip(env));
              disk.nodes == r.tree && progress == m0 + r.messages && success == r.success
    {
      var error := ExtractStage(zip, projectDir, p, job);
      NextStep(t0, p, k + 1);
      Published(m0, Steps(t0, p, k).messages, Announcement(Extracting));
      if error.Some? {
        Failed(error.value, p, t0, m0, k + 1);
        return false;
      }
      success := TryFromStructure(zip, projectDir, appName, pkg, p, job, t0, m0, k + 1);
    }

    /** The try block from createAndroidStructure on, once the archive is
        downloaded and extracted. */
    method TryFromStructure(zip: Path, projectDir: Path, appName: string, pkg: string,
              ghost p: Plan, ghost job: Job, ghost t0: Tree, ghost m0: seq<string>, ghost k: nat)
      returns (success: bool)
      requires Valid() && WellFormed(t0) && StructuresFor(p, env, job) && GradleFor(p, env, job) && ManifestFor(p, env, job) && OrganizesFor(p, env, job) && PlanOk(p)
      requires zip == TempZip(env) && projectDir == ProjectDir(env, job) && appName == job.appName && pkg == job.pkg
      requires k + 4 == |Stages| && Stages[k] == Structuring
      requires After(p, t0, m0, k) && Steps(t0, p, k).error == None
      modifies this, disk
      ensures Valid()
      ensures var r := Run(t0, p, TempZip(env));
              disk.nodes == r.tree && progress == m0 + r.messages && success == r.success
    {
      StructureStage(projectDir, pkg, p, job);
      NextStep(t0, p, k + 1);
      Published(m0, Steps(t0, p, k).messages, Announcement(Structuring));
      success := TryFromGradle(zip, projectDir, appName, pkg, p, job, t0, m0, k + 1);
    }

    /** The try block from createGradleFiles on. */
    method TryFromGradle(zip: Path, projectDir: Path, appName: string, pkg: string,
              ghost p: Plan, ghost job: Job, ghost t0: Tree, ghost m0: seq<string>, ghost k: nat)
      returns (success: bool)
      requires Valid() && WellFormed(t0) && GradleFor(p, env, job) && ManifestFor(p, env, job) && OrganizesFor(p, env, job) && PlanOk(p)
      requires zip == TempZip(env) && projectDir == ProjectDir(env, job) && appName == job.appName && pkg == job.pkg
      requires k + 3 == |Stages| && Stages[k] == WritingGradle
      requires After(p, t0, m0, k) && Steps(t0, p, k).error == None
      modifies this, disk
      ensures Valid()
      ensures var r := Run(t0, p, TempZip(env));
              disk.nodes == r.tree && progress == m0 + r.messages && success == r.success
    {
      var error := GradleStage(projectDir, appName, pkg, p, job);
      NextStep(t0, p, k + 1);
      Published(m0, Steps(t0, p, k).messages, Announcement(WritingGradle));
      if error.Some? {
        Failed(error.value, p, t0, m0, k + 1);
        return false;
      }
      success := TryFromManifest(zip, projectDir, appName, pkg, p, job, t0, m0, k + 1);
    }

    /** The try block from createManifest on. */
    method TryFromManifest(zip: Path, projectDir: Path, appName: string, pkg: string,
              ghost p: Plan, ghost job: Job, ghost t0: Tree, ghost m0: seq<string>, ghost k: nat)
      returns (success: bool)
      requires Valid() && WellFormed(t0) && ManifestFor(p, env, job) && OrganizesFor(p, env, job) && PlanOk(p)
      requires zip == TempZip(env) && projectDir == ProjectDir(env, job) && appName == job.appName && pkg == job.pkg
      requires k + 2 == |Stages| && Stages[k] == WritingManifest
      requires After(p, t0, m0, k) && Steps(t0, p, k).error == None
      modifies this, disk
      ensures Valid()
      ensures var r := Run(t0, p, TempZip(env));
              disk.nodes == r.tree && progress == m0 + r.messages && success == r.success
    {
      var error := ManifestStage(projectDir, appName, p, job);
      NextStep(t0, p, k + 1);
      Published(m0, Steps(t0, p, k).messages, Announcement(WritingManifest));
      if error.Some? {
        Failed(error.value, p, t0, m0, k + 1);
        return false;
      }
      success := TryFromOrganize(zip, projectDir, appName, pkg, p, job, t0, m0, k + 1);
    }

    /** The last statements of the try block: organizeSourceFiles, then
        zipFile.delete() and true. */
    method TryFromOrganize(zip: Path, projectDir: Path, appName: string, pkg: string,
              ghost p: Plan, ghost job: Job, ghost t0: Tree, ghost m0: seq<string>, ghost k: nat)
      returns (success: bool)
      requires Valid() && WellFormed(t0) && OrganizesFor(p, env, job) && PlanOk(p)
      requires zip == TempZip(env) && projectDir == ProjectDir(env, job) && appName == job.appName && pkg == job.pkg
      requires k + 1 == |Stages| && Stages[k] == Organizing
      requires After(p, t0, m0, k) && Steps(t0, p, k).error == None
      modifies this, disk
      ensures Valid()
      ensures var r := Run(t0, p, TempZip(env));
              disk.nodes == r.tree && progress == m0 + r.messages && success == r.success
    {
      OrganizeStage(projectDir, pkg, p, job);
      NextStep(t0, p, k + 1);
      Published(m0, Steps(t0, p, k).messages, Announcement(Organizing));
      Finished(p, t0, m0);
      success := true;
    }
  }
}
