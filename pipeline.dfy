/** ProjectSetupTask.doInBackground as a function of the device's tree: six
    steps in a fixed order, each announced by a progress message; the first
    exception ends the run with "Error: " and its message; only a run that
    completes deletes the downloaded archive. */
module Pipeline {
  import opened Text
  import opened FileSystem
  import opened Layout
  import opened Extraction
  import opened Scaffold
  import opened Generation
  import opened Organizer
  import opened Assembly

  /** What reading the URL does: the string is no URL (new URL throws
      MalformedURLException), or the stream cannot be opened, or it breaks
      after some bytes, or it delivers all its bytes; the failures carry the
      exception's message. */
  datatype Fetch =
    | Malformed(message: string)
    | Unreachable(message: string)
    | Broken(received: Bytes, message: string)
    | Complete(data: Bytes)

  /** What the task gets from the platform: the external storage directory,
      the application's cache directory, the network, the ZIP decoder and the
      order File.listFiles() lists names in. */
  datatype Environment = Environment(
    storage: Path,
    cache: Path,
    fetch: string -> Fetch,
    unzip: Bytes -> Archive,
    lister: Lister)

  /** The three parameters of execute(zipUrl, appName, packageName). */
  datatype Job = Job(zipUrl: string, appName: string, pkg: string)

  /** new File(Environment.getExternalStorageDirectory(), appName). */
  function ProjectDir(env: Environment, job: Job): (r: Path)
    ensures PrefixOf(env.storage, r)
    ensures forall i | |env.storage| <= i < |r| :: IsName(r[i])
  {
    env.storage + Segments(job.appName)
  }

  /** new File(getCacheDir(), "temp.zip"). */
  function TempZip(env: Environment): (r: Path)
    ensures r != [] && Parent(r) == env.cache && Last(r) == "temp.zip"
  {
    env.cache + ["temp.zip"]
  }

  /** downloadFile(url): the URL is parsed; getCacheDir() creates the cache
      directory when it is missing; the stream is opened, then the temporary
      file in the cache directory, and the bytes are copied until the stream
      ends or breaks. Nothing but the cache directory and temp.zip changes. */
  function Download(t: Tree, cache: Path, f: Fetch): (r: Effect)
    requires WellFormed(t)
    ensures WellFormed(r.tree) && Grows(t, r.tree)
    ensures f.Malformed? ==> r == Effect(t, Some(Network(f.message)))
    ensures f.Unreachable? ==> r == Effect(MkDirs(t, cache), Some(Network(f.message)))
    ensures (f.Broken? || f.Complete?) && !Writable(t, cache + ["temp.zip"]) ==>
              r == Effect(MkDirs(t, cache), Some(CreateError(t, cache + ["temp.zip"])))
    ensures f.Broken? && Writable(t, cache + ["temp.zip"]) ==>
              r.error == Some(Network(f.message)) && IsFile(r.tree, cache + ["temp.zip"]) && r.tree[cache + ["temp.zip"]].content == f.received
    ensures r.error == None <==> f.Complete? && Writable(t, cache + ["temp.zip"])
    ensures r.error == None ==> IsFile(r.tree, cache + ["temp.zip"]) && r.tree[cache + ["temp.zip"]].content == f.data
    ensures forall q | q in t && q != cache + ["temp.zip"] :: r.tree[q] == t[q]
    ensures forall q | q in r.tree && q !in t :: PrefixOf(q, cache + ["temp.zip"])
  {
    var zip := cache + ["temp.zip"];
    assert Parent(zip) == cache;
    match f
    case Malformed(m) => Effect(t, Some(Network(m)))
    case Unreachable(m) => Effect(MkDirs(t, cache), Some(Network(m)))
    case Broken(part, m) =>
      var w := WriteBytes(t, zip, part);
      if w.error == None then Effect(w.tree, Some(Network(m))) else w
    case Complete(data) => WriteBytes(t, zip, data)
  }

  datatype Stage = Downloading | Extracting | Structuring | WritingGradle | WritingManifest | Organizing

  /** The steps of doInBackground, in its order. */
  const Stages: seq<Stage> := [Downloading, Extracting, Structuring, WritingGradle, WritingManifest, Organizing]

  /** The progress message published before a step. */
  function Announcement(s: Stage): string
  {
    match s
    case Downloading => "Downloading repository..."
    case Extracting => "Extracting files..."
    case Structuring => "Creating Android structure..."
    case WritingGradle => "Creating Gradle files..."
    case WritingManifest => "Creating AndroidManifest.xml..."
    case Organizing => "Organizing source files..."
  }

  /** A step's effect on the filesystem: defined on every filesystem, it
      leaves a filesystem that grows from the one it started from. */
  ghost predicate StepOk(f: Tree --> Effect)
  {
    forall u {:trigger f.requires(u)} {:trigger f(u)} | WellFormed(u) :: f.requires(u) && WellFormed(f(u).tree) && Grows(u, f(u).tree)
  }

  /** A step that never throws. */
  ghost predicate NeverThrows(f: Tree --> Effect)
  {
    forall u {:trigger f.requires(u)} {:trigger f(u)} | WellFormed(u) :: f.requires(u) && f(u).error == None
  }

  /** downloadFile(zipUrl). */
  function DownloadStep(env: Environment, job: Job): (r: Tree --> Effect)
    ensures StepOk(r)
  {
    (u: Tree) requires WellFormed(u) => Download(u, env.cache, env.fetch(job.zipUrl))
  }

  /** extractZip(zipFile, projectDir). */
  function ExtractStep(env: Environment, job: Job): (r: Tree --> Effect)
    ensures StepOk(r)
  {
    (u: Tree) requires WellFormed(u) => Extract(u, TempZip(env), ProjectDir(env, job), env.unzip)
  }

  /** createAndroidStructure(projectDir, appName, packageName). */
  function StructureStep(env: Environment, job: Job): (r: Tree --> Effect)
    ensures StepOk(r) && NeverThrows(r)
  {
    (u: Tree) requires WellFormed(u) => Effect(CreateAndroidStructure(u, ProjectDir(env, job), job.pkg), None)
  }

  /** createGradleFiles(projectDir, appName, packageName). */
  function GradleStep(env: Environment, job: Job): (r: Tree --> Effect)
    ensures StepOk(r)
  {
    (u: Tree) requires WellFormed(u) => WriteAll(u, GradleFiles(ProjectDir(env, job), job.appName, job.pkg))
  }

  /** createManifest(projectDir, appName, packageName). */
  function ManifestStep(env: Environment, job: Job): (r: Tree --> Effect)
    ensures StepOk(r)
  {
    (u: Tree) requires WellFormed(u) => WriteAll(u, ManifestFiles(ProjectDir(env, job), job.appName))
  }

  /** organizeSourceFiles(projectDir, packageName). */
  function OrganizeStep(env: Environment, job: Job): (r: Tree --> Effect)
    ensures StepOk(r) && NeverThrows(r)
  {
    (u: Tree) requires WellFormed(u) => Effect(Organize(u, ProjectDir(env, job), job.pkg, env.lister).tree, None)
  }

  /** The six steps of a run, one per stage. */
  datatype Plan = Plan(download: Tree --> Effect, extract: Tree --> Effect, structure: Tree --> Effect,
                       gradle: Tree --> Effect, manifest: Tree --> Effect, organize: Tree --> Effect)

  /** Every step is a step on the filesystem, and the structure and organiser
      steps never throw. */
  ghost predicate PlanOk(p: Plan)
  {
    && StepOk(p.download) && StepOk(p.extract) && StepOk(p.structure)
    && StepOk(p.gradle) && StepOk(p.manifest) && StepOk(p.organize)
    && NeverThrows(p.structure) && NeverThrows(p.organize)
  }

  /** The step a plan performs at a stage. */
  function StepOf(p: Plan, s: Stage): (r: Tree --> Effect)
    ensures PlanOk(p) ==> StepOk(r)
    ensures PlanOk(p) && (s == Structuring || s == Organizing) ==> NeverThrows(r)
  {
    match s
    case Downloading => p.download
    case Extracting => p.extract
    case Structuring => p.structure
    case WritingGradle => p.gradle
    case WritingManifest => p.manifest
    case Organizing => p.organize
  }

  /** The steps of doInBackground: downloadFile, extractZip,
      createAndroidStructure, createGradleFiles, createManifest and
      organizeSourceFiles, on the job's paths. */
  function JobPlan(env: Environment, job: Job): Plan
  {
    Plan(DownloadStep(env, job), ExtractStep(env, job), StructureStep(env, job),
         GradleStep(env, job), ManifestStep(env, job), OrganizeStep(env, job))
  }

  /** Creating the structure and organising the sources throw nothing: mkdirs
      reports failure by a result the code ignores, and moveJavaFiles catches
      what copyFile throws. */
  lemma JobPlanOk(env: Environment, job: Job)
    ensures PlanOk(JobPlan(env, job))
  {
  }

  /** The state of a run: the tree, the messages published, and the
      exception that ended it, if one did. */
  datatype Progress = Progress(tree: Tree, messages: seq<string>, error: Option<IoError>)

  /** What doInBackground leaves: the tree, the messages, and its result. */
  datatype Outcome = Outcome(tree: Tree, messages: seq<string>, success: bool)

  /** The first k steps, each announced, stopping at the first that throws. */
  function Steps(t: Tree, p: Plan, k: nat): (r: Progress)
    requires WellFormed(t) && PlanOk(p) && k <= |Stages|
    ensures WellFormed(r.tree) && Grows(t, r.tree)
    decreases k
  {
    if k == 0 then Progress(t, [], None)
    else
      var q := Steps(t, p, k - 1);
      if q.error.Some? then q
      else
        var e := StepOf(p, Stages[k - 1])(q.tree);
        GrowsTransitive(t, q.tree, e.tree);
        Progress(e.tree, q.messages + [Announcement(Stages[k - 1])], e.error)
  }

  /** A whole run: after the last step, zipFile.delete() and true; after an
      exception, its message and false. */
  function Run(t: Tree, p: Plan, zip: Path): (r: Outcome)
    requires WellFormed(t) && PlanOk(p)
    ensures r.success <==> Steps(t, p, |Stages|).error == None
  {
    var q := Steps(t, p, |Stages|);
    if q.error == None then Outcome(Delete(q.tree, zip), q.messages, true)
    else Outcome(q.tree, q.messages + ["Error: " + Message(q.error.value)], false)
  }

  /** doInBackground(zipUrl, appName, packageName). */
  function Execute(t: Tree, env: Environment, job: Job): Outcome
    requires WellFormed(t)
  {
    JobPlanOk(env, job);
    Run(t, JobPlan(env, job), TempZip(env))
  }

  /** The announcements of the first k steps. */
  function Announcements(k: nat): (r: seq<string>)
    requires k <= |Stages|
    ensures |r| == k && forall i | 0 <= i < k :: r[i] == Announcement(Stages[i])
  {
    if k == 0 then [] else Announcements(k - 1) + [Announcement(Stages[k - 1])]
  }

  /** Once a step has thrown, no later step runs. */
  lemma {:induction false} StepsStop(t: Tree, p: Plan, j: nat, k: nat)
    requires WellFormed(t) && PlanOk(p) && j <= k <= |Stages|
    requires Steps(t, p, j).error.Some?
    ensures Steps(t, p, k) == Steps(t, p, j)
    decreases k
  {
    if k > j {
      StepsStop(t, p, j, k - 1);
    }
  }

  /** While no step has thrown, each step's message follows the previous ones. */
  lemma {:induction false} StepsAnnounced(t: Tree, p: Plan, k: nat)
    requires WellFormed(t) && PlanOk(p) && k <= |Stages|
    ensures Steps(t, p, k).error == None ==> Steps(t, p, k).messages == Announcements(k)
    ensures k > 0 && Steps(t, p, k - 1).error == None ==> Steps(t, p, k).messages == Announcements(k)
    decreases k
  {
    if k > 0 {
      StepsAnnounced(t, p, k - 1);
    }
  }

  /** Each state of a run grows from the one before it. */
  lemma StepGrows(t: Tree, p: Plan, k: nat)
    requires WellFormed(t) && PlanOk(p) && 0 < k <= |Stages|
    ensures Grows(Steps(t, p, k - 1).tree, Steps(t, p, k).tree)
  {
    var q := Steps(t, p, k - 1);
    if q.error == None {
      assert StepOk(StepOf(p, Stages[k - 1]));
    }
  }

  /** Later states of a run grow from earlier ones. */
  lemma {:induction false} StepsGrow(t: Tree, p: Plan, j: nat, k: nat)
    requires WellFormed(t) && PlanOk(p) && j <= k <= |Stages|
    ensures Grows(Steps(t, p, j).tree, Steps(t, p, k).tree)
    decreases k
  {
    if k > j {
      StepsGrow(t, p, j, k - 1);
      StepGrows(t, p, k);
      GrowsTransitive(Steps(t, p, j).tree, Steps(t, p, k - 1).tree, Steps(t, p, k).tree);
    }
  }

  /** Some step threw: the steps before j ran cleanly and step j threw. */
  lemma {:induction false} FirstFailure(t: Tree, p: Plan, k: nat)
    requires WellFormed(t) && PlanOk(p) && k <= |Stages| && Steps(t, p, k).error.Some?
    ensures exists j | 0 <= j < k :: Steps(t, p, j).error == None && Steps(t, p, j + 1).error.Some?
                                     && Steps(t, p, k) == Steps(t, p, j + 1)
    decreases k
  {
    if Steps(t, p, k - 1).error.Some? {
      FirstFailure(t, p, k - 1);
    }
  }

  /** A step that throws is neither the structure nor the organiser step. */
  lemma ThrowingStage(t: Tree, p: Plan, j: nat)
    requires WellFormed(t) && PlanOk(p) && j < |Stages|
    requires Steps(t, p, j).error == None && Steps(t, p, j + 1).error.Some?
    ensures Stages[j] != Structuring && Stages[j] != Organizing
  {
    var e := StepOf(p, Stages[j])(Steps(t, p, j).tree);
    assert e.error.Some?;
  }

  /** A run succeeds exactly when no step throws, and then every step was
      announced. Otherwise some step j threw after steps 0 to j were
      announced and run; nothing after it ran; the run ends with the tree that
      step left and the message "Error: " followed by the exception's message;
      and the step that threw is neither the structure nor the organiser step. */
  lemma RunOutcome(t: Tree, p: Plan, zip: Path)
    requires WellFormed(t) && PlanOk(p)
    ensures var r := Run(t, p, zip);
            && (r.success ==> r.messages == Announcements(|Stages|))
            && (!r.success ==>
                  exists j | 0 <= j < |Stages| ::
                    && Steps(t, p, j).error == None
                    && Stages[j] != Structuring && Stages[j] != Organizing
                    && var e := Steps(t, p, j + 1);
                    && e.error.Some?
                    && r.tree == e.tree
                    && r.messages == Announcements(j + 1) + ["Error: " + Message(e.error.value)])
  {
    var q := Steps(t, p, |Stages|);
    StepsAnnounced(t, p, |Stages|);
    if q.error.Some? {
      FirstFailure(t, p, |Stages|);
      var j :| 0 <= j < |Stages| && Steps(t, p, j).error == None && Steps(t, p, j + 1).error.Some?
                                 && q == Steps(t, p, j + 1);
      StepsAnnounced(t, p, j + 1);
      ThrowingStage(t, p, j);
    }
  }

  /** A file present after the first step stays a file to the end of the run,
      and a run that succeeds deletes it and keeps every other path. */
  lemma RunKeepsFile(t: Tree, p: Plan, zip: Path)
    requires WellFormed(t) && PlanOk(p)
    requires Steps(t, p, 1).error == None ==> IsFile(Steps(t, p, 1).tree, zip)
    ensures var r := Run(t, p, zip);
            && (r.success ==> zip !in r.tree && forall q | q in t && q != zip :: q in r.tree)
            && (!r.success && Steps(t, p, 1).error == None ==> IsFile(r.tree, zip))
  {
    var q := Steps(t, p, |Stages|);
    if Steps(t, p, 1).error == None {
      StepsGrow(t, p, 1, |Stages|);
      if q.error == None {
        DeleteFile(q.tree, zip);
      }
    } else {
      StepsStop(t, p, 1, |Stages|);
    }
  }

  /** After a state without exception, the next step runs and is announced. */
  lemma NextStep(t: Tree, p: Plan, k: nat)
    requires WellFormed(t) && PlanOk(p) && 0 < k <= |Stages| && Steps(t, p, k - 1).error == None
    ensures var q := Steps(t, p, k - 1);
            var e := StepOf(p, Stages[k - 1])(q.tree);
            Steps(t, p, k) == Progress(e.tree, q.messages + [Announcement(Stages[k - 1])], e.error)
  {
  }

  /** A message published after m0 and ms follows ms in what was published after m0. */
  lemma Published(m0: seq<string>, ms: seq<string>, message: string)
    ensures m0 + ms + [message] == m0 + (ms + [message])
  {
  }

  /** A run whose step k - 1 threw ends with that state and its message. */
  lemma RunStopsAt(t: Tree, p: Plan, k: nat, zip: Path)
    requires WellFormed(t) && PlanOk(p) && k <= |Stages| && Steps(t, p, k).error.Some?
    ensures var q := Steps(t, p, k);
            Run(t, p, zip) == Outcome(q.tree, q.messages + ["Error: " + Message(q.error.value)], false)
  {
    StepsStop(t, p, k, |Stages|);
  }

  /** A run none of whose steps threw deletes the archive and succeeds. */
  lemma RunCompletes(t: Tree, p: Plan, zip: Path)
    requires WellFormed(t) && PlanOk(p) && Steps(t, p, |Stages|).error == None
    ensures var q := Steps(t, p, |Stages|);
            Run(t, p, zip) == Outcome(Delete(q.tree, zip), q.messages, true)
  {
  }

  // ------------------------------------------------------------ doInBackground

  /** The first step of a run is the plan's download step. */
  lemma FirstStep(t: Tree, p: Plan)
    requires WellFormed(t) && PlanOk(p)
    ensures Steps(t, p, 1) == Progress(p.download(t).tree, [Announcement(Downloading)], p.download(t).error)
  {
    assert Steps(t, p, 0) == Progress(t, [], None);
  }

  /** doInBackground publishes the six announcements in order and returns
      true when no step throws; when a step throws, the announcements up to
      it, then "Error: " and the exception's message, and false; the step
      that throws is never createAndroidStructure or organizeSourceFiles. */
  lemma ExecuteOutcome(t: Tree, env: Environment, job: Job)
    requires WellFormed(t)
    ensures (JobPlanOk(env, job);
             var p := JobPlan(env, job);
             var r := Execute(t, env, job);
             && (r.success <==> Steps(t, p, |Stages|).error == None)
             && (r.success ==> r.messages == Announcements(|Stages|))
             && (!r.success ==>
                   exists j | 0 <= j < |Stages| ::
                     && Steps(t, p, j).error == None
                     && Stages[j] != Structuring && Stages[j] != Organizing
                     && var e := Steps(t, p, j + 1);
                     && e.error.Some?
                     && r.tree == e.tree
                     && r.messages == Announcements(j + 1) + ["Error: " + Message(e.error.value)]))
  {
    JobPlanOk(env, job);
    RunOutcome(t, JobPlan(env, job), TempZip(env));
  }

  /** The temporary archive is deleted exactly on the success path: after a
      run that returns true it is gone and every other path is kept; after a
      run that downloaded it and then failed it is still a regular file. */
  lemma TempZipRemovedOnlyOnSuccess(t: Tree, env: Environment, job: Job)
    requires WellFormed(t)
    ensures var r := Execute(t, env, job);
            var downloaded := Download(t, env.cache, env.fetch(job.zipUrl)).error == None;
            && (r.success ==> TempZip(env) !in r.tree && forall q | q in t && q != TempZip(env) :: q in r.tree)
            && (!r.success && downloaded ==> IsFile(r.tree, TempZip(env)))
  {
    JobPlanOk(env, job);
    var p := JobPlan(env, job);
    FirstStep(t, p);
    assert p.download(t) == Download(t, env.cache, env.fetch(job.zipUrl));
    RunKeepsFile(t, p, TempZip(env));
  }

  // ------------------------------------------------------------ plans that perform a job

  /** p's download step is downloadFile(job.zipUrl) into the cache directory. */
  ghost predicate DownloadsFor(p: Plan, env: Environment, job: Job)
  {
    forall u {:trigger Download(u, env.cache, env.fetch(job.zipUrl))} | WellFormed(u) ::
      p.download.requires(u) && p.download(u) == Download(u, env.cache, env.fetch(job.zipUrl))
  }

  /** p's extract step is extractZip(temp.zip, projectDir). */
  ghost predicate ExtractsFor(p: Plan, env: Environment, job: Job)
  {
    forall u {:trigger Extract(u, TempZip(env), ProjectDir(env, job), env.unzip)} | WellFormed(u) ::
      p.extract.requires(u) && p.extract(u) == Extract(u, TempZip(env), ProjectDir(env, job), env.unzip)
  }

  /** p's structure step is createAndroidStructure(projectDir, appName, packageName). */
  ghost predicate StructuresFor(p: Plan, env: Environment, job: Job)
  {
    forall u {:trigger CreateAndroidStructure(u, ProjectDir(env, job), job.pkg)} | WellFormed(u) ::
      p.structure.requires(u) && p.structure(u) == Effect(CreateAndroidStructure(u, ProjectDir(env, job), job.pkg), None)
  }

  /** p's Gradle step is createGradleFiles(projectDir, appName, packageName). */
  ghost predicate GradleFor(p: Plan, env: Environment, job: Job)
  {
    forall u {:trigger WriteAll(u, GradleFiles(ProjectDir(env, job), job.appName, job.pkg))} | WellFormed(u) ::
      p.gradle.requires(u) && p.gradle(u) == WriteAll(u, GradleFiles(ProjectDir(env, job), job.appName, job.pkg))
  }

  /** p's manifest step is createManifest(projectDir, appName, packageName). */
  ghost predicate ManifestFor(p: Plan, env: Environment, job: Job)
  {
    forall u {:trigger WriteAll(u, ManifestFiles(ProjectDir(env, job), job.appName))} | WellFormed(u) ::
      p.manifest.requires(u) && p.manifest(u) == WriteAll(u, ManifestFiles(ProjectDir(env, job), job.appName))
  }

  /** p's organiser step is organizeSourceFiles(projectDir, packageName). */
  ghost predicate OrganizesFor(p: Plan, env: Environment, job: Job)
  {
    forall u {:trigger Organize(u, ProjectDir(env, job), job.pkg, env.lister)} | WellFormed(u) ::
      p.organize.requires(u) && p.organize(u) == Effect(Organize(u, ProjectDir(env, job), job.pkg, env.lister).tree, None)
  }

  /** Each of p's steps is the corresponding step of doInBackground for job. */
  ghost predicate Performs(p: Plan, env: Environment, job: Job)
  {
    && DownloadsFor(p, env, job) && ExtractsFor(p, env, job) && StructuresFor(p, env, job)
    && GradleFor(p, env, job) && ManifestFor(p, env, job) && OrganizesFor(p, env, job)
  }

  /** The plan doInBackground builds performs the job. */
  lemma JobPlanPerforms(env: Environment, job: Job)
    ensures Performs(JobPlan(env, job), env, job)
  {
  }

  lemma DownloadOk(p: Plan, env: Environment, job: Job)
    requires DownloadsFor(p, env, job)
    ensures StepOk(p.download)
  {
    forall u | WellFormed(u)
      ensures p.download.requires(u) && WellFormed(p.download(u).tree) && Grows(u, p.download(u).tree)
    {
      var d := Download(u, env.cache, env.fetch(job.zipUrl));
    }
  }

  lemma ExtractOk(p: Plan, env: Environment, job: Job)
    requires ExtractsFor(p, env, job)
    ensures StepOk(p.extract)
  {
    forall u | WellFormed(u)
      ensures p.extract.requires(u) && WellFormed(p.extract(u).tree) && Grows(u, p.extract(u).tree)
    {
      var x := Extract(u, TempZip(env), ProjectDir(env, job), env.unzip);
    }
  }

  lemma StructureOk(p: Plan, env: Environment, job: Job)
    requires StructuresFor(p, env, job)
    ensures StepOk(p.structure) && NeverThrows(p.structure)
  {
    forall u | WellFormed(u)
      ensures p.structure.requires(u) && WellFormed(p.structure(u).tree) && Grows(u, p.structure(u).tree)
      ensures p.structure(u).error == None
    {
      var c := CreateAndroidStructure(u, ProjectDir(env, job), job.pkg);
    }
  }

  lemma GradleOk(p: Plan, env: Environment, job: Job)
    requires GradleFor(p, env, job)
    ensures StepOk(p.gradle)
  {
    forall u | WellFormed(u)
      ensures p.gradle.requires(u) && WellFormed(p.gradle(u).tree) && Grows(u, p.gradle(u).tree)
    {
      var w := WriteAll(u, GradleFiles(ProjectDir(env, job), job.appName, job.pkg));
    }
  }

  lemma ManifestOk(p: Plan, env: Environment, job: Job)
    requires ManifestFor(p, env, job)
    ensures StepOk(p.manifest)
  {
    forall u | WellFormed(u)
      ensures p.manifest.requires(u) && WellFormed(p.manifest(u).tree) && Grows(u, p.manifest(u).tree)
    {
      var w := WriteAll(u, ManifestFiles(ProjectDir(env, job), job.appName));
    }
  }

  lemma OrganizeOk(p: Plan, env: Environment, job: Job)
    requires OrganizesFor(p, env, job)
    ensures StepOk(p.organize) && NeverThrows(p.organize)
  {
    forall u | WellFormed(u)
      ensures p.organize.requires(u) && WellFormed(p.organize(u).tree) && Grows(u, p.organize(u).tree)
      ensures p.organize(u).error == None
    {
      var o := Organize(u, ProjectDir(env, job), job.pkg, env.lister);
    }
  }

  /** A plan that performs a job is a plan on the filesystem whose structure
      and organiser steps never throw. */
  lemma PerformsOk(p: Plan, env: Environment, job: Job)
    requires Performs(p, env, job)
    ensures PlanOk(p)
  {
    DownloadOk(p, env, job);
    ExtractOk(p, env, job);
    StructureOk(p, env, job);
    GradleOk(p, env, job);
    ManifestOk(p, env, job);
    OrganizeOk(p, env, job);
  }

  /** Two plans that take every filesystem to the same effects. */
  ghost predicate Agree(p: Plan, q: Plan)
    requires PlanOk(p) && PlanOk(q)
  {
    forall s: Stage, u {:trigger StepOf(p, s)(u)} | WellFormed(u) :: StepOf(p, s)(u) == StepOf(q, s)(u)
  }

  /** Plans that agree run alike. */
  lemma {:induction false} SameSteps(t: Tree, p: Plan, q: Plan, k: nat)
    requires WellFormed(t) && PlanOk(p) && PlanOk(q) && Agree(p, q) && k <= |Stages|
    ensures Steps(t, p, k) == Steps(t, q, k)
    decreases k
  {
    if k > 0 {
      SameSteps(t, p, q, k - 1);
      var a := Steps(t, p, k - 1);
      assert Steps(t, q, k - 1) == a;
      if a.error == None {
        var s := Stages[k - 1];
        assert StepOf(p, s)(a.tree) == StepOf(q, s)(a.tree);
        NextStep(t, p, k);
        NextStep(t, q, k);
      } else {
        assert Steps(t, p, k) == a == Steps(t, q, k);
      }
    }
  }

  /** Plans that agree end alike. */
  lemma SameRun(t: Tree, p: Plan, q: Plan, zip: Path)
    requires WellFormed(t) && PlanOk(p) && PlanOk(q) && Agree(p, q)
    ensures Run(t, p, zip) == Run(t, q, zip)
  {
    SameSteps(t, p, q, |Stages|);
  }

  /** Two plans that perform the same job agree. */
  lemma PerformersAgree(p: Plan, q: Plan, env: Environment, job: Job)
    requires Performs(p, env, job) && Performs(q, env, job) && PlanOk(p) && PlanOk(q)
    ensures Agree(p, q)
  {
    forall s: Stage, u | WellFormed(u)
      ensures StepOf(p, s)(u) == StepOf(q, s)(u)
    {
      match s
      case Downloading => var d := Download(u, env.cache, env.fetch(job.zipUrl));
      case Extracting => var x := Extract(u, TempZip(env), ProjectDir(env, job), env.unzip);
      case Structuring => var c := CreateAndroidStructure(u, ProjectDir(env, job), job.pkg);
      case WritingGradle => var w := WriteAll(u, GradleFiles(ProjectDir(env, job), job.appName, job.pkg));
      case WritingManifest => var w := WriteAll(u, ManifestFiles(ProjectDir(env, job), job.appName));
      case Organizing => var o := Organize(u, ProjectDir(env, job), job.pkg, env.lister);
    }
  }

  /** Any plan that performs the job runs as doInBackground does. */
  lemma PerformedRun(t: Tree, p: Plan, env: Environment, job: Job)
    requires WellFormed(t) && Performs(p, env, job)
    ensures PlanOk(p) && Run(t, p, TempZip(env)) == Execute(t, env, job)
  {
    PerformsOk(p, env, job);
    JobPlanPerforms(env, job);
    PerformsOk(JobPlan(env, job), env, job);
    PerformersAgree(p, JobPlan(env, job), env, job);
    SameRun(t, p, JobPlan(env, job), TempZip(env));
  }

  /** Some plan performs every job: the plan of doInBackground itself. */
  lemma SomePlan(env: Environment, job: Job) returns (p: Plan)
    ensures Performs(p, env, job) && PlanOk(p)
  {
    p := JobPlan(env, job);
    JobPlanPerforms(env, job);
    PerformsOk(p, env, job);
  }

  // ------------------------------------------------------------ what a successful run builds

  /** A run whose k-th state threw nothing threw nothing before it either. */
  lemma CleanBefore(t: Tree, p: Plan, j: nat, k: nat)
    requires WellFormed(t) && PlanOk(p) && j <= k <= |Stages| && Steps(t, p, k).error == None
    ensures Steps(t, p, j).error == None
  {
    if Steps(t, p, j).error.Some? {
      StepsStop(t, p, j, k);
    }
  }

  /** A state that threw nothing is the step of its stage on the state before. */
  lemma StepOfStage(t: Tree, p: Plan, k: nat)
    requires WellFormed(t) && PlanOk(p) && 0 < k <= |Stages| && Steps(t, p, k).error == None
    ensures Steps(t, p, k - 1).error == None
    ensures var e := StepOf(p, Stages[k - 1])(Steps(t, p, k - 1).tree);
            Steps(t, p, k).tree == e.tree && e.error == None
  {
    CleanBefore(t, p, k - 1, k);
    NextStep(t, p, k);
  }

  /** In a clean run, state j is the step of stage j on the state before. */
  lemma CleanStep(t: Tree, p: Plan, j: nat, k: nat, s: Stage)
    requires WellFormed(t) && PlanOk(p) && 0 < j <= k == |Stages| && Steps(t, p, k).error == None
    requires Stages[j - 1] == s
    ensures Steps(t, p, j - 1).error == None
    ensures var e := StepOf(p, s)(Steps(t, p, j - 1).tree);
            Steps(t, p, j).tree == e.tree && e.error == None
  {
    CleanBefore(t, p, j, k);
    StepOfStage(t, p, j);
  }

  /** Step f is writing outs. */
  ghost predicate Writes(f: Tree --> Effect, outs: seq<Output>)
  {
    forall u {:trigger WriteAll(u, outs)} | WellFormed(u) :: f.requires(u) && f(u) == WriteAll(u, outs)
  }

  /** Step f is createAndroidStructure(base, pkg). */
  ghost predicate Structures(f: Tree --> Effect, base: Path, pkg: string)
  {
    forall u {:trigger CreateAndroidStructure(u, base, pkg)} | WellFormed(u) ::
      f.requires(u) && f(u) == Effect(CreateAndroidStructure(u, base, pkg), None)
  }

  /** Step f is organizeSourceFiles(base, pkg). */
  ghost predicate Organizes(f: Tree --> Effect, base: Path, pkg: string, lister: Lister)
  {
    forall u {:trigger Organize(u, base, pkg, lister)} | WellFormed(u) ::
      f.requires(u) && f(u) == Effect(Organize(u, base, pkg, lister).tree, None)
  }

  lemma StructuresForJob(p: Plan, env: Environment, job: Job)
    requires StructuresFor(p, env, job)
    ensures Structures(p.structure, ProjectDir(env, job), job.pkg)
  {
    forall u | WellFormed(u)
      ensures p.structure.requires(u) && p.structure(u) == Effect(CreateAndroidStructure(u, ProjectDir(env, job), job.pkg), None)
    {
      var c := CreateAndroidStructure(u, ProjectDir(env, job), job.pkg);
    }
  }

  lemma GradleForJob(p: Plan, env: Environment, job: Job)
    requires GradleFor(p, env, job)
    ensures Writes(p.gradle, GradleFiles(ProjectDir(env, job), job.appName, job.pkg))
  {
    forall u | WellFormed(u)
      ensures p.gradle.requires(u) && p.gradle(u) == WriteAll(u, GradleFiles(ProjectDir(env, job), job.appName, job.pkg))
    {
      var w := WriteAll(u, GradleFiles(ProjectDir(env, job), job.appName, job.pkg));
    }
  }

  lemma ManifestForJob(p: Plan, env: Environment, job: Job)
    requires ManifestFor(p, env, job)
    ensures Writes(p.manifest, ManifestFiles(ProjectDir(env, job), job.appName))
  {
    forall u | WellFormed(u)
      ensures p.manifest.requires(u) && p.manifest(u) == WriteAll(u, ManifestFiles(ProjectDir(env, job), job.appName))
    {
      var w := WriteAll(u, ManifestFiles(ProjectDir(env, job), job.appName));
    }
  }

  lemma OrganizesForJob(p: Plan, env: Environment, job: Job)
    requires OrganizesFor(p, env, job)
    ensures Organizes(p.organize, ProjectDir(env, job), job.pkg, env.lister)
  {
    forall u | WellFormed(u)
      ensures p.organize.requires(u) && p.organize(u) == Effect(Organize(u, ProjectDir(env, job), job.pkg, env.lister).tree, None)
    {
      var o := Organize(u, ProjectDir(env, job), job.pkg, env.lister);
    }
  }

  /** A clean run whose last four steps are the structure step, two writes
      and the organiser ends with them applied to the tree extraction left. */
  lemma CleanRunBuilt(t: Tree, p: Plan, k: nat, base: Path, pkg: string, lister: Lister,
                      gradle: seq<Output>, manifest: seq<Output>)
    requires WellFormed(t) && PlanOk(p)
    requires Structures(p.structure, base, pkg) && Writes(p.gradle, gradle)
    requires Writes(p.manifest, manifest) && Organizes(p.organize, base, pkg, lister)
    requires k == |Stages| && Steps(t, p, k).error == None
    ensures BuiltFrom(Steps(t, p, k - 4).tree, Steps(t, p, k).tree, base, pkg, lister, gradle, manifest)
  {
    assert StepOf(p, Structuring) == p.structure && StepOf(p, WritingGradle) == p.gradle;
    assert StepOf(p, WritingManifest) == p.manifest && StepOf(p, Organizing) == p.organize;
    CleanStep(t, p, k - 3, k, Structuring);
    CleanStep(t, p, k - 2, k, WritingGradle);
    CleanStep(t, p, k - 1, k, WritingManifest);
    CleanStep(t, p, k, k, Organizing);
    var c := CreateAndroidStructure(Steps(t, p, k - 4).tree, base, pkg);
    var g := WriteAll(c, gradle);
    var m := WriteAll(g.tree, manifest);
    var o := Organize(m.tree, base, pkg, lister);
  }

  /** The tree after downloadFile and extractZip: what the last four steps
      start from. */
  function Extracted(t: Tree, env: Environment, job: Job): (r: Tree)
    requires WellFormed(t)
    ensures WellFormed(r) && Grows(t, r)
  {
    var d := Download(t, env.cache, env.fetch(job.zipUrl));
    var x := Extract(d.tree, TempZip(env), ProjectDir(env, job), env.unzip);
    GrowsTransitive(t, d.tree, x.tree);
    x.tree
  }

  /** In a clean run of a plan that downloads and extracts as the job does,
      the state after the first two steps is the extracted tree. */
  lemma CleanRunExtracted(t: Tree, p: Plan, env: Environment, job: Job)
    requires WellFormed(t) && PlanOk(p) && DownloadsFor(p, env, job) && ExtractsFor(p, env, job)
    requires Steps(t, p, |Stages|).error == None
    ensures Steps(t, p, 2).tree == Extracted(t, env, job)
  {
    assert StepOf(p, Downloading) == p.download && StepOf(p, Extracting) == p.extract;
    CleanStep(t, p, 1, |Stages|, Downloading);
    CleanStep(t, p, 2, |Stages|, Extracting);
    assert Steps(t, p, 0).tree == t;
    var d := Download(t, env.cache, env.fetch(job.zipUrl));
    var x := Extract(Steps(t, p, 1).tree, TempZip(env), ProjectDir(env, job), env.unzip);
  }

  /** What a clean run of such a plan builds, once temp.zip is deleted. */
  lemma RunBuilds(t: Tree, p: Plan, zip: Path, base: Path, pkg: string, lister: Lister,
                  gradle: seq<Output>, manifest: seq<Output>)
    requires WellFormed(t) && PlanOk(p)
    requires Structures(p.structure, base, pkg) && Writes(p.gradle, gradle)
    requires Writes(p.manifest, manifest) && Organizes(p.organize, base, pkg, lister)
    requires Separate(gradle, manifest, base + SourceDir(pkg)) && Run(t, p, zip).success
    ensures var dest := base + SourceDir(pkg);
            var u := Steps(t, p, |Stages| - 4).tree;
            var r := Run(t, p, zip).tree;
            && (forall o | o in gradle + manifest && o.path != zip :: Holds(r, o.path, o.text))
            && PackageDirFrom(u, r, dest, zip)
  {
    var u := Steps(t, p, |Stages| - 4).tree;
    var r := Steps(t, p, |Stages|).tree;
    RunCompletes(t, p, zip);
    CleanRunBuilt(t, p, |Stages|, base, pkg, lister, gradle, manifest);
    BuiltFiles(u, r, base, pkg, lister, gradle, manifest);
    BuiltPackageDir(u, r, base, pkg, lister, gradle, manifest);
    DeleteKeepsBuilt(r, zip, gradle, manifest);
    DeletedPackageDirFrom(u, r, zip, base + SourceDir(pkg));
  }

  /** What a run of a plan that performs the job builds when it returns true. */
  lemma RunBuildsProject(t: Tree, p: Plan, env: Environment, job: Job)
    requires WellFormed(t) && PlanOk(p) && Performs(p, env, job) && Run(t, p, TempZip(env)).success
    ensures var base := ProjectDir(env, job);
            var dest := base + SourceDir(job.pkg);
            var x := Extracted(t, env, job);
            var r := Run(t, p, TempZip(env)).tree;
            && (forall o | o in GradleFiles(base, job.appName, job.pkg) + ManifestFiles(base, job.appName) && o.path != TempZip(env) ::
                  Holds(r, o.path, o.text))
            && PackageDirFrom(x, r, dest, TempZip(env))
  {
    var base := ProjectDir(env, job);
    StructuresForJob(p, env, job);
    GradleForJob(p, env, job);
    ManifestForJob(p, env, job);
    OrganizesForJob(p, env, job);
    GeneratedSeparate(base, job.appName, job.pkg);
    RunBuilds(t, p, TempZip(env), base, job.pkg, env.lister,
              GradleFiles(base, job.appName, job.pkg), ManifestFiles(base, job.appName));
    CleanRunExtracted(t, p, env, job);
  }

  /** What a run that returns true has built: every file createGradleFiles
      and createManifest write holds its template, unless temp.zip is that
      very path. A regular file blocks the package directory afterwards only
      if one blocked it in the tree extraction left (one that was there
      before, or one the archive held); unless temp.zip lies on its way, the
      package directory is a directory exactly when nothing blocked it
      there. */
  lemma SuccessfulRunBuildsProject(t: Tree, env: Environment, job: Job)
    requires WellFormed(t) && Execute(t, env, job).success
    ensures var base := ProjectDir(env, job);
            var dest := base + SourceDir(job.pkg);
            var x := Extracted(t, env, job);
            var r := Execute(t, env, job).tree;
            && (forall o | o in GradleFiles(base, job.appName, job.pkg) + ManifestFiles(base, job.appName) && o.path != TempZip(env) ::
                  Holds(r, o.path, o.text))
            && PackageDirFrom(x, r, dest, TempZip(env))
  {
    var p := SomePlan(env, job);
    PerformedRun(t, p, env, job);
    RunBuildsProject(t, p, env, job);
  }
}
