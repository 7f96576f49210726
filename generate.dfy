/** ProjectSetupTask.writeFile, createGradleFiles and createManifest: text
    files written through FileWriter after their parent directories are
    made, each replacing whatever the file held. */
module Generation {
  import opened Text
  import opened FileSystem
  import opened Layout

  /** A file the generator writes, and its text. */
  datatype Output = Output(path: Path, text: string)

  /** writeFile(file, content). */
  function WriteText(t: Tree, p: Path, text: string): (r: Effect)
    requires WellFormed(t)
    ensures WellFormed(r.tree) && Grows(t, r.tree)
    ensures r.error == None <==> Writable(t, p)
    ensures r.error == None ==> p in r.tree && r.tree[p] == File(Utf8(text))
    ensures r.error.Some? ==> r.error.value == CreateError(t, p)
    ensures forall q | q in t && q != p :: q in r.tree && r.tree[q] == t[q]
  {
    WriteBytes(t, p, Utf8(text))
  }

  /** The paths of outs. */
  function Paths(outs: seq<Output>): (r: set<Path>)
    ensures forall i | 0 <= i < |outs| :: outs[i].path in r
    decreases |outs|
  {
    if outs == [] then {} else {outs[0].path} + Paths(outs[1..])
  }

  /** Consecutive writeFile calls; the first exception ends the method. */
  function WriteAll(t: Tree, outs: seq<Output>): (r: Effect)
    requires WellFormed(t)
    ensures WellFormed(r.tree) && Grows(t, r.tree)
    ensures forall q | q in t && q !in Paths(outs) :: q in r.tree && r.tree[q] == t[q]
    decreases |outs|
  {
    if outs == [] then Effect(t, None)
    else
      var a := WriteText(t, outs[0].path, outs[0].text);
      if a.error.Some? then a
      else WriteAll(a.tree, outs[1..])
  }

  /** Neither path is the other, and neither lies in a directory the other
      path's parent needs, so writing one cannot change whether the other can
      be written. */
  predicate Apart(p: Path, q: Path)
  {
    p != q && !PrefixOf(p, Parent(q)) && !PrefixOf(q, Parent(p))
  }

  predicate Independent(outs: seq<Output>)
  {
    forall i, j | 0 <= i < |outs| && 0 <= j < |outs| && i != j :: Apart(outs[i].path, outs[j].path)
  }

  lemma PrefixOfParent(q: Path, p: Path)
    requires PrefixOf(q, p) && q != p
    ensures PrefixOf(q, Parent(p))
  {
  }

  /** Writing p leaves the open of an unrelated path q deciding as before. */
  lemma WriteKeepsOpen(t: Tree, p: Path, text: string, q: Path)
    requires WellFormed(t) && Apart(p, q)
    ensures var u := WriteText(t, p, text).tree;
            && (IsDir(u, q) <==> IsDir(t, q))
            && (Blocked(u, Parent(q)) <==> Blocked(t, Parent(q)))
  {
    var u := WriteBytes(t, p, Utf8(text)).tree;
    forall x | x in u && x !in t ensures x == p || PrefixOf(x, Parent(p)) {
      if x != p {
        PrefixOfParent(x, p);
      }
    }
    forall x | x <= Parent(q) ensures IsFile(t, x) <==> IsFile(u, x) {
      assert PrefixOf(x, Parent(q));
    }
    BlockedSameFiles(t, u, Parent(q));
  }

  lemma IndependentTail(outs: seq<Output>)
    requires Independent(outs) && outs != []
    ensures Independent(outs[1..])
    ensures forall i | 1 <= i < |outs| :: Apart(outs[0].path, outs[i].path)
  {
    var rest := outs[1..];
    forall i, j | 0 <= i < |rest| && 0 <= j < |rest| && i != j ensures Apart(rest[i].path, rest[j].path) {
      assert rest[i] == outs[i + 1] && rest[j] == outs[j + 1];
    }
  }

  /** After the first write the others decide exactly as in the initial tree. */
  lemma WriteFirstKeepsRest(t: Tree, outs: seq<Output>)
    requires WellFormed(t) && Independent(outs) && outs != []
    ensures var u := WriteText(t, outs[0].path, outs[0].text).tree;
            forall i | 1 <= i < |outs| ::
              && (Writable(u, outs[i].path) <==> Writable(t, outs[i].path))
              && CreateError(u, outs[i].path) == CreateError(t, outs[i].path)
  {
    IndependentTail(outs);
    forall i | 1 <= i < |outs| {
      WriteKeepsOpen(t, outs[0].path, outs[0].text, outs[i].path);
    }
  }

  /** Every path of outs can be written in t. */
  predicate AllWritable(t: Tree, outs: seq<Output>)
  {
    forall i | 0 <= i < |outs| :: Writable(t, outs[i].path)
  }

  lemma AllWritableCons(t: Tree, outs: seq<Output>)
    requires outs != []
    ensures AllWritable(t, outs) <==> Writable(t, outs[0].path) && AllWritable(t, outs[1..])
  {
    if Writable(t, outs[0].path) && AllWritable(t, outs[1..]) {
      forall i | 0 <= i < |outs| ensures Writable(t, outs[i].path) {
        if i > 0 {
          assert outs[1..][i - 1] == outs[i];
        }
      }
    }
    if AllWritable(t, outs) {
      forall i | 0 <= i < |outs[1..]| ensures Writable(t, outs[1..][i].path) {
        assert outs[1..][i] == outs[i + 1];
      }
    }
  }

  lemma AllWritableAfterFirst(t: Tree, outs: seq<Output>)
    requires WellFormed(t) && Independent(outs) && outs != []
    ensures AllWritable(WriteText(t, outs[0].path, outs[0].text).tree, outs[1..]) <==> AllWritable(t, outs[1..])
  {
    WriteFirstKeepsRest(t, outs);
    var u := WriteText(t, outs[0].path, outs[0].text).tree;
    forall i | 0 <= i < |outs[1..]| ensures Writable(u, outs[1..][i].path) <==> Writable(t, outs[1..][i].path) {
      assert outs[1..][i] == outs[i + 1];
    }
  }

  /** writeFile calls on independent paths all complete exactly when every
      path can be written in the initial tree. */
  lemma {:induction false} WriteAllSucceeds(t: Tree, outs: seq<Output>)
    requires WellFormed(t) && Independent(outs)
    ensures WriteAll(t, outs).error == None <==> AllWritable(t, outs)
    decreases |outs|
  {
    if outs != [] {
      var a := WriteText(t, outs[0].path, outs[0].text);
      AllWritableCons(t, outs);
      if a.error == None {
        IndependentTail(outs);
        AllWritableAfterFirst(t, outs);
        WriteAllSucceeds(a.tree, outs[1..]);
      }
    }
  }

  /** After writeFile calls on independent paths that all complete, every file
      holds the UTF-8 bytes of its own text, whatever it held before. */
  lemma {:induction false} WriteAllContents(t: Tree, outs: seq<Output>)
    requires WellFormed(t) && Independent(outs)
    requires WriteAll(t, outs).error == None
    ensures forall i | 0 <= i < |outs| :: outs[i].path in WriteAll(t, outs).tree
                                       && WriteAll(t, outs).tree[outs[i].path] == File(Utf8(outs[i].text))
    decreases |outs|
  {
    if outs != [] {
      var p := outs[0].path;
      var a := WriteText(t, p, outs[0].text);
      var rest := outs[1..];
      var r := WriteAll(a.tree, rest);
      IndependentTail(outs);
      WriteAllContents(a.tree, rest);
      forall k | 0 <= k < |rest| ensures rest[k].path != p {
        assert rest[k] == outs[k + 1];
      }
      PathsOf(rest, p);
      forall i | 0 <= i < |outs| ensures outs[i].path in r.tree && r.tree[outs[i].path] == File(Utf8(outs[i].text)) {
        if i > 0 {
          assert rest[i - 1] == outs[i];
        }
      }
    }
  }

  lemma {:induction false} PathsOf(outs: seq<Output>, p: Path)
    ensures p in Paths(outs) <==> exists i | 0 <= i < |outs| :: outs[i].path == p
    decreases |outs|
  {
    if outs != [] {
      PathsOf(outs[1..], p);
      if p in Paths(outs[1..]) {
        var i :| 0 <= i < |outs[1..]| && outs[1..][i].path == p;
        assert outs[i + 1].path == p;
      }
      if exists i | 0 <= i < |outs| :: outs[i].path == p {
        var i :| 0 <= i < |outs| && outs[i].path == p;
        if i > 0 {
          assert outs[1..][i - 1].path == p;
        }
      }
    }
  }

  /** When writeFile calls on independent paths stop, the exception is the one
      the first path that cannot be written throws. */
  lemma {:induction false} WriteAllFailure(t: Tree, outs: seq<Output>)
    requires WellFormed(t) && Independent(outs)
    requires WriteAll(t, outs).error.Some?
    ensures exists j | 0 <= j < |outs| ::
              && (forall i | 0 <= i < j :: Writable(t, outs[i].path))
              && !Writable(t, outs[j].path)
              && WriteAll(t, outs).error == Some(CreateError(t, outs[j].path))
    decreases |outs|
  {
    var a := WriteText(t, outs[0].path, outs[0].text);
    if a.error.Some? {
      assert !Writable(t, outs[0].path);
    } else {
      var rest := outs[1..];
      IndependentTail(outs);
      WriteFirstKeepsRest(t, outs);
      WriteAllFailure(a.tree, rest);
      var j :| 0 <= j < |rest| && (forall i | 0 <= i < j :: Writable(a.tree, rest[i].path))
               && !Writable(a.tree, rest[j].path) && WriteAll(a.tree, rest).error == Some(CreateError(a.tree, rest[j].path));
      assert rest[j] == outs[j + 1];
      forall i | 0 <= i < j + 1 ensures Writable(t, outs[i].path) {
        if i > 0 {
          assert rest[i - 1] == outs[i];
        }
      }
    }
  }

  /** Write i of a run, then the writes after it unless it threw. */
  lemma WriteAllStep(t: Tree, outs: seq<Output>, i: nat)
    requires WellFormed(t) && i < |outs|
    ensures var a := WriteText(t, outs[i].path, outs[i].text);
            WriteAll(t, outs[i..]) == if a.error.Some? then a else WriteAll(a.tree, outs[i + 1..])
  {
    assert outs[i..][0] == outs[i] && outs[i..][1..] == outs[i + 1..];
  }

  /** After the last write nothing is left to do. */
  lemma WriteAllDone(t: Tree, outs: seq<Output>)
    requires WellFormed(t)
    ensures WriteAll(t, outs[|outs|..]) == Effect(t, None)
  {
    assert outs[|outs|..] == [];
  }

  /** A sequence of one write is that write. */
  lemma SingleWrite(t: Tree, o: Output)
    requires WellFormed(t)
    ensures WriteAll(t, [o]) == WriteText(t, o.path, o.text)
  {
    assert [o][1..] == [];
  }

  /** The four files createGradleFiles writes, in its order. */
  function GradleFiles(base: Path, appName: string, pkg: string): (r: seq<Output>)
    ensures |r| == 4
  {
    [ Output(base + RootBuildFile, RootGradle),
      Output(base + AppBuildFile, AppGradle(pkg)),
      Output(base + SettingsFile, SettingsGradle(appName)),
      Output(base + PropertiesFile, GradleProperties) ]
  }

  /** The file createManifest writes. */
  function ManifestFiles(base: Path, appName: string): (r: seq<Output>)
    ensures |r| == 1
  {
    [Output(base + ManifestFile, Manifest(appName))]
  }

  lemma GradleFilesIndependent(base: Path, appName: string, pkg: string)
    ensures Independent(GradleFiles(base, appName, pkg))
  {
    var g := GradleFiles(base, appName, pkg);
    var n := |base|;
    assert g[0].path[n] == "build.gradle";
    assert g[1].path[n] == "app" && g[1].path[n + 1] == "build.gradle";
    assert g[2].path[n] == "settings.gradle";
    assert g[3].path[n] == "gradle.properties";
    assert Parent(g[0].path) == base && Parent(g[2].path) == base && Parent(g[3].path) == base;
    assert Parent(g[1].path) == base + ["app"];
    assert (base + ["app"])[n] == "app";
  }

  /** Four independent writes, spelled out. */
  lemma FourWrites(t: Tree, outs: seq<Output>)
    requires WellFormed(t) && Independent(outs) && |outs| == 4
    ensures WriteAll(t, outs).error == None
        <==> Writable(t, outs[0].path) && Writable(t, outs[1].path) && Writable(t, outs[2].path) && Writable(t, outs[3].path)
    ensures var r := WriteAll(t, outs);
      r.error == None ==>
      && outs[0].path in r.tree && r.tree[outs[0].path] == File(Utf8(outs[0].text))
      && outs[1].path in r.tree && r.tree[outs[1].path] == File(Utf8(outs[1].text))
      && outs[2].path in r.tree && r.tree[outs[2].path] == File(Utf8(outs[2].text))
      && outs[3].path in r.tree && r.tree[outs[3].path] == File(Utf8(outs[3].text))
  {
    WriteAllSucceeds(t, outs);
    AllWritableCons(t, outs);
    AllWritableCons(t, outs[1..]);
    AllWritableCons(t, outs[2..]);
    AllWritableCons(t, outs[3..]);
    assert outs[1..][0] == outs[1] && outs[2..][0] == outs[2] && outs[3..][0] == outs[3];
    assert outs[1..][1..] == outs[2..] && outs[2..][1..] == outs[3..] && outs[3..][1..] == [];
    if WriteAll(t, outs).error == None {
      WriteAllContents(t, outs);
    }
  }

  /** createGradleFiles completes exactly when each of its four files can be
      written; then build.gradle and gradle.properties hold their fixed texts,
      app/build.gradle the module descriptor for pkg and settings.gradle the
      settings naming appName, each replacing any earlier content. */
  lemma GradleFilesWritten(t: Tree, base: Path, appName: string, pkg: string)
    requires WellFormed(t)
    ensures var r := WriteAll(t, GradleFiles(base, appName, pkg));
            && (r.error == None <==> && Writable(t, base + RootBuildFile) && Writable(t, base + AppBuildFile)
                                     && Writable(t, base + SettingsFile) && Writable(t, base + PropertiesFile))
            && (r.error == None ==>
                  && base + RootBuildFile in r.tree && r.tree[base + RootBuildFile] == File(Utf8(RootGradle))
                  && base + AppBuildFile in r.tree && r.tree[base + AppBuildFile] == File(Utf8(AppGradle(pkg)))
                  && base + SettingsFile in r.tree && r.tree[base + SettingsFile] == File(Utf8(SettingsGradle(appName)))
                  && base + PropertiesFile in r.tree && r.tree[base + PropertiesFile] == File(Utf8(GradleProperties)))
  {
    GradleFilesIndependent(base, appName, pkg);
    FourWrites(t, GradleFiles(base, appName, pkg));
  }

  /** A single write, spelled out. */
  lemma OneWrite(t: Tree, p: Path, text: string)
    requires WellFormed(t)
    ensures var r := WriteAll(t, [Output(p, text)]);
            && (r.error == None <==> Writable(t, p))
            && (r.error == None ==> p in r.tree && r.tree[p] == File(Utf8(text)))
            && (r.error.Some? ==> r.error == Some(CreateError(t, p)))
            && (forall q | q in t && q != p :: q in r.tree && r.tree[q] == t[q])
  {
    SingleWrite(t, Output(p, text));
  }

  /** createManifest: it completes exactly when the manifest can be written;
      then the manifest is the template labelled with appName. */
  lemma ManifestWritten(t: Tree, base: Path, appName: string)
    requires WellFormed(t)
    ensures var r := WriteAll(t, ManifestFiles(base, appName));
            && (r.error == None <==> Writable(t, base + ManifestFile))
            && (r.error == None ==> base + ManifestFile in r.tree && r.tree[base + ManifestFile] == File(Utf8(Manifest(appName))))
            && (r.error.Some? ==> r.error == Some(CreateError(t, base + ManifestFile)))
            && (forall q | q in t && q != base + ManifestFile :: q in r.tree && r.tree[q] == t[q])
  {
    OneWrite(t, base + ManifestFile, Manifest(appName));
  }
}
