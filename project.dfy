/** What the last four steps of doInBackground leave in the project
    directory, whatever extraction left there: createAndroidStructure,
    createGradleFiles, createManifest and organizeSourceFiles in turn. */
module Assembly {
  import opened Text
  import opened FileSystem
  import opened Layout
  import opened Scaffold
  import opened Generation
  import opened Organizer

  /** p holds the UTF-8 bytes of text. */
  ghost predicate Holds(t: Tree, p: Path, text: string)
  {
    p in t && t[p] == File(Utf8(text))
  }

  /** r is what the structure step, writing `gradle`, writing `manifest` and
      the organiser leave when started from u, none of the writes throwing. */
  ghost predicate BuiltFrom(u: Tree, r: Tree, base: Path, pkg: string, lister: Lister,
                            gradle: seq<Output>, manifest: seq<Output>)
  {
    && WellFormed(u)
    && var c := CreateAndroidStructure(u, base, pkg);
       var g := WriteAll(c, gradle);
       var m := WriteAll(g.tree, manifest);
       && g.error == None && m.error == None
       && r == Organize(m.tree, base, pkg, lister).tree
  }

  /** The last four steps only grow the tree. */
  lemma BuiltGrows(u: Tree, r: Tree, base: Path, pkg: string, lister: Lister, gradle: seq<Output>, manifest: seq<Output>)
    requires BuiltFrom(u, r, base, pkg, lister, gradle, manifest)
    ensures WellFormed(r) && Grows(u, r)
    ensures Grows(CreateAndroidStructure(u, base, pkg), r)
  {
    var c := CreateAndroidStructure(u, base, pkg);
    var g := WriteAll(c, gradle);
    var m := WriteAll(g.tree, manifest);
    GrowsTransitive(c, g.tree, m.tree);
    GrowsTransitive(c, m.tree, r);
    GrowsTransitive(u, c, r);
  }

  /** The package directory exists afterwards unless a regular file stood on
      its way before the four steps; such a file is still there, and no other
      blocks it afterwards. */
  lemma BuiltPackageDir(u: Tree, r: Tree, base: Path, pkg: string, lister: Lister, gradle: seq<Output>, manifest: seq<Output>)
    requires BuiltFrom(u, r, base, pkg, lister, gradle, manifest)
    ensures var dest := base + SourceDir(pkg);
            && (!Blocked(u, dest) ==> IsDir(r, dest))
            && (Blocked(u, dest) <==> Blocked(r, dest))
  {
    var dest := base + SourceDir(pkg);
    BuiltGrows(u, r, base, pkg, lister, gradle, manifest);
    if Blocked(u, dest) {
      var j :| 0 <= j <= |dest| && IsFile(u, dest[..j]);
      assert IsFile(r, dest[..j]);
    } else {
      AndroidStructureCreated(u, base, pkg);
      assert SourceDir(pkg) in ScaffoldDirs(pkg);
      BlockedPresent(r, dest);
    }
  }

  /** Outputs that do not disturb one another: the Gradle files are
      independent, the manifest is one more file, and none is a ".java" name
      directly in dest. */
  ghost predicate Separate(gradle: seq<Output>, manifest: seq<Output>, dest: Path)
  {
    Independent(gradle) && Unclashing(gradle, manifest, dest)
  }

  /** The manifest is one file other than the Gradle files, and none of them
      is a ".java" name directly in dest. */
  ghost predicate Unclashing(gradle: seq<Output>, manifest: seq<Output>, dest: Path)
  {
    && |manifest| == 1
    && (forall i | 0 <= i < |gradle| :: gradle[i].path != manifest[0].path)
    && (forall i | 0 <= i < |gradle| :: !InDest(dest, gradle[i].path))
    && !InDest(dest, manifest[0].path)
  }

  /** Every file written holds its text afterwards. */
  lemma BuiltFiles(u: Tree, r: Tree, base: Path, pkg: string, lister: Lister, gradle: seq<Output>, manifest: seq<Output>)
    requires BuiltFrom(u, r, base, pkg, lister, gradle, manifest)
    requires Separate(gradle, manifest, base + SourceDir(pkg))
    ensures WellFormed(r)
    ensures forall i | 0 <= i < |gradle| :: Holds(r, gradle[i].path, gradle[i].text)
    ensures Holds(r, manifest[0].path, manifest[0].text)
  {
    var c := CreateAndroidStructure(u, base, pkg);
    var g := WriteAll(c, gradle);
    WriteAllContents(c, gradle);
    SingleWrite(g.tree, manifest[0]);
    assert manifest == [manifest[0]];
  }

  /** A regular file on the package directory's way before the four steps
      (one that was there before the run, or one the archive held, say at
      app/src/main/java) is still there after them, so the package directory
      is then not a directory. */
  lemma BlockedPackageDirStays(u: Tree, r: Tree, base: Path, pkg: string, lister: Lister,
                               gradle: seq<Output>, manifest: seq<Output>)
    requires BuiltFrom(u, r, base, pkg, lister, gradle, manifest)
    requires Blocked(u, base + SourceDir(pkg))
    ensures !IsDir(r, base + SourceDir(pkg))
  {
    var dest := base + SourceDir(pkg);
    BuiltGrows(u, r, base, pkg, lister, gradle, manifest);
    BuiltPackageDir(u, r, base, pkg, lister, gradle, manifest);
    var j :| 0 <= j <= |dest| && IsFile(r, dest[..j]);
    if j == |dest| {
      assert dest[..j] == dest;
    } else {
      assert !IsDir(r, dest[..j]);
    }
  }

  /** Deleting a path keeps every written file other than it. */
  lemma DeleteKeepsBuilt(r: Tree, zip: Path, gradle: seq<Output>, manifest: seq<Output>)
    requires WellFormed(r) && |manifest| == 1
    requires forall i | 0 <= i < |gradle| :: Holds(r, gradle[i].path, gradle[i].text)
    requires Holds(r, manifest[0].path, manifest[0].text)
    ensures var d := Delete(r, zip);
            forall o | o in gradle + manifest && o.path != zip :: Holds(d, o.path, o.text)
  {
    var d := Delete(r, zip);
    forall o | o in gradle + manifest && o.path != zip ensures Holds(d, o.path, o.text) {
      if o in gradle {
        var i :| 0 <= i < |gradle| && gradle[i] == o;
      } else {
        assert o == manifest[0];
      }
      DeleteKeeps(r, zip, o.path);
    }
  }

  /** Deleting a path makes no directory and no regular file; one that is not
      on dest's way leaves dest a directory, or blocked, as it was. */
  lemma DeletedPackageDir(r: Tree, zip: Path, dest: Path)
    requires WellFormed(r)
    ensures var d := Delete(r, zip);
            && (IsDir(d, dest) ==> IsDir(r, dest))
            && (Blocked(d, dest) ==> Blocked(r, dest))
            && (!PrefixOf(zip, dest) ==> (IsDir(d, dest) <==> IsDir(r, dest)) && (Blocked(d, dest) <==> Blocked(r, dest)))
  {
    var d := Delete(r, zip);
    if Blocked(d, dest) {
      var j :| 0 <= j <= |dest| && IsFile(d, dest[..j]);
      assert IsFile(r, dest[..j]);
    }
    if !PrefixOf(zip, dest) {
      if IsDir(r, dest) {
        DeleteKeeps(r, zip, dest);
      }
      if Blocked(r, dest) {
        var j :| 0 <= j <= |dest| && IsFile(r, dest[..j]);
        DeleteKeeps(r, zip, dest[..j]);
      }
    }
  }

  /** What became of the package directory dest in r, compared with x, the
      tree before the last four steps: a regular file blocks it only if one
      blocked it in x; and unless zip lies on its way, it is a directory
      exactly when nothing blocked it in x, and blocked otherwise. */
  ghost predicate PackageDirFrom(x: Tree, r: Tree, dest: Path, zip: Path)
  {
    && (Blocked(r, dest) ==> Blocked(x, dest))
    && (!PrefixOf(zip, dest) ==> (IsDir(r, dest) <==> !Blocked(x, dest)) && (IsDir(r, dest) || Blocked(r, dest)))
  }

  /** Deleting zip after the four steps leaves the package directory as
      PackageDirFrom says. */
  lemma DeletedPackageDirFrom(u: Tree, r: Tree, zip: Path, dest: Path)
    requires WellFormed(r)
    requires !Blocked(u, dest) ==> IsDir(r, dest)
    requires Blocked(u, dest) <==> Blocked(r, dest)
    ensures PackageDirFrom(u, Delete(r, zip), dest, zip)
  {
    DeletedPackageDir(r, zip, dest);
    if IsDir(r, dest) {
      BlockedPresent(r, dest);
    }
  }

  /** Two paths below the same base with different tails differ. */
  lemma ApartBelow(base: Path, x: Path, y: Path)
    requires x != y
    ensures base + x != base + y
  {
    assert (base + x)[|base|..] == x && (base + y)[|base|..] == y;
  }

  /** A path below base whose name is not a ".java" name is not one the
      organiser copies to. */
  lemma NotCopiedTo(base: Path, dest: Path, tail: Path)
    requires tail != [] && !IsJavaName(Last(tail))
    ensures !InDest(dest, base + tail)
  {
    assert Last(base + tail) == Last(tail);
  }

  /** Four files and one more below base, at the paths the generator uses,
      do not clash with one another or with the package directory dest. */
  lemma SeparateBelow(base: Path, dest: Path, gradle: seq<Output>, manifest: seq<Output>)
    requires |gradle| == 4 && |manifest| == 1
    requires gradle[0].path == base + RootBuildFile && gradle[1].path == base + AppBuildFile
    requires gradle[2].path == base + SettingsFile && gradle[3].path == base + PropertiesFile
    requires manifest[0].path == base + ManifestFile
    ensures Unclashing(gradle, manifest, dest)
  {
    GradleApartFromManifest(base, Paths4(gradle), manifest[0].path);
    GradleNotCopied(base, dest, Paths4(gradle));
    NotCopiedTo(base, dest, ManifestFile);
  }

  /** The paths of four outputs. */
  function Paths4(gradle: seq<Output>): (r: seq<Path>)
    requires |gradle| == 4
    ensures |r| == 4 && forall i | 0 <= i < 4 :: r[i] == gradle[i].path
  {
    [gradle[0].path, gradle[1].path, gradle[2].path, gradle[3].path]
  }

  /** None of the four Gradle paths is the manifest's. */
  lemma GradleApartFromManifest(base: Path, ps: seq<Path>, m: Path)
    requires |ps| == 4 && m == base + ManifestFile
    requires ps[0] == base + RootBuildFile && ps[1] == base + AppBuildFile
    requires ps[2] == base + SettingsFile && ps[3] == base + PropertiesFile
    ensures forall i | 0 <= i < 4 :: ps[i] != m
  {
    ApartBelow(base, RootBuildFile, ManifestFile);
    ApartBelow(base, AppBuildFile, ManifestFile);
    ApartBelow(base, SettingsFile, ManifestFile);
    ApartBelow(base, PropertiesFile, ManifestFile);
  }

  /** None of the four Gradle paths is one the organiser copies to. */
  lemma GradleNotCopied(base: Path, dest: Path, ps: seq<Path>)
    requires |ps| == 4
    requires ps[0] == base + RootBuildFile && ps[1] == base + AppBuildFile
    requires ps[2] == base + SettingsFile && ps[3] == base + PropertiesFile
    ensures forall i | 0 <= i < 4 :: !InDest(dest, ps[i])
  {
    assert !InDest(dest, ps[0]) by { NotCopiedTo(base, dest, RootBuildFile); }
    assert !InDest(dest, ps[1]) by { NotCopiedTo(base, dest, AppBuildFile); }
    assert !InDest(dest, ps[2]) by { NotCopiedTo(base, dest, SettingsFile); }
    assert !InDest(dest, ps[3]) by { NotCopiedTo(base, dest, PropertiesFile); }
  }

  /** The files createGradleFiles and createManifest write do not disturb
      one another, and the organiser copies to none of them. */
  lemma GeneratedSeparate(base: Path, appName: string, pkg: string)
    ensures Separate(GradleFiles(base, appName, pkg), ManifestFiles(base, appName), base + SourceDir(pkg))
  {
    GradleFilesIndependent(base, appName, pkg);
    SeparateBelow(base, base + SourceDir(pkg), GradleFiles(base, appName, pkg), ManifestFiles(base, appName));
  }
}
