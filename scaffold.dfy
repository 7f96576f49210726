/** ProjectSetupTask.createAndroidStructure: mkdirs on each of twelve fixed
    directories below the project directory, in order, ignoring whether
    each call succeeds. */
module Scaffold {
  import opened FileSystem
  import opened Layout

  /** mkdirs on each path of ps in turn. */
  function MkDirsAll(t: Tree, ps: seq<Path>): (r: Tree)
    requires WellFormed(t)
    ensures WellFormed(r) && Grows(t, r)
    ensures forall q | q in t :: r[q] == t[q]
    ensures forall q | q in r && q !in t :: r[q] == Directory && exists i | 0 <= i < |ps| :: PrefixOf(q, ps[i])
    decreases |ps|
  {
    if ps == [] then t
    else
      var u := MkDirs(t, ps[0]);
      var r := MkDirsAll(u, ps[1..]);
      assert forall q | q in r && q !in t :: exists i | 0 <= i < |ps| :: PrefixOf(q, ps[i]) by {
        forall q | q in r && q !in t ensures exists i | 0 <= i < |ps| :: PrefixOf(q, ps[i]) {
          if q in u {
            assert PrefixOf(q, ps[0]);
          } else {
            var j :| 0 <= j < |ps[1..]| && PrefixOf(q, ps[1..][j]);
            assert ps[j + 1] == ps[1..][j];
          }
        }
      }
      r
  }

  /** Call i of the loop, then the calls after it. */
  lemma MkDirsAllStep(t: Tree, ps: seq<Path>, i: nat)
    requires WellFormed(t) && i < |ps|
    ensures MkDirsAll(t, ps[i..]) == MkDirsAll(MkDirs(t, ps[i]), ps[i + 1..])
  {
    assert ps[i..][0] == ps[i] && ps[i..][1..] == ps[i + 1..];
  }

  /** After the last call nothing is left to do. */
  lemma MkDirsAllDone(t: Tree, ps: seq<Path>)
    requires WellFormed(t)
    ensures MkDirsAll(t, ps[|ps|..]) == t
  {
    assert ps[|ps|..] == [];
  }

  /** The regular files are the same in both trees. */
  ghost predicate SameFiles(t: Tree, u: Tree)
  {
    forall q :: IsFile(t, q) <==> IsFile(u, q)
  }

  /** mkdirs never creates, changes or removes a regular file. */
  lemma MkDirsAllKeepsFiles(t: Tree, ps: seq<Path>)
    requires WellFormed(t)
    ensures SameFiles(t, MkDirsAll(t, ps))
    ensures Files(MkDirsAll(t, ps)) == Files(t)
  {
    var r := MkDirsAll(t, ps);
    assert Files(r).Keys == Files(t).Keys;
  }

  /** After the loop each path, and every directory above it, is a directory,
      unless a regular file already stood on the way; in that case the path
      is not a directory. */
  lemma {:induction false} MkDirsAllMakes(t: Tree, ps: seq<Path>)
    requires WellFormed(t)
    ensures forall i | 0 <= i < |ps| :: IsDir(MkDirsAll(t, ps), ps[i]) <==> !Blocked(t, ps[i])
    ensures forall i, k | 0 <= i < |ps| && 0 <= k <= |ps[i]| && !Blocked(t, ps[i]) :: IsDir(MkDirsAll(t, ps), ps[i][..k])
    decreases |ps|
  {
    if ps != [] {
      var u := MkDirs(t, ps[0]);
      var r := MkDirsAll(u, ps[1..]);
      assert MkDirsAll(u, []) == u;
      MkDirsAllKeepsFiles(t, [ps[0]]);
      assert MkDirsAll(t, [ps[0]]) == u;
      MkDirsAllMakes(u, ps[1..]);
      forall i | 0 <= i < |ps| ensures IsDir(r, ps[i]) <==> !Blocked(t, ps[i]) {
        BlockedSameFiles(t, u, ps[i]);
        if i == 0 {
          if Blocked(t, ps[0]) && ps[0] in r {
            BlockedPresent(r, ps[0]);
            MkDirsAllKeepsFiles(u, ps[1..]);
            BlockedSameFiles(u, r, ps[0]);
          }
        } else {
          assert ps[1..][i - 1] == ps[i];
        }
      }
      forall i, k | 0 <= i < |ps| && 0 <= k <= |ps[i]| && !Blocked(t, ps[i]) ensures IsDir(r, ps[i][..k]) {
        BlockedSameFiles(t, u, ps[i]);
        if i > 0 {
          assert ps[1..][i - 1] == ps[i];
        }
      }
    }
  }

  /** A loop whose every path is already a directory or blocked changes nothing. */
  lemma {:induction false} MkDirsAllSettled(u: Tree, ps: seq<Path>)
    requires WellFormed(u)
    requires forall i | 0 <= i < |ps| :: Blocked(u, ps[i]) || IsDir(u, ps[i])
    ensures MkDirsAll(u, ps) == u
    decreases |ps|
  {
    if ps != [] {
      MkDirsNoChange(u, ps[0]);
      assert forall i | 0 <= i < |ps[1..]| :: ps[1..][i] == ps[i + 1];
      MkDirsAllSettled(u, ps[1..]);
    }
  }

  /** Running the loop a second time leaves the tree as the first run left it. */
  lemma MkDirsAllIdempotent(t: Tree, ps: seq<Path>)
    requires WellFormed(t)
    ensures MkDirsAll(MkDirsAll(t, ps), ps) == MkDirsAll(t, ps)
  {
    var r := MkDirsAll(t, ps);
    MkDirsAllMakes(t, ps);
    MkDirsAllKeepsFiles(t, ps);
    forall i | 0 <= i < |ps| ensures Blocked(r, ps[i]) || IsDir(r, ps[i]) {
      BlockedSameFiles(t, r, ps[i]);
    }
    MkDirsAllSettled(r, ps);
  }

  /** createAndroidStructure(base, appName, pkg). */
  function CreateAndroidStructure(t: Tree, base: Path, pkg: string): (r: Tree)
    requires WellFormed(t)
    ensures WellFormed(r) && Grows(t, r)
  {
    MkDirsAll(t, Below(base, ScaffoldDirs(pkg)))
  }

  /** The twelve project directories exist afterwards, with every directory
      above them, except those a regular file blocks; no regular file
      changes; a second run changes nothing; and the package source directory
      the organiser copies into is the first of the twelve. */
  lemma AndroidStructureCreated(t: Tree, base: Path, pkg: string)
    requires WellFormed(t)
    ensures var r := CreateAndroidStructure(t, base, pkg);
            && (forall d | d in ScaffoldDirs(pkg) :: IsDir(r, base + d) <==> !Blocked(t, base + d))
            && (forall d, k | d in ScaffoldDirs(pkg) && 0 <= k <= |base + d| && !Blocked(t, base + d) :: IsDir(r, (base + d)[..k]))
            && Files(r) == Files(t)
            && CreateAndroidStructure(r, base, pkg) == r
            && Below(base, ScaffoldDirs(pkg))[0] == base + SourceDir(pkg)
  {
    var ps := Below(base, ScaffoldDirs(pkg));
    MkDirsAllMakes(t, ps);
    MkDirsAllKeepsFiles(t, ps);
    MkDirsAllIdempotent(t, ps);
    forall d | d in ScaffoldDirs(pkg) ensures base + d in ps {
      var i :| 0 <= i < |ScaffoldDirs(pkg)| && ScaffoldDirs(pkg)[i] == d;
      assert ps[i] == base + d;
    }
  }
}
