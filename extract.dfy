/** ProjectSetupTask.extractZip: the entries of the downloaded archive are
    applied in archive order below the project directory. A directory entry
    runs mkdirs; a file entry creates its parent directories and overwrites
    the file with the entry's bytes. Entry names are used verbatim. */
module Extraction {
  import opened Text
  import opened FileSystem

  /** One decoded archive entry: its name as stored and, for a file, its bytes. */
  datatype ZipEntry = ZipEntry(name: string, data: Bytes)

  /** What ZipInputStream yields for the downloaded bytes: the entries it reads
      in order and, if the stream is damaged after them, the ZipException's message. */
  datatype Archive = Archive(entries: seq<ZipEntry>, failure: Option<string>)

  /** ZipEntry.isDirectory(): the name ends with '/'. */
  predicate IsDirectoryEntry(e: ZipEntry) { EndsWith(e.name, "/") }

  /** new File(targetDir, entry.getName()). */
  function EntryPath(target: Path, e: ZipEntry): (r: Path)
    ensures PrefixOf(target, r)
    ensures forall i | |target| <= i < |r| :: IsName(r[i])
  {
    target + Segments(e.name)
  }

  /** es[i] is a file entry whose path is p. */
  predicate WritesTo(target: Path, es: seq<ZipEntry>, i: nat, p: Path)
    requires i < |es|
  {
    !IsDirectoryEntry(es[i]) && EntryPath(target, es[i]) == p
  }

  /** The bytes the last file entry naming p carries, if any entry names p:
      the data of a file entry naming p after which no file entry names p. */
  function LastWrite(target: Path, es: seq<ZipEntry>, p: Path): (r: Option<Bytes>)
    ensures r.Some? <==> exists i | 0 <= i < |es| :: WritesTo(target, es, i, p)
    ensures r.Some? ==> exists i | 0 <= i < |es| ::
              WritesTo(target, es, i, p) && r.value == es[i].data &&
              forall j | i < j < |es| :: !WritesTo(target, es, j, p)
    decreases |es|
  {
    if es == [] then None
    else
      var rest := LastWrite(target, es[1..], p);
      assert forall i | 1 <= i < |es| :: es[i] == es[1..][i - 1];
      assert forall i | 1 <= i < |es| :: WritesTo(target, es, i, p) == WritesTo(target, es[1..], i - 1, p);
      assert rest.Some? ==> exists i | 0 <= i < |es| ::
               WritesTo(target, es, i, p) && rest.value == es[i].data &&
               forall j | i < j < |es| :: !WritesTo(target, es, j, p) by {
        if rest.Some? {
          var j :| 0 <= j < |es[1..]| && WritesTo(target, es[1..], j, p) && rest.value == es[1..][j].data &&
                   forall k | j < k < |es[1..]| :: !WritesTo(target, es[1..], k, p);
          assert WritesTo(target, es, j + 1, p);
        }
      }
      if rest.Some? then rest
      else if WritesTo(target, es, 0, p) then Some(es[0].data)
      else None
  }

  /** One iteration of the entry loop. */
  function ApplyEntry(t: Tree, target: Path, e: ZipEntry): (r: Effect)
    requires WellFormed(t)
    ensures WellFormed(r.tree) && Grows(t, r.tree)
    ensures IsDirectoryEntry(e) ==> r.error == None
    ensures IsDirectoryEntry(e) && !Blocked(t, EntryPath(target, e)) ==> IsDir(r.tree, EntryPath(target, e))
    ensures !IsDirectoryEntry(e) ==> r.error == if Writable(t, EntryPath(target, e)) then None else Some(CreateError(t, EntryPath(target, e)))
    ensures !IsDirectoryEntry(e) && r.error == None ==> EntryPath(target, e) in r.tree && r.tree[EntryPath(target, e)] == File(e.data)
    ensures forall q | q in t && (IsDirectoryEntry(e) || q != EntryPath(target, e)) :: r.tree[q] == t[q]
    ensures forall q | q in r.tree && q !in t :: PrefixOf(q, EntryPath(target, e))
    ensures forall q | IsFile(r.tree, q) :: IsFile(t, q) || (!IsDirectoryEntry(e) && q == EntryPath(target, e))
  {
    var p := EntryPath(target, e);
    if IsDirectoryEntry(e) then
      var r := MkDirs(t, p);
      Effect(r, None)
    else WriteBytes(t, p, e.data)
  }

  /** The entry loop: entries in order, stopping at the first that throws. */
  function ExtractEntries(t: Tree, target: Path, es: seq<ZipEntry>): (r: Effect)
    requires WellFormed(t)
    ensures WellFormed(r.tree) && Grows(t, r.tree)
    ensures forall q | q in t && LastWrite(target, es, q).None? :: r.tree[q] == t[q]
    ensures forall q | q in r.tree && q !in t :: exists i | 0 <= i < |es| :: PrefixOf(q, EntryPath(target, es[i]))
    ensures forall q | IsFile(r.tree, q) :: IsFile(t, q) || LastWrite(target, es, q).Some?
    decreases |es|
  {
    if es == [] then Effect(t, None)
    else
      var a := ApplyEntry(t, target, es[0]);
      if a.error.Some? then
        assert forall q | q in a.tree && q !in t :: PrefixOf(q, EntryPath(target, es[0]));
        a
      else
        var b := ExtractEntries(a.tree, target, es[1..]);
        EntriesStep(t, a.tree, b.tree, target, es);
        b
  }

  /** Entry i of the loop, then the entries after it unless it threw. */
  lemma EntriesAt(t: Tree, target: Path, es: seq<ZipEntry>, i: nat)
    requires WellFormed(t) && i < |es|
    ensures var a := ApplyEntry(t, target, es[i]);
            ExtractEntries(t, target, es[i..]) == if a.error.Some? then a else ExtractEntries(a.tree, target, es[i + 1..])
  {
    assert es[i..][0] == es[i] && es[i..][1..] == es[i + 1..];
  }

  /** The entry loop's step: the first entry, then the rest. */
  lemma EntriesStep(t: Tree, a: Tree, b: Tree, target: Path, es: seq<ZipEntry>)
    requires es != [] && Grows(t, a) && Grows(a, b)
    requires forall q | q in t && (IsDirectoryEntry(es[0]) || q != EntryPath(target, es[0])) :: a[q] == t[q]
    requires forall q | q in a && q !in t :: PrefixOf(q, EntryPath(target, es[0]))
    requires forall q | IsFile(a, q) :: IsFile(t, q) || (!IsDirectoryEntry(es[0]) && q == EntryPath(target, es[0]))
    requires forall q | q in a && LastWrite(target, es[1..], q).None? :: b[q] == a[q]
    requires forall q | q in b && q !in a :: exists i | 0 <= i < |es[1..]| :: PrefixOf(q, EntryPath(target, es[1..][i]))
    requires forall q | IsFile(b, q) :: IsFile(a, q) || LastWrite(target, es[1..], q).Some?
    ensures forall q | q in t && LastWrite(target, es, q).None? :: b[q] == t[q]
    ensures forall q | q in b && q !in t :: exists i | 0 <= i < |es| :: PrefixOf(q, EntryPath(target, es[i]))
    ensures forall q | IsFile(b, q) :: IsFile(t, q) || LastWrite(target, es, q).Some?
  {
    forall q | q in t && LastWrite(target, es, q).None? ensures b[q] == t[q] {
      LastWriteRest(target, es, q);
    }
    forall q | q in b && q !in t ensures exists i | 0 <= i < |es| :: PrefixOf(q, EntryPath(target, es[i])) {
      if q in a {
        assert PrefixOf(q, EntryPath(target, es[0]));
      } else {
        var j :| 0 <= j < |es[1..]| && PrefixOf(q, EntryPath(target, es[1..][j]));
        assert es[j + 1] == es[1..][j];
      }
    }
    forall q | IsFile(b, q) ensures IsFile(t, q) || LastWrite(target, es, q).Some? {
    }
  }

  /** extractZip(zipFile, targetDir): mkdirs on the target, read the archive,
      apply its entries; a damaged stream throws once the entries before the
      damage are applied. */
  function Extract(t: Tree, zip: Path, target: Path, unzip: Bytes -> Archive): (r: Effect)
    requires WellFormed(t)
    ensures WellFormed(r.tree) && Grows(t, r.tree)
    ensures !Blocked(t, target) ==> IsDir(r.tree, target)
    ensures !IsFile(t, zip) ==> r == Effect(MkDirs(t, target), Some(OpenError(MkDirs(t, target), zip)))
  {
    var t1 := MkDirs(t, target);
    assert IsFile(t1, zip) <==> IsFile(t, zip);
    match Read(t1, zip)
    case Err(e) => Effect(t1, Some(e))
    case Ok(bytes) =>
      var archive := unzip(bytes);
      var x := ExtractEntries(t1, target, archive.entries);
      if x.error.None? && archive.failure.Some? then Effect(x.tree, Some(Corrupt(archive.failure.value)))
      else x
  }

  lemma LastWriteRest(target: Path, es: seq<ZipEntry>, p: Path)
    requires es != [] && LastWrite(target, es, p).None?
    ensures LastWrite(target, es[1..], p).None?
    ensures IsDirectoryEntry(es[0]) || EntryPath(target, es[0]) != p
  {
  }

  /** A later entry with the same name wins: after a run that threw nothing,
      each path a file entry names holds the bytes of the last such entry. */
  lemma {:induction false} ExtractLastWins(t: Tree, target: Path, es: seq<ZipEntry>, p: Path)
    requires WellFormed(t)
    requires ExtractEntries(t, target, es).error == None
    requires LastWrite(target, es, p).Some?
    ensures p in ExtractEntries(t, target, es).tree
    ensures ExtractEntries(t, target, es).tree[p] == File(LastWrite(target, es, p).value)
    decreases |es|
  {
    var a := ApplyEntry(t, target, es[0]);
    assert a.error == None;
    if LastWrite(target, es[1..], p).Some? {
      ExtractLastWins(a.tree, target, es[1..], p);
    } else {
      assert EntryPath(target, es[0]) == p && !IsDirectoryEntry(es[0]);
    }
  }

  /** Nothing already on disk and no file entry stands where a directory entry
      (or a directory above it) has to go. */
  ghost predicate Unobstructed(t: Tree, target: Path, es: seq<ZipEntry>)
  {
    forall i | 0 <= i < |es| && IsDirectoryEntry(es[i]) :: Clear(t, target, es, EntryPath(target, es[i]))
  }

  ghost predicate Clear(t: Tree, target: Path, es: seq<ZipEntry>, p: Path)
  {
    !Blocked(t, p) && forall k | 0 <= k <= |p| :: LastWrite(target, es, p[..k]).None?
  }

  /** One entry leaves a path that was clear for the whole archive clear for the rest. */
  lemma ClearAfterEntry(t: Tree, target: Path, es: seq<ZipEntry>, p: Path)
    requires WellFormed(t) && es != [] && Clear(t, target, es, p)
    ensures Clear(ApplyEntry(t, target, es[0]).tree, target, es[1..], p)
  {
    var a := ApplyEntry(t, target, es[0]).tree;
    forall k | 0 <= k <= |p| ensures !IsFile(a, p[..k]) && LastWrite(target, es[1..], p[..k]).None? {
      LastWriteRest(target, es, p[..k]);
    }
  }

  lemma UnobstructedAfterEntry(t: Tree, target: Path, es: seq<ZipEntry>)
    requires WellFormed(t) && es != [] && Unobstructed(t, target, es)
    ensures Unobstructed(ApplyEntry(t, target, es[0]).tree, target, es[1..])
  {
    forall i | 0 <= i < |es[1..]| && IsDirectoryEntry(es[1..][i])
      ensures Clear(ApplyEntry(t, target, es[0]).tree, target, es[1..], EntryPath(target, es[1..][i]))
    {
      assert es[1..][i] == es[i + 1];
      ClearAfterEntry(t, target, es, EntryPath(target, es[i + 1]));
    }
  }

  /** With nothing in the way, every directory entry is a directory after a
      run that threw nothing. */
  lemma {:induction false} ExtractMakesDirectories(t: Tree, target: Path, es: seq<ZipEntry>)
    requires WellFormed(t) && Unobstructed(t, target, es)
    requires ExtractEntries(t, target, es).error == None
    ensures forall i | 0 <= i < |es| && IsDirectoryEntry(es[i]) :: IsDir(ExtractEntries(t, target, es).tree, EntryPath(target, es[i]))
    decreases |es|
  {
    if es != [] {
      var a := ApplyEntry(t, target, es[0]);
      var r := ExtractEntries(a.tree, target, es[1..]);
      UnobstructedAfterEntry(t, target, es);
      ExtractMakesDirectories(a.tree, target, es[1..]);
      forall i | 0 <= i < |es| && IsDirectoryEntry(es[i]) ensures IsDir(r.tree, EntryPath(target, es[i])) {
        if i == 0 {
          assert Clear(t, target, es, EntryPath(target, es[0]));
        } else {
          assert es[1..][i - 1] == es[i];
        }
      }
    }
  }

  /** On a readable archive the run is the entry loop over the decoded
      entries, below the directory mkdirs made, followed by the stream's error. */
  lemma ExtractReadable(t: Tree, zip: Path, target: Path, unzip: Bytes -> Archive)
    requires WellFormed(t) && IsFile(t, zip)
    ensures var x := ExtractEntries(MkDirs(t, target), target, unzip(t[zip].content).entries);
            var f := unzip(t[zip].content).failure;
            Extract(t, zip, target, unzip) == if x.error.None? && f.Some? then Effect(x.tree, Some(Corrupt(f.value))) else x
  {
    assert MkDirs(t, target)[zip] == t[zip];
  }

  /** The target becomes a directory, and paths no file entry names keep
      what they held. */
  lemma ExtractKeeps(t: Tree, zip: Path, target: Path, unzip: Bytes -> Archive)
    requires WellFormed(t) && IsFile(t, zip) && !Blocked(t, target)
    ensures var r := Extract(t, zip, target, unzip);
            var es := unzip(t[zip].content).entries;
            && IsDir(r.tree, target)
            && (forall q | q in t && LastWrite(target, es, q).None? :: q in r.tree && r.tree[q] == t[q])
  {
    var t1 := MkDirs(t, target);
    var es := unzip(t[zip].content).entries;
    ExtractReadable(t, zip, target, unzip);
    forall q | q in t && LastWrite(target, es, q).None? ensures q in t1 && t1[q] == t[q] {
    }
  }

  /** A run that threw nothing read an undamaged archive, and every path a
      file entry names holds the last such entry's bytes. */
  lemma ExtractClean(t: Tree, zip: Path, target: Path, unzip: Bytes -> Archive)
    requires WellFormed(t) && IsFile(t, zip) && Extract(t, zip, target, unzip).error == None
    ensures var r := Extract(t, zip, target, unzip);
            var es := unzip(t[zip].content).entries;
            && unzip(t[zip].content).failure == None
            && forall p | LastWrite(target, es, p).Some? :: p in r.tree && r.tree[p] == File(LastWrite(target, es, p).value)
  {
    var es := unzip(t[zip].content).entries;
    ExtractReadable(t, zip, target, unzip);
    forall p | LastWrite(target, es, p).Some?
      ensures p in ExtractEntries(MkDirs(t, target), target, es).tree
      ensures ExtractEntries(MkDirs(t, target), target, es).tree[p] == File(LastWrite(target, es, p).value)
    {
      ExtractLastWins(MkDirs(t, target), target, es, p);
    }
  }

  /** mkdirs on the target keeps a path clear for the archive. */
  lemma ClearAfterTarget(t: Tree, target: Path, es: seq<ZipEntry>, p: Path)
    requires WellFormed(t) && Clear(t, target, es, p)
    ensures Clear(MkDirs(t, target), target, es, p)
  {
    BlockedSameFiles(t, MkDirs(t, target), p);
  }

  /** A run that threw nothing, with nothing in the way, leaves every
      directory entry a directory. */
  lemma ExtractDirectories(t: Tree, zip: Path, target: Path, unzip: Bytes -> Archive)
    requires WellFormed(t) && IsFile(t, zip) && Extract(t, zip, target, unzip).error == None
    requires Unobstructed(t, target, unzip(t[zip].content).entries)
    ensures var es := unzip(t[zip].content).entries;
            forall i | 0 <= i < |es| && IsDirectoryEntry(es[i]) :: IsDir(Extract(t, zip, target, unzip).tree, EntryPath(target, es[i]))
  {
    var t1 := MkDirs(t, target);
    var es := unzip(t[zip].content).entries;
    ExtractReadable(t, zip, target, unzip);
    forall i | 0 <= i < |es| && IsDirectoryEntry(es[i]) ensures Clear(t1, target, es, EntryPath(target, es[i])) {
      ClearAfterTarget(t, target, es, EntryPath(target, es[i]));
    }
    ExtractMakesDirectories(t1, target, es);
  }

  /** extractZip on a readable archive, stated as a whole: the target is a
      directory, a clean run means the archive had no damage, every path a
      file entry names holds the last such entry's bytes, every directory
      entry is a directory when nothing stood in the way, and a path no file
      entry names keeps what it held. */
  lemma ExtractArchive(t: Tree, zip: Path, target: Path, unzip: Bytes -> Archive)
    requires WellFormed(t) && IsFile(t, zip) && !Blocked(t, target)
    ensures var r := Extract(t, zip, target, unzip);
            var es := unzip(t[zip].content).entries;
            && IsDir(r.tree, target)
            && (forall q | q in t && LastWrite(target, es, q).None? :: q in r.tree && r.tree[q] == t[q])
            && (r.error == None ==> unzip(t[zip].content).failure == None)
            && (r.error == None ==> forall p | LastWrite(target, es, p).Some? :: p in r.tree && r.tree[p] == File(LastWrite(target, es, p).value))
            && (r.error == None && Unobstructed(t, target, es) ==>
                  forall i | 0 <= i < |es| && IsDirectoryEntry(es[i]) :: IsDir(r.tree, EntryPath(target, es[i])))
  {
    ExtractKeeps(t, zip, target, unzip);
    if Extract(t, zip, target, unzip).error == None {
      ExtractClean(t, zip, target, unzip);
      if Unobstructed(t, target, unzip(t[zip].content).entries) {
        ExtractDirectories(t, zip, target, unzip);
      }
    }
  }
}
