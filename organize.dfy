/** ProjectSetupTask.organizeSourceFiles and moveJavaFiles: a depth-first walk
    from the project directory that copies every regular file whose name ends
    in ".java" into the package source directory under its bare name. The walk
    reads the live tree, so it also enters the destination directory and may
    find the copies it made there; copying such a file onto itself truncates
    it. A copy that throws is reported and the walk goes on. */
module Organizer {
  import opened Text
  import opened FileSystem
  import opened Layout

  /** The order File.listFiles() returns a directory's children in: the
      directory and the names present give the names in listed order. */
  type Lister = (Path, set<string>) -> seq<string>

  predicate IsJavaName(n: string) { EndsWith(n, ".java") }

  /** One call of copyFile(from, to): the bytes it left in `to`, or None when
      it threw. */
  datatype Copy = Copy(from: Path, to: Path, written: Option<Bytes>)

  /** The tree after a walk, and its copies in the order they ran. */
  datatype Walk = Walk(tree: Tree, log: seq<Copy>)

  /** The names of the entries directly inside p. */
  function Children(t: Tree, p: Path): (r: set<string>)
    ensures forall n :: n in r <==> p + [n] in t
  {
    var r := set q | q in t && |q| == |p| + 1 && q[..|p|] == p :: q[|p|];
    assert forall n | p + [n] in t :: (p + [n])[..|p|] == p && (p + [n])[|p|] == n;
    assert forall q | q in t && |q| == |p| + 1 && q[..|p|] == p :: q == p + [q[|p|]];
    r
  }

  /** q lies strictly below p. */
  predicate Under(p: Path, q: Path) { |p| < |q| && q[..|p|] == p }

  /** The directories strictly below p: the walk's measure. */
  function DirsBelow(t: Tree, p: Path): set<Path>
  {
    set q | q in t && t[q].Directory? && Under(p, q)
  }

  /** A direct subdirectory has fewer directories below it. */
  lemma DirsBelowShrinks(t: Tree, p: Path, n: string)
    requires IsDir(t, p + [n])
    ensures DirsBelow(t, p + [n]) < DirsBelow(t, p)
  {
    var c := p + [n];
    forall q | q in DirsBelow(t, c) ensures q in DirsBelow(t, p) {
      assert q[..|p|] == q[..|c|][..|p|];
    }
    assert c[..|p|] == p;
    assert c in DirsBelow(t, p) && c !in DirsBelow(t, c);
  }

  /** A copied path: a ".java" name directly inside dest. */
  predicate InDest(dest: Path, q: Path)
  {
    q != [] && Parent(q) == dest && IsJavaName(Last(q))
  }

  /** What the walk may do to t: no directory appears or disappears, no node
      disappears, and the only nodes that are new or changed are regular
      files with a ".java" name directly inside dest. */
  ghost predicate Kept(t: Tree, r: Tree, dest: Path)
  {
    && WellFormed(r)
    && Grows(t, r)
    && (forall q | q in r && q !in t :: r[q].File?)
    && (forall q | q in r && (q !in t || r[q] != t[q]) :: InDest(dest, q))
  }

  lemma KeptTransitive(t: Tree, u: Tree, r: Tree, dest: Path)
    requires Kept(t, u, dest) && Kept(u, r, dest)
    ensures Kept(t, r, dest)
  {
  }

  lemma DirsBelowKept(t: Tree, r: Tree, p: Path, dest: Path)
    requires Kept(t, r, dest)
    ensures DirsBelow(r, p) == DirsBelow(t, p)
  {
  }

  /** copyFile(from, to): open `from` for reading, then open `to` for writing,
      which truncates it, then copy what is left to read. When `from` and `to`
      are the same file nothing is left, so the file ends up empty. */
  function CopyFile(t: Tree, from: Path, to: Path): (r: Result<Tree>)
    requires WellFormed(t)
    ensures r.Ok? <==> IsFile(t, from) && CanCreate(t, to)
    ensures r.Ok? ==> WellFormed(r.value) && r.value == t[to := File(if from == to then [] else t[from].content)]
    ensures r.Err? ==> r.error == if IsFile(t, from) then CreateError(t, to) else OpenError(t, from)
  {
    match Read(t, from)
    case Err(e) => Err(e)
    case Ok(data) => Create(t, to, if from == to then [] else data)
  }

  /** moveJavaFiles(src, dest). */
  function WalkDir(t: Tree, src: Path, dest: Path, lister: Lister): (r: Walk)
    requires WellFormed(t)
    ensures Kept(t, r.tree, dest)
    decreases DirsBelow(t, src), 2, 0
  {
    if IsDir(t, src) then WalkChildren(t, src, dest, lister, lister(src, Children(t, src)))
    else Walk(t, [])
  }

  /** The for loop of moveJavaFiles over the listed names. */
  function WalkChildren(t: Tree, src: Path, dest: Path, lister: Lister, names: seq<string>): (r: Walk)
    requires WellFormed(t)
    ensures Kept(t, r.tree, dest)
    decreases DirsBelow(t, src), 1, |names|
  {
    if names == [] then Walk(t, [])
    else
      var a := Visit(t, src, dest, lister, names[0]);
      DirsBelowKept(t, a.tree, src, dest);
      var b := WalkChildren(a.tree, src, dest, lister, names[1..]);
      KeptTransitive(t, a.tree, b.tree, dest);
      Walk(b.tree, a.log + b.log)
  }

  /** One iteration: a directory is walked, a ".java" file is copied into
      dest under its name, anything else is passed over. */
  function Visit(t: Tree, src: Path, dest: Path, lister: Lister, n: string): (r: Walk)
    requires WellFormed(t)
    ensures Kept(t, r.tree, dest)
    decreases DirsBelow(t, src), 0, 0
  {
    var c := src + [n];
    if IsDir(t, c) then
      DirsBelowShrinks(t, src, n);
      WalkDir(t, c, dest, lister)
    else if IsJavaName(n) then
      var to := dest + [n];
      assert Parent(to) == dest && Last(to) == n;
      match CopyFile(t, c, to)
      case Ok(u) => Walk(u, [Copy(c, to, Some(if c == to then [] else t[c].content))])
      case Err(_) => Walk(t, [Copy(c, to, None)])
    else Walk(t, [])
  }

  /** organizeSourceFiles(base, pkg): moveJavaFiles(base, the package directory). */
  function Organize(t: Tree, base: Path, pkg: string, lister: Lister): (r: Walk)
    requires WellFormed(t)
    ensures Kept(t, r.tree, base + SourceDir(pkg))
  {
    WalkDir(t, base, base + SourceDir(pkg), lister)
  }

  // ------------------------------------------------------------ the log

  /** The bytes the last successful copy into q left there, if any. */
  function LastWritten(log: seq<Copy>, q: Path): Option<Bytes>
    decreases |log|
  {
    if log == [] then None
    else
      var e := log[|log| - 1];
      if e.to == q && e.written.Some? then e.written
      else LastWritten(log[..|log| - 1], q)
  }

  lemma {:induction false} LastWrittenConcat(a: seq<Copy>, b: seq<Copy>, q: Path)
    ensures LastWritten(a + b, q) == if LastWritten(b, q).Some? then LastWritten(b, q) else LastWritten(a, q)
    decreases |b|
  {
    if b == [] {
      assert a + b == a;
    } else {
      assert (a + b)[..|a + b| - 1] == a + b[..|b| - 1];
      LastWrittenConcat(a, b[..|b| - 1], q);
    }
  }

  /** A copy as t determines it: it goes to dest under the source's name;
      from outside dest it writes the source's bytes exactly when the source
      is a regular file and the target can be opened; within dest it is a
      copy onto itself and leaves nothing or an empty file. */
  ghost predicate Faithful(t: Tree, dest: Path, e: Copy)
  {
    && e.from != []
    && IsJavaName(Last(e.from))
    && e.to == dest + [Last(e.from)]
    && (Parent(e.from) != dest ==>
          e.written == if IsFile(t, e.from) && CanCreate(t, e.to) then Some(t[e.from].content) else None)
    && (Parent(e.from) == dest ==> e.from == e.to && (e.written == None || e.written == Some([])))
  }

  /** Every copy in the log reads from below src and is faithful to t. */
  ghost predicate Sound(t: Tree, src: Path, dest: Path, log: seq<Copy>)
  {
    forall i | 0 <= i < |log| :: Under(src, log[i].from) && Faithful(t, dest, log[i])
  }

  /** r is t with each path replaced by what the last successful copy into it
      wrote, and nothing else changed. */
  ghost predicate Settled(t: Tree, r: Tree, log: seq<Copy>)
  {
    && (forall q | LastWritten(log, q).Some? :: q in r && r[q] == File(LastWritten(log, q).value))
    && (forall q | LastWritten(log, q).None? :: (q in r <==> q in t) && (q in t ==> r[q] == t[q]))
  }

  /** A copy faithful to a later tree of the walk is faithful to the tree it started from. */
  lemma FaithfulTransfer(t: Tree, u: Tree, dest: Path, e: Copy)
    requires Kept(t, u, dest) && Faithful(u, dest, e)
    ensures Faithful(t, dest, e)
  {
    if Parent(e.from) != dest {
      assert !InDest(dest, e.from);
      assert IsFile(u, e.from) <==> IsFile(t, e.from);
      assert IsDir(u, e.to) <==> IsDir(t, e.to);
      assert IsDir(u, Parent(e.to)) <==> IsDir(t, Parent(e.to));
    }
  }

  lemma SoundTransfer(t: Tree, u: Tree, src: Path, dest: Path, log: seq<Copy>)
    requires Kept(t, u, dest) && Sound(u, src, dest, log)
    ensures Sound(t, src, dest, log)
  {
    forall i | 0 <= i < |log| ensures Faithful(t, dest, log[i]) {
      FaithfulTransfer(t, u, dest, log[i]);
    }
  }

  lemma SoundConcat(t: Tree, src: Path, dest: Path, a: seq<Copy>, b: seq<Copy>)
    requires Sound(t, src, dest, a) && Sound(t, src, dest, b)
    ensures Sound(t, src, dest, a + b)
  {
    forall i | 0 <= i < |a + b| ensures Under(src, (a + b)[i].from) && Faithful(t, dest, (a + b)[i]) {
      if i >= |a| {
        assert (a + b)[i] == b[i - |a|];
      }
    }
  }

  lemma SettledConcat(t: Tree, u: Tree, r: Tree, a: seq<Copy>, b: seq<Copy>)
    requires Settled(t, u, a) && Settled(u, r, b)
    ensures Settled(t, r, a + b)
  {
    forall q | LastWritten(a + b, q).Some? ensures q in r && r[q] == File(LastWritten(a + b, q).value) {
      LastWrittenConcat(a, b, q);
    }
    forall q | LastWritten(a + b, q).None? ensures (q in r <==> q in t) && (q in t ==> r[q] == t[q]) {
      LastWrittenConcat(a, b, q);
    }
  }

  /** Under a subdirectory is under its parent. */
  lemma UnderChild(src: Path, n: string, q: Path)
    requires Under(src + [n], q)
    ensures Under(src, q)
  {
    assert q[..|src|] == q[..|src| + 1][..|src|];
  }

  /** The walk from src is sound, and its tree is t settled by its log. */
  lemma {:induction false} WalkDirSound(t: Tree, src: Path, dest: Path, lister: Lister)
    requires WellFormed(t)
    ensures var r := WalkDir(t, src, dest, lister);
            Sound(t, src, dest, r.log) && Settled(t, r.tree, r.log)
    decreases DirsBelow(t, src), 2, 0
  {
    if IsDir(t, src) {
      WalkChildrenSound(t, src, dest, lister, lister(src, Children(t, src)));
    }
  }

  lemma {:induction false} WalkChildrenSound(t: Tree, src: Path, dest: Path, lister: Lister, names: seq<string>)
    requires WellFormed(t)
    ensures var r := WalkChildren(t, src, dest, lister, names);
            Sound(t, src, dest, r.log) && Settled(t, r.tree, r.log)
    decreases DirsBelow(t, src), 1, |names|
  {
    if names != [] {
      var a := Visit(t, src, dest, lister, names[0]);
      DirsBelowKept(t, a.tree, src, dest);
      var b := WalkChildren(a.tree, src, dest, lister, names[1..]);
      VisitSound(t, src, dest, lister, names[0]);
      WalkChildrenSound(a.tree, src, dest, lister, names[1..]);
      SoundTransfer(t, a.tree, src, dest, b.log);
      SoundConcat(t, src, dest, a.log, b.log);
      SettledConcat(t, a.tree, b.tree, a.log, b.log);
    }
  }

  lemma {:induction false} VisitSound(t: Tree, src: Path, dest: Path, lister: Lister, n: string)
    requires WellFormed(t)
    ensures var r := Visit(t, src, dest, lister, n);
            Sound(t, src, dest, r.log) && Settled(t, r.tree, r.log)
    decreases DirsBelow(t, src), 0, 0
  {
    var c := src + [n];
    if IsDir(t, c) {
      DirsBelowShrinks(t, src, n);
      WalkDirSound(t, c, dest, lister);
      var log := WalkDir(t, c, dest, lister).log;
      forall i | 0 <= i < |log| ensures Under(src, log[i].from) {
        UnderChild(src, n, log[i].from);
      }
    } else if IsJavaName(n) {
      CopySound(t, src, dest, lister, n);
    }
  }

  /** A single copy is faithful, and settles the tree. */
  lemma CopySound(t: Tree, src: Path, dest: Path, lister: Lister, n: string)
    requires WellFormed(t) && !IsDir(t, src + [n]) && IsJavaName(n)
    ensures var r := Visit(t, src, dest, lister, n);
            Sound(t, src, dest, r.log) && Settled(t, r.tree, r.log)
  {
    var c := src + [n];
    var to := dest + [n];
    assert c[..|src|] == src;
    assert Parent(to) == dest && Last(to) == n && Parent(c) == src && Last(c) == n;
    var log := Visit(t, src, dest, lister, n).log;
    assert Faithful(t, dest, log[0]);
  }

  // ------------------------------------------------------- completeness

  /** File.listFiles() lists exactly the names present. */
  ghost predicate Enumerates(lister: Lister)
  {
    forall p, s, n :: n in lister(p, s) <==> n in s
  }

  /** Some copy of the log reads from q. */
  ghost predicate Copied(log: seq<Copy>, q: Path)
  {
    exists i | 0 <= i < |log| :: log[i].from == q
  }

  /** The log has a copy from every ".java" file of t below p. */
  ghost predicate Covers(t: Tree, log: seq<Copy>, p: Path)
  {
    forall q | IsFile(t, q) && Under(p, q) && IsJavaName(Last(q)) :: Copied(log, q)
  }

  /** A path the walk visits is covered when it is a ".java" file or a
      directory all of whose ".java" files are copied. */
  ghost predicate Handled(t: Tree, log: seq<Copy>, c: Path)
  {
    && (IsFile(t, c) && c != [] && IsJavaName(Last(c)) ==> Copied(log, c))
    && (IsDir(t, c) ==> Covers(t, log, c))
  }

  lemma CopiedConcat(a: seq<Copy>, b: seq<Copy>, q: Path)
    requires Copied(a, q) || Copied(b, q)
    ensures Copied(a + b, q)
  {
    if Copied(a, q) {
      var i :| 0 <= i < |a| && a[i].from == q;
      assert (a + b)[i] == a[i];
    } else {
      var i :| 0 <= i < |b| && b[i].from == q;
      assert (a + b)[|a| + i] == b[i];
    }
  }

  lemma HandledConcat(t: Tree, a: seq<Copy>, b: seq<Copy>, c: Path)
    requires Handled(t, a, c) || Handled(t, b, c)
    ensures Handled(t, a + b, c)
  {
    if IsFile(t, c) && c != [] && IsJavaName(Last(c)) {
      CopiedConcat(a, b, c);
    }
    if IsDir(t, c) {
      forall q | IsFile(t, q) && Under(c, q) && IsJavaName(Last(q)) ensures Copied(a + b, q) {
        CopiedConcat(a, b, q);
      }
    }
  }

  /** What a later tree of the walk handles, the earlier tree handles too. */
  lemma HandledTransfer(t: Tree, u: Tree, dest: Path, log: seq<Copy>, c: Path)
    requires Kept(t, u, dest) && Handled(u, log, c)
    ensures Handled(t, log, c)
  {
    assert IsDir(t, c) <==> IsDir(u, c);
    forall q | IsFile(t, q) ensures IsFile(u, q) {
    }
  }

  lemma {:induction false} WalkDirCovers(t: Tree, src: Path, dest: Path, lister: Lister)
    requires WellFormed(t) && Enumerates(lister)
    ensures Covers(t, WalkDir(t, src, dest, lister).log, src)
    decreases DirsBelow(t, src), 2, 0
  {
    if IsDir(t, src) {
      var names := lister(src, Children(t, src));
      var log := WalkDir(t, src, dest, lister).log;
      WalkChildrenCovers(t, src, dest, lister, names);
      forall q | IsFile(t, q) && Under(src, q) && IsJavaName(Last(q)) ensures Copied(log, q) {
        var c := q[..|src| + 1];
        assert c == src + [q[|src|]];
        assert IsDir(t, c) || c == q;
        assert c in t && |c| == |src| + 1 && c[..|src|] == src;
        assert q[|src|] in Children(t, src);
        assert q[|src|] in names;
        var i :| 0 <= i < |names| && names[i] == q[|src|];
        assert Handled(t, log, src + [names[i]]);
        if q != c {
          assert IsDir(t, c);
          assert q[..|c|] == c;
        }
      }
    }
  }

  lemma {:induction false} WalkChildrenCovers(t: Tree, src: Path, dest: Path, lister: Lister, names: seq<string>)
    requires WellFormed(t) && Enumerates(lister)
    ensures forall i | 0 <= i < |names| :: Handled(t, WalkChildren(t, src, dest, lister, names).log, src + [names[i]])
    decreases DirsBelow(t, src), 1, |names|
  {
    if names != [] {
      var a := Visit(t, src, dest, lister, names[0]);
      DirsBelowKept(t, a.tree, src, dest);
      var b := WalkChildren(a.tree, src, dest, lister, names[1..]);
      VisitCovers(t, src, dest, lister, names[0]);
      WalkChildrenCovers(a.tree, src, dest, lister, names[1..]);
      forall i | 0 <= i < |names| ensures Handled(t, a.log + b.log, src + [names[i]]) {
        if i == 0 {
          HandledConcat(t, a.log, b.log, src + [names[0]]);
        } else {
          assert names[1..][i - 1] == names[i];
          HandledTransfer(t, a.tree, dest, b.log, src + [names[i]]);
          HandledConcat(t, a.log, b.log, src + [names[i]]);
        }
      }
    }
  }

  lemma {:induction false} VisitCovers(t: Tree, src: Path, dest: Path, lister: Lister, n: string)
    requires WellFormed(t) && Enumerates(lister)
    ensures Handled(t, Visit(t, src, dest, lister, n).log, src + [n])
    decreases DirsBelow(t, src), 0, 0
  {
    var c := src + [n];
    if IsDir(t, c) {
      DirsBelowShrinks(t, src, n);
      WalkDirCovers(t, c, dest, lister);
    } else if IsFile(t, c) && IsJavaName(n) {
      assert Visit(t, src, dest, lister, n).log[0].from == c;
    }
  }

  /** organizeSourceFiles as a whole: only ".java" files directly inside the
      package directory are created or changed; each holds what the last
      successful copy into it wrote, and every other path keeps its node;
      every copy takes its source's bytes unless it is a copy onto itself;
      and when listFiles lists every entry, every ".java" file below the
      project directory is copied, whatever earlier copies threw. */
  lemma OrganizeCopies(t: Tree, base: Path, pkg: string, lister: Lister)
    requires WellFormed(t)
    ensures var dest := base + SourceDir(pkg);
            var r := Organize(t, base, pkg, lister);
            && Kept(t, r.tree, dest)
            && Settled(t, r.tree, r.log)
            && Sound(t, base, dest, r.log)
            && (Enumerates(lister) ==> Covers(t, r.log, base))
  {
    var dest := base + SourceDir(pkg);
    WalkDirSound(t, base, dest, lister);
    if Enumerates(lister) {
      WalkDirCovers(t, base, dest, lister);
    }
  }
}
