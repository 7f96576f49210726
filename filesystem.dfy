/** The device filesystem as java.io.File sees it: a finite map from a path (its
    name segments from the root) to a node, and the few operations the
    project generator uses (mkdirs, opening a file for writing, reading a whole
    file, delete), with the errors the platform reports. */
module FileSystem {
  import opened Text

  type Path = seq<string>

  datatype Node = Directory | File(content: Bytes)
  type Tree = map<Path, Node>

  datatype Option<T> = None | Some(value: T)

  /** The causes of the exceptions the steps can throw. */
  datatype IoError =
    | NoSuchFile(path: Path)      // ENOENT from open()
    | NotADirectory(path: Path)   // ENOTDIR: a file stands where a directory is needed
    | IsADirectory(path: Path)    // EISDIR: opening a directory as a file
    | Network(message: string)    // anything the URL connection throws
    | Corrupt(message: string)    // ZipException while reading the archive

  datatype Result<T> = Ok(value: T) | Err(error: IoError)

  /** What a step leaves behind: the tree, and the exception it threw, if any. */
  datatype Effect = Effect(tree: Tree, error: Option<IoError>)

  /** The absolute path string of p. */
  function PathString(p: Path): string
  {
    "/" + JoinWith(p, '/')
  }

  /** Throwable.getMessage() of the exception e. On Android, libcore's
      IoBridge.open reports a failed open() as the path, ": open failed: ",
      the errno's name and its description in parentheses. */
  function Message(e: IoError): string
  {
    match e
    case NoSuchFile(p) => PathString(p) + OpenFailed("ENOENT", "No such file or directory")
    case NotADirectory(p) => PathString(p) + OpenFailed("ENOTDIR", "Not a directory")
    case IsADirectory(p) => PathString(p) + OpenFailed("EISDIR", "Is a directory")
    case Network(m) => m
    case Corrupt(m) => m
  }

  function OpenFailed(errno: string, reason: string): string
  {
    ": open failed: " + errno + " (" + reason + ")"
  }

  predicate IsDir(t: Tree, p: Path) { p in t && t[p].Directory? }
  predicate IsFile(t: Tree, p: Path) { p in t && t[p].File? }

  /** File.getParentFile(), with the root as its own parent. */
  function Parent(p: Path): Path
  {
    if p == [] then [] else p[..|p| - 1]
  }

  function Last(p: Path): string
    requires p != []
  {
    p[|p| - 1]
  }

  /** A tree is a filesystem: the root is a directory and so is every proper
      prefix of a path that is present. */
  ghost predicate WellFormed(t: Tree)
  {
    && IsDir(t, [])
    && forall p, k | p in t && 0 <= k < |p| :: IsDir(t, p[..k])
  }

  /** Some prefix of p, p included, is a regular file: nothing can be created at p. */
  predicate Blocked(t: Tree, p: Path)
  {
    exists k | 0 <= k <= |p| :: IsFile(t, p[..k])
  }

  function Prefixes(p: Path): set<Path>
  {
    set k | 0 <= k <= |p| :: p[..k]
  }

  /** Every node keeps its kind, and none disappears. */
  ghost predicate Grows(t: Tree, r: Tree)
  {
    forall q | q in t :: q in r && (r[q].Directory? <==> t[q].Directory?)
  }

  /** The regular files of t. */
  function Files(t: Tree): map<Path, Bytes>
  {
    map q | q in t && t[q].File? :: t[q].content
  }

  lemma GrowsTransitive(t: Tree, u: Tree, r: Tree)
    requires Grows(t, u) && Grows(u, r)
    ensures Grows(t, r)
  {
  }

  /** In a filesystem nothing lies below a regular file. */
  lemma FileIsLeaf(t: Tree, f: Path, q: Path)
    requires WellFormed(t) && IsFile(t, f) && q in t
    ensures |f| < |q| ==> q[..|f|] != f
  {
    if |f| < |q| {
      assert IsDir(t, q[..|f|]);
    }
  }

  /** A present path is blocked only by itself being a regular file. */
  lemma BlockedPresent(t: Tree, p: Path)
    requires WellFormed(t) && p in t
    ensures Blocked(t, p) <==> IsFile(t, p)
  {
    forall k | 0 <= k < |p| ensures !IsFile(t, p[..k]) {
      assert IsDir(t, p[..k]);
    }
    assert p[..|p|] == p;
  }

  /** Blocking depends only on where the regular files are. */
  lemma BlockedSameFiles(t: Tree, u: Tree, p: Path)
    requires forall q | q <= p :: IsFile(t, q) <==> IsFile(u, q)
    ensures Blocked(t, p) <==> Blocked(u, p)
  {
    if Blocked(t, p) {
      var k :| 0 <= k <= |p| && IsFile(t, p[..k]);
      assert p[..k] <= p;
    }
    if Blocked(u, p) {
      var k :| 0 <= k <= |p| && IsFile(u, p[..k]);
      assert p[..k] <= p;
    }
  }

  /** File.mkdirs(): unless a regular file stands on the way, p and every
      directory above it exist afterwards; nothing that existed changes. */
  function MkDirs(t: Tree, p: Path): (r: Tree)
    requires WellFormed(t)
    ensures WellFormed(r)
    ensures Blocked(t, p) ==> r == t
    ensures !Blocked(t, p) ==> IsDir(r, p) && forall k | 0 <= k <= |p| :: IsDir(r, p[..k])
    ensures forall q | q in t :: q in r && r[q] == t[q]
    ensures forall q | q in r && q !in t :: |q| <= |p| && q == p[..|q|] && !Blocked(t, p)
  {
    if Blocked(t, p) then t
    else
      var r := t + map q | q in Prefixes(p) :: Directory;
      assert forall k | 0 <= k <= |p| :: p[..k] in Prefixes(p);
      assert p[..|p|] == p;
      assert forall q | q in Prefixes(p) :: |q| <= |p| && q == p[..|q|];
      assert forall q | q in t && q in Prefixes(p) :: t[q] == Directory by {
        forall q | q in t && q in Prefixes(p) ensures t[q] == Directory {
          var k :| 0 <= k <= |p| && q == p[..k];
          assert !IsFile(t, p[..k]);
        }
      }
      assert forall q, k | q in r && 0 <= k < |q| :: IsDir(r, q[..k]) by {
        forall q, k | q in r && 0 <= k < |q| ensures IsDir(r, q[..k]) {
          if q in Prefixes(p) {
            var j :| 0 <= j <= |p| && q == p[..j];
            assert q[..k] == p[..k];
          }
        }
      }
      r
  }

  /** mkdirs on a path that is already a directory, or that a file blocks, changes nothing. */
  lemma MkDirsNoChange(t: Tree, p: Path)
    requires WellFormed(t)
    requires Blocked(t, p) || IsDir(t, p)
    ensures MkDirs(t, p) == t
  {
    if !Blocked(t, p) {
      var r := MkDirs(t, p);
      forall q | q in r ensures q in t {
        if |q| < |p| {
          assert IsDir(t, p[..|q|]);
        }
        assert p[..|p|] == p;
      }
      assert r.Keys == t.Keys;
    }
  }

  /** Whether `new FileOutputStream(p)` can open p: it creates a missing file
      in an existing directory, or truncates an existing regular file. */
  predicate CanCreate(t: Tree, p: Path)
  {
    p != [] && !IsDir(t, p) && IsDir(t, Parent(p))
  }

  /** The FileNotFoundException `new FileOutputStream(p)` throws. */
  function CreateError(t: Tree, p: Path): (r: IoError)
    ensures (r.NoSuchFile? || r.NotADirectory? || r.IsADirectory?) && r.path == p
    ensures r.IsADirectory? <==> IsDir(t, p)
    ensures r.NotADirectory? <==> !IsDir(t, p) && Blocked(t, Parent(p))
  {
    if IsDir(t, p) then IsADirectory(p)
    else if Blocked(t, Parent(p)) then NotADirectory(p)
    else NoSuchFile(p)
  }

  /** Opening p with FileOutputStream and writing `data` to it, then closing it. */
  function Create(t: Tree, p: Path, data: Bytes): (r: Result<Tree>)
    requires WellFormed(t)
    ensures r.Ok? <==> CanCreate(t, p)
    ensures r.Ok? ==> WellFormed(r.value) && r.value == t[p := File(data)] && Grows(t, r.value)
    ensures r.Err? ==> r.error == CreateError(t, p)
  {
    if CanCreate(t, p) then
      var r := t[p := File(data)];
      assert forall q, k | q in r && 0 <= k < |q| :: IsDir(r, q[..k]) by {
        forall q, k | q in r && 0 <= k < |q| ensures IsDir(r, q[..k]) {
          if q == p {
            assert p[..k] == Parent(p)[..k];
            if k < |Parent(p)| {
              assert IsDir(t, Parent(p)[..k]);
            } else {
              assert p[..k] == Parent(p);
            }
          } else {
            assert q in t && IsDir(t, q[..k]);
          }
        }
      }
      Ok(r)
    else Err(CreateError(t, p))
  }

  /** q is p or a directory above it. */
  predicate PrefixOf(q: Path, p: Path)
  {
    |q| <= |p| && q == p[..|q|]
  }

  /** Whether creating the parents of p and then opening p for writing succeeds. */
  predicate Writable(t: Tree, p: Path)
  {
    p != [] && !IsDir(t, p) && !Blocked(t, Parent(p))
  }

  /** `p.getParentFile().mkdirs()` followed by writing `data` through a new
      FileOutputStream: the parents appear, then p holds exactly `data`
      whatever it held before. When the open fails, the directories made
      stay and the exception is the one opening p in t would throw. */
  function WriteBytes(t: Tree, p: Path, data: Bytes): (r: Effect)
    requires WellFormed(t)
    ensures WellFormed(r.tree) && Grows(t, r.tree)
    ensures r.error == if Writable(t, p) then None else Some(CreateError(t, p))
    ensures r.error == None ==> p in r.tree && r.tree[p] == File(data)
    ensures forall q | q in t && q != p :: q in r.tree && r.tree[q] == t[q]
    ensures forall q | q in r.tree && q !in t :: PrefixOf(q, p)
    ensures forall q | IsFile(r.tree, q) :: IsFile(t, q) || q == p
  {
    var t1 := MkDirs(t, Parent(p));
    MkParentsThenCreate(t, p);
    match Create(t1, p, data)
    case Ok(r) => Effect(r, None)
    case Err(e) => Effect(t1, Some(e))
  }

  /** Making the parents of p decides the open exactly as p's own ancestors in t do. */
  lemma MkParentsThenCreate(t: Tree, p: Path)
    requires WellFormed(t)
    ensures forall q | q in MkDirs(t, Parent(p)) && q !in t :: PrefixOf(q, p)
    ensures CanCreate(MkDirs(t, Parent(p)), p) <==> Writable(t, p)
    ensures CreateError(MkDirs(t, Parent(p)), p) == CreateError(t, p)
  {
    var t1 := MkDirs(t, Parent(p));
    if p != [] {
      forall q | q in t1 && q !in t ensures PrefixOf(q, p) {
        assert PrefixOf(q, Parent(p));
      }
      assert p !in t ==> p !in t1;
    }
    forall q | q <= Parent(p) ensures IsFile(t, q) <==> IsFile(t1, q) {
    }
    BlockedSameFiles(t, t1, Parent(p));
    if !Blocked(t, Parent(p)) {
      assert Parent(p)[..|Parent(p)|] == Parent(p);
    } else if Parent(p) in t {
      BlockedPresent(t, Parent(p));
    }
  }

  /** The FileNotFoundException `new FileInputStream(p)` throws. */
  function OpenError(t: Tree, p: Path): (r: IoError)
    ensures (r.NoSuchFile? || r.NotADirectory? || r.IsADirectory?) && r.path == p
    ensures r.IsADirectory? <==> IsDir(t, p)
    ensures r.NotADirectory? <==> !IsDir(t, p) && Blocked(t, Parent(p))
  {
    CreateError(t, p)
  }

  /** Opening p with FileInputStream and reading it to the end. */
  function Read(t: Tree, p: Path): (r: Result<Bytes>)
    ensures r.Ok? <==> IsFile(t, p)
    ensures r.Ok? ==> r.value == t[p].content
    ensures r.Err? ==> r.error == OpenError(t, p)
  {
    if IsFile(t, p) then Ok(t[p].content) else Err(OpenError(t, p))
  }

  /** No path lies strictly below p. */
  predicate IsEmptyOrLeaf(t: Tree, p: Path)
  {
    forall q | q in t && |p| < |q| :: q[..|p|] != p
  }

  /** Deleting p keeps every other path as it was. */
  lemma DeleteKeeps(t: Tree, p: Path, q: Path)
    requires WellFormed(t) && q in t && q != p
    ensures q in Delete(t, p) && Delete(t, p)[q] == t[q]
  {
  }

  /** File.delete(): removes a regular file or an empty directory other than
      the root; anything else stays. */
  function Delete(t: Tree, p: Path): (r: Tree)
    requires WellFormed(t)
    ensures WellFormed(r)
    ensures r.Keys == if p != [] && p in t && IsEmptyOrLeaf(t, p) then t.Keys - {p} else t.Keys
    ensures forall q | q in r :: r[q] == t[q]
  {
    if p != [] && p in t && IsEmptyOrLeaf(t, p) then
      var r := t - {p};
      assert forall q, k | q in r && 0 <= k < |q| :: q[..k] != p by {
        forall q, k | q in r && 0 <= k < |q| ensures q[..k] != p {
          assert |q[..k]| == k;
        }
      }
      r
    else t
  }

  /** A regular file is always removed by delete. */
  lemma DeleteFile(t: Tree, p: Path)
    requires WellFormed(t) && IsFile(t, p)
    ensures p !in Delete(t, p)
  {
    forall q | q in t && |p| < |q| ensures q[..|p|] != p {
      FileIsLeaf(t, p, q);
    }
  }

  /** A mutable view of the device's storage: the state the java.io calls change. */
  class Disk {
    var nodes: Tree

    ghost predicate Valid()
      reads this
    {
      WellFormed(nodes)
    }

    constructor (initial: Tree)
      requires WellFormed(initial)
      ensures Valid() && nodes == initial
    {
      nodes := initial;
    }

    /** File.mkdirs(); its boolean result is ignored by every caller. */
    method Mkdirs(p: Path)
      requires Valid()
      modifies this
      ensures Valid()
      ensures nodes == MkDirs(old(nodes), p)
    {
      nodes := MkDirs(nodes, p);
    }

    /** new FileOutputStream(p), write(data), close(). */
    method Overwrite(p: Path, data: Bytes) returns (error: Option<IoError>)
      requires Valid()
      modifies this
      ensures Valid()
      ensures var r := Create(old(nodes), p, data);
              if r.Ok? then nodes == r.value && error == None
              else nodes == old(nodes) && error == Some(r.error)
    {
      var r := Create(nodes, p, data);
      if r.Ok? {
        nodes := r.value;
        error := None;
      } else {
        error := Some(r.error);
      }
    }

    /** new FileInputStream(p), read to the end. */
    method ReadAll(p: Path) returns (r: Result<Bytes>)
      requires Valid()
      ensures r == Read(nodes, p)
      ensures r.Ok? <==> IsFile(nodes, p)
    {
      r := Read(nodes, p);
    }

    /** File.delete(); its boolean result is ignored by the caller. */
    method Remove(p: Path)
      requires Valid()
      modifies this
      ensures Valid()
      ensures nodes == Delete(old(nodes), p)
    {
      nodes := Delete(nodes, p);
    }
  }
}
