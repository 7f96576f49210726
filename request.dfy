/** MainActivity.createProject: reading the three form fields, refusing an
    incomplete form, and deriving the archive URL of the repository's main
    branch. */
module Request {
  import opened Text

  /** What pressing the button does: show a toast, or start a setup task with
      the archive URL, the application name and the package name. */
  datatype Launch =
    | Rejected(toast: string)
    | Started(zipUrl: string, appName: string, pkg: string)

  const IncompleteForm: string := "Please fill all fields"
  const GitSuffix: string := ".git"
  const ArchivePath: string := "/archive/refs/heads/main.zip"

  /** The URL with one trailing ".git" removed, if it has one. */
  function StripGit(url: string): (r: string)
    ensures EndsWith(url, GitSuffix) ==> r + GitSuffix == url
    ensures !EndsWith(url, GitSuffix) ==> r == url
  {
    if EndsWith(url, GitSuffix) then url[..|url| - |GitSuffix|] else url
  }

  /** Exactly one ".git" is removed: the result of stripping u + ".git" is u,
      whether or not u itself ends in ".git". */
  lemma StripGitOnce(u: string)
    ensures StripGit(u + GitSuffix) == u
  {
    EndsWithConcat(u, GitSuffix);
    assert (u + GitSuffix)[..|u|] == u;
  }

  /** The address of the zip archive GitHub serves for the branch "main". */
  function ZipUrl(url: string): (r: string)
    ensures EndsWith(r, ArchivePath)
    ensures r[..|r| - |ArchivePath|] == StripGit(url)
  {
    var r := StripGit(url) + ArchivePath;
    EndsWithConcat(StripGit(url), ArchivePath);
    assert r[..|r| - |ArchivePath|] == StripGit(url);
    r
  }

  /** A URL ending in ".git" loses exactly that suffix before the archive path is appended. */
  lemma ZipUrlOfGitUrl(u: string)
    ensures ZipUrl(u + GitSuffix) == u + ArchivePath
  {
    StripGitOnce(u);
  }

  /** Only the last ".git" goes: "x.git.git" becomes "x.git" + the archive path. */
  lemma ZipUrlDoubleGit(u: string)
    ensures ZipUrl(u + GitSuffix + GitSuffix) == u + GitSuffix + ArchivePath
  {
    ZipUrlOfGitUrl(u + GitSuffix);
  }

  /** createProject: the three fields are trimmed; if any is then empty the
      form is refused, otherwise a task starts with the derived archive URL and
      the trimmed name and package. */
  function CreateProject(urlField: string, nameField: string, pkgField: string): (r: Launch)
    ensures r.Rejected? <==> Trim(urlField) == [] || Trim(nameField) == [] || Trim(pkgField) == []
    ensures r.Rejected? ==> r.toast == IncompleteForm
    ensures r.Started? ==> && r.zipUrl == ZipUrl(Trim(urlField))
                           && r.appName == Trim(nameField) && r.appName != []
                           && r.pkg == Trim(pkgField) && r.pkg != []
  {
    var url := Trim(urlField);
    var appName := Trim(nameField);
    var pkg := Trim(pkgField);
    if url == [] || appName == [] || pkg == [] then Rejected(IncompleteForm)
    else Started(ZipUrl(url), appName, pkg)
  }

  /** A form whose fields hold nothing but blanks never starts a task. */
  lemma BlankFieldRejected(urlField: string, nameField: string, pkgField: string)
    requires (forall i | 0 <= i < |urlField| :: IsBlank(urlField[i]))
          || (forall i | 0 <= i < |nameField| :: IsBlank(nameField[i]))
          || (forall i | 0 <= i < |pkgField| :: IsBlank(pkgField[i]))
    ensures CreateProject(urlField, nameField, pkgField) == Rejected(IncompleteForm)
  {
  }

  /** pkg.replace(".", "/"). */
  function PackagePath(pkg: string): (r: string)
    ensures |r| == |pkg| && '.' !in r
    ensures forall i | 0 <= i < |pkg| && pkg[i] != '.' :: r[i] == pkg[i]
    ensures forall i | 0 <= i < |pkg| && pkg[i] == '.' :: r[i] == '/'
  {
    seq(|pkg|, i requires 0 <= i < |pkg| => if pkg[i] == '.' then '/' else pkg[i])
  }

  lemma PackagePathConcat(a: string, b: string)
    ensures PackagePath(a + b) == PackagePath(a) + PackagePath(b)
  {
    assert forall i | 0 <= i < |a| :: (a + b)[i] == a[i];
    assert forall i | |a| <= i < |a| + |b| :: (a + b)[i] == b[i - |a|];
  }

  /** A dotted package name becomes the same names joined by '/'. */
  lemma {:induction false} PackagePathOfJoin(parts: seq<string>)
    requires forall i | 0 <= i < |parts| :: '.' !in parts[i]
    ensures PackagePath(JoinWith(parts, '.')) == JoinWith(parts, '/')
  {
    if |parts| == 0 {
    } else if |parts| == 1 {
      assert PackagePath(parts[0]) == parts[0];
    } else {
      PackagePathConcat(parts[0] + ['.'], JoinWith(parts[1..], '.'));
      PackagePathConcat(parts[0], ['.']);
      assert PackagePath(parts[0]) == parts[0];
      PackagePathOfJoin(parts[1..]);
    }
  }
}
