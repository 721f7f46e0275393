/** DiversionSCMSource: the SCM source of a Global Pipeline Library. It picks
    the branch a library version names, turns branch heads into revisions,
    builds the DiversionSCM a library is checked out with, and detects the
    directories of a repository that hold a shared library. */
module ScmSource {
  import opened Wrappers
  import opened Strings
  import opened ApiTypes
  import opened Revisions
  import opened Scm

  /** The prefix of a version string that names a branch id. */
  const BranchPrefix: string := "dv.branch."

  /** Where a listing path puts a shared library: nowhere, at the repository
      root (a leading "/vars/"), or under the directory before "/vars/". */
  datatype VarsHit = NotLibraryScript | RootVars | VarsUnder(parent: string)

  /** The test the library-path dropdown applies to one listing path: a
      ".groovy" file inside a "vars" directory, split at the first "/vars/". */
  function VarsHitOf(path: string): (h: VarsHit)
    ensures h.NotLibraryScript? <==> !(Contains(path, "/vars/") && EndsWith(path, ".groovy"))
    ensures h.RootVars? ==> StartsWith(path, "/vars/") && EndsWith(path, ".groovy")
    ensures h.VarsUnder? ==> (h.parent != "" && EndsWith(path, ".groovy")
      && OccursAt(path, "/vars/", |h.parent|) && StartsWith(path, h.parent)
      && forall j: nat :: j < |h.parent| ==> !OccursAt(path, "/vars/", j))
  {
    if Contains(path, "/vars/") && EndsWith(path, ".groovy") then
      var i := IndexOf(path, "/vars/").value;
      if i > 0 then VarsUnder(path[..i]) else RootVars
    else NotLibraryScript
  }

  /** A "vars" directory at the repository root written without a leading
      slash never sets the root flag. */
  lemma PlainVarsIsNotRoot(name: string)
    ensures VarsHitOf("vars/" + name) != RootVars
  {
    var path := "vars/" + name;
    assert path[0] == 'v';
    assert !OccursAt(path, "/vars/", 0);
  }

  /** The parents of "vars" directories the listing shows. */
  ghost function DetectedParents(paths: seq<string>): set<string> {
    set p | p in paths && VarsHitOf(p).VarsUnder? :: VarsHitOf(p).parent
  }

  lemma DetectedParentsSnoc(paths: seq<string>, p: string)
    ensures DetectedParents(paths + [p])
            == DetectedParents(paths) + (if VarsHitOf(p).VarsUnder? then {VarsHitOf(p).parent} else {})
  {
    var all := paths + [p];
    forall x | x in DetectedParents(all)
      ensures x in DetectedParents(paths) || (VarsHitOf(p).VarsUnder? && x == VarsHitOf(p).parent)
    {
      var q :| q in all && VarsHitOf(q).VarsUnder? && VarsHitOf(q).parent == x;
      if q != p {
        assert q in paths;
      }
    }
    assert forall q :: q in paths ==> q in all;
  }

  /** Whether the listing shows a "vars" directory at the root. */
  predicate HasRootVars(paths: seq<string>) {
    exists i :: 0 <= i < |paths| && VarsHitOf(paths[i]).RootVars?
  }

  /** The detection loop: collects the parents in a set and the root flag. */
  method ScanVarsParents(entries: seq<Entry>) returns (varsParents: set<string>, hasRootVars: bool)
    ensures varsParents == DetectedParents(Paths(entries))
    ensures hasRootVars == HasRootVars(Paths(entries))
  {
    ghost var paths := Paths(entries);
    varsParents := {};
    hasRootVars := false;
    var i := 0;
    while i < |entries|
      invariant i <= |entries|
      invariant varsParents == DetectedParents(paths[..i])
      invariant hasRootVars == HasRootVars(paths[..i])
    {
      var path := entries[i].path;
      assert paths[..i + 1] == paths[..i] + [path];
      DetectedParentsSnoc(paths[..i], path);
      if Contains(path, "/vars/") && EndsWith(path, ".groovy") {
        var varsIndex := IndexOf(path, "/vars/").value;
        if varsIndex > 0 {
          varsParents := varsParents + {path[..varsIndex]};
        } else {
          hasRootVars := true;
        }
      }
      i := i + 1;
    }
    assert paths[..i] == paths;
  }

  /** The detected parents as the sorted list the dropdown shows. */
  method SortedPaths(varsParents: set<string>) returns (sortedPaths: seq<string>)
    ensures StrictlySorted(sortedPaths)
    ensures forall p :: p in sortedPaths <==> p in varsParents
  {
    sortedPaths := [];
    var remaining := varsParents;
    while remaining != {}
      invariant StrictlySorted(sortedPaths)
      invariant forall p :: p in sortedPaths <==> p in varsParents && p !in remaining
      invariant remaining <= varsParents
      decreases |remaining|
    {
      var p :| p in remaining;
      sortedPaths := InsertSorted(sortedPaths, p);
      remaining := remaining - {p};
    }
  }

  /** The values of the library-path dropdown: the current path first when
      there is one, the root, then, when the listing shows any library, a
      header, the root again if it has a "vars" directory, and the detected
      parents in sorted order. `detected` is None when the listing was not
      requested or could not be fetched. */
  function LibraryPathValues(current: Option<string>, detected: Option<(seq<string>, bool)>): (values: seq<string>)
    ensures |values| >= if NonEmpty(current) then 2 else 1
    ensures NonEmpty(current) ==> values[0] == current.value && values[1] == ""
    ensures !NonEmpty(current) ==> values[0] == ""
    ensures detected.Some? ==> forall p :: p in detected.value.0 ==> p in values
    ensures detected.None? || (detected.value.0 == [] && !detected.value.1) ==> |values| == if NonEmpty(current) then 2 else 1
  {
    var head := (if NonEmpty(current) then [current.value] else []) + [""];
    match detected
    case None => head
    case Some((sortedPaths, hasRootVars)) =>
      if sortedPaths != [] || hasRootVars then
        head + [""] + (if hasRootVars then [""] else []) + sortedPaths
      else head
  }

  class DiversionScmSource {
    const repositoryId: string
    const credentialsId: Option<string>
    var libraryPath: Option<string>
    var defaultBranch: string

    constructor (repositoryId: string, credentialsId: Option<string>)
      ensures this.repositoryId == repositoryId && this.credentialsId == credentialsId
      ensures libraryPath == Some("vars") && defaultBranch == "dev"
    {
      this.repositoryId := repositoryId;
      this.credentialsId := credentialsId;
      libraryPath := Some("vars");
      defaultBranch := "dev";
    }

    method SetLibraryPath(libraryPath: Option<string>)
      modifies this
      ensures this.libraryPath == libraryPath && defaultBranch == old(defaultBranch)
    {
      this.libraryPath := libraryPath;
    }

    method SetDefaultBranch(defaultBranch: string)
      modifies this
      ensures this.defaultBranch == defaultBranch && libraryPath == old(libraryPath)
    {
      this.defaultBranch := defaultBranch;
    }

    /** The branch retrieve(version) looks up: the version itself when it
        names a branch id, else the default branch. */
    function BranchFor(version: string): (branchId: string)
      reads this
      ensures StartsWith(version, BranchPrefix) ==> branchId == version
      ensures !StartsWith(version, BranchPrefix) ==> branchId == defaultBranch
    {
      if StartsWith(version, BranchPrefix) then version else defaultBranch
    }

    /** retrieve(version): the revision of the looked-up branch's head, with
        "HEAD" for a branch without a commit; a failed lookup throws. */
    function RetrieveVersion(version: string, lookup: string -> Fetch<Branch>): (r: Fetch<Revision>)
      reads this
      ensures r.FetchFailed? <==> lookup(BranchFor(version)).FetchFailed?
      ensures r.Fetched? ==>
        var b := lookup(BranchFor(version)).value;
        r.value.head == DiversionHead(b.branchName, b.branchId)
        && (b.commitId.Some? ==> r.value.commitId == b.commitId.value)
        && (b.commitId.None? ==> r.value.commitId == "HEAD")
    {
      match lookup(BranchFor(version))
      case FetchFailed => FetchFailed
      case Fetched(b) =>
        Fetched(Revision(DiversionHead(b.branchName, b.branchId), if b.commitId.Some? then b.commitId.value else "HEAD"))
    }

    /** retrieve(head): the revision of a Diversion head's branch, or None when
        the branch has no commit or the lookup fails. Any other head makes the
        cast throw (FetchFailed). */
    function RetrieveHead(head: ScmHead, lookup: string -> Fetch<Branch>): (r: Fetch<Option<Revision>>)
      ensures r.FetchFailed? <==> head.OtherHead?
      ensures r.Fetched? && r.value.Some? ==>
        lookup(head.branchId).Fetched? && lookup(head.branchId).value.commitId == Some(r.value.value.commitId)
        && r.value.value.commitId != "" && r.value.value.head == head
      ensures head.DiversionHead? && lookup(head.branchId).Fetched? && NonEmpty(lookup(head.branchId).value.commitId) ==>
        r.Fetched? && r.value.Some?
    {
      match head
      case OtherHead(_) => FetchFailed
      case DiversionHead(_, branchId) =>
        match lookup(branchId)
        case FetchFailed => Fetched(None)
        case Fetched(b) =>
          if b.commitId.Some? && b.commitId.value != "" then Fetched(Some(Revision(head, b.commitId.value)))
          else Fetched(None)
    }

    /** build(head): the DiversionSCM that checks a library out from the
        head's branch with this source's library path; any other head makes
        build throw (None). */
    method Build(head: ScmHead) returns (scm: Option<DiversionScm>)
      ensures head.OtherHead? ==> scm.None?
      ensures head.DiversionHead? ==> (scm.Some? && fresh(scm.value)
        && scm.value.repositoryId == repositoryId && scm.value.credentialsId == credentialsId
        && scm.value.branch == head.branchId && scm.value.libraryPath == libraryPath
        && scm.value.scriptPath == None)
    {
      if head.OtherHead? {
        return None;
      }
      var s := new DiversionScm(repositoryId, credentialsId);
      s.SetBranch(head.branchId);
      s.SetLibraryPath(libraryPath);
      return Some(s);
    }

    /** The library-path dropdown's values for the current path, given the
        listing of the selected branch when credentials, repository and
        branch are all selected. */
    method LibraryPathItems(current: Option<string>, listing: Option<Fetch<seq<Entry>>>) returns (values: seq<string>)
      ensures listing.None? || listing.value.FetchFailed? ==>
        values == LibraryPathValues(current, None) + (if listing.Some? then [""] else [])
      ensures listing.Some? && listing.value.Fetched? ==>
        exists sortedPaths :: StrictlySorted(sortedPaths)
          && (forall p :: p in sortedPaths <==> p in DetectedParents(Paths(listing.value.value)))
          && values == LibraryPathValues(current, Some((sortedPaths, HasRootVars(Paths(listing.value.value)))))
    {
      if listing.None? {
        return LibraryPathValues(current, None);
      }
      match listing.value {
        case FetchFailed =>
          values := LibraryPathValues(current, None) + [""];
        case Fetched(entries) =>
          var varsParents, hasRootVars := ScanVarsParents(entries);
          var sortedPaths := SortedPaths(varsParents);
          values := LibraryPathValues(current, Some((sortedPaths, hasRootVars)));
      }
    }
  }
}
