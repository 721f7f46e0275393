/** DiversionSCM: the SCM of a job. Its checkout downloads the pipeline script
    or the shared-library files and writes the build's changelog; its polling
    compares the branch head with the last build's revision state. */
module Scm {
  import opened Wrappers
  import opened Strings
  import opened JavaLang
  import opened ApiTypes
  import opened ScriptSearch
  import opened Revisions
  import opened ChangelogMarker
  import opened CommitWindow
  import opened ChangelogXml

  /** The library directory used when none is configured. */
  const DefaultLibraryPath: string := "Meta/Jenkins/SharedLibs"

  /** getScriptPathFromJob: a configured script path as it is; else the
      script the job's name leads to in the listing; else the job's name with
      ".groovy", also when the listing cannot be fetched. */
  function ScriptPathFor(scriptPath: Option<string>, jobName: string, listing: Fetch<seq<string>>): (r: string)
    ensures NonEmpty(scriptPath) ==> r == scriptPath.value
    ensures !NonEmpty(scriptPath) ==> r == jobName + ".groovy" || (listing.Fetched? && r in listing.value)
    ensures !NonEmpty(scriptPath) && r != jobName + ".groovy" ==>
      listing.Fetched? && SearchScript(listing.value, jobName) == Some(r)
    ensures !NonEmpty(scriptPath) && listing.Fetched? && SearchScript(listing.value, jobName).Some? ==>
      r == SearchScript(listing.value, jobName).value
    ensures !NonEmpty(scriptPath) && (listing.FetchFailed? || SearchScript(listing.value, jobName).None?) ==>
      r == jobName + ".groovy"
  {
    if NonEmpty(scriptPath) then scriptPath.value
    else
      match listing
      case FetchFailed => jobName + ".groovy"
      case Fetched(paths) =>
        match SearchScript(paths, jobName)
        case Some(p) => p
        case None => jobName + ".groovy"
  }

  /** A checkout into a workspace whose path contains "@libs" is a shared
      library checkout. */
  predicate IsLibraryWorkspace(workspacePath: string) {
    Contains(workspacePath, "@libs")
  }

  /** The repository directory a library checkout downloads. */
  function LibraryRoot(libraryPath: Option<string>): (r: string)
    ensures r != ""
    ensures NonEmpty(libraryPath) ==> r == libraryPath.value
    ensures !NonEmpty(libraryPath) ==> r == DefaultLibraryPath
  {
    if libraryPath.Some? && libraryPath.value != "" then libraryPath.value else DefaultLibraryPath
  }

  /** One file written to the workspace: the repository path it was read
      from, the workspace path it is written to, and its content. */
  datatype Download = Download(source: string, target: string, content: string)

  /** The files a library checkout writes: every listed path under the library
      directory whose content can be fetched, in listing order, written with
      the directory prefix removed. A file whose content cannot be fetched is
      skipped. */
  function LibraryDownloads(paths: seq<string>, libPath: string, content: string -> Fetch<string>): (r: seq<Download>)
    ensures |r| <= |paths|
    ensures forall k :: 0 <= k < |r| ==>
      r[k].source in paths && libPath + "/" + r[k].target == r[k].source && content(r[k].source) == Fetched(r[k].content)
  {
    if paths == [] then []
    else
      var init := LibraryDownloads(paths[..|paths| - 1], libPath, content);
      var p := paths[|paths| - 1];
      assert forall k :: 0 <= k < |init| ==> init[k].source in paths by {
        assert forall q :: q in paths[..|paths| - 1] ==> q in paths;
      }
      if StartsWith(p, libPath + "/") && content(p).Fetched? then
        var d := Download(p, p[|libPath| + 1..], content(p).value);
        assert libPath + "/" + d.target == p by {
          assert p == p[..|libPath| + 1] + p[|libPath| + 1..];
        }
        var r := init + [d];
        assert forall k :: 0 <= k < |init| ==> r[k] == init[k];
        r
      else init
  }

  /** Every file under the library directory whose content can be fetched is
      written. */
  lemma {:induction false} LibraryDownloadsComplete(paths: seq<string>, libPath: string, content: string -> Fetch<string>, i: nat)
    requires i < |paths| && StartsWith(paths[i], libPath + "/") && content(paths[i]).Fetched?
    ensures exists k :: 0 <= k < |LibraryDownloads(paths, libPath, content)| && LibraryDownloads(paths, libPath, content)[k].source == paths[i]
  {
    var init := paths[..|paths| - 1];
    if i < |paths| - 1 {
      LibraryDownloadsComplete(init, libPath, content, i);
      var k :| 0 <= k < |LibraryDownloads(init, libPath, content)| && LibraryDownloads(init, libPath, content)[k].source == init[i];
      assert LibraryDownloads(paths, libPath, content)[k] == LibraryDownloads(init, libPath, content)[k];
    } else {
      var r := LibraryDownloads(paths, libPath, content);
      assert r[|r| - 1].source == paths[i];
    }
  }

  /** The configuration of a DiversionSCM. */
  datatype ScmConfig = ScmConfig(
    repositoryId: string,
    credentialsId: Option<string>,
    branch: string,
    scriptPath: Option<string>,
    libraryPath: Option<string>)

  /** The answers of the Diversion API for the configured repository and
      branch during one checkout. */
  datatype Remote = Remote(
    repositoryFound: bool,
    listing: Fetch<seq<Entry>>,
    content: string -> Fetch<string>,
    latest: Fetch<Commit>,
    window: Fetch<seq<Commit>>)

  /** The build a checkout belongs to: its key, its job's name, the workspace,
      whether Jenkins asked for a changelog, the repository of the pipeline's
      own DiversionSCM if it has one, and the previous build's state. */
  datatype BuildContext = BuildContext(
    buildKey: string,
    jobName: string,
    workspacePath: string,
    changelogRequested: bool,
    pipelineRepositoryId: Option<string>,
    previous: PreviousState)

  /** What happened to the changelog file. */
  datatype Changelog = Untouched | Written(xml: string)

  /** The end of a checkout: it throws, or it completes with the files it
      wrote and the changelog. */
  datatype CheckoutResult = CheckoutFailed | CheckedOut(downloads: seq<Download>, changelog: Changelog)

  /** A credentials id that is null or blank makes checkout throw. */
  predicate CredentialsMissing(credentialsId: Option<string>) {
    credentialsId.None? || Trim(credentialsId.value) == ""
  }

  /** The files a checkout writes, or None when it throws while downloading:
      the library files, or the one pipeline script at its own path. */
  function CheckoutDownloads(cfg: ScmConfig, b: BuildContext, remote: Remote): (r: Option<seq<Download>>)
    ensures IsLibraryWorkspace(b.workspacePath) ==> (r.None? <==> remote.listing.FetchFailed?)
    ensures IsLibraryWorkspace(b.workspacePath) && r.Some? ==>
      r.value == LibraryDownloads(Paths(remote.listing.value), LibraryRoot(cfg.libraryPath), remote.content)
    ensures !IsLibraryWorkspace(b.workspacePath) ==>
      var path := ScriptPathFor(cfg.scriptPath, b.jobName, FetchPaths(remote.listing));
      (r.None? <==> remote.content(path).FetchFailed?)
      && (r.Some? ==> r.value == [Download(path, path, remote.content(path).value)])
  {
    if IsLibraryWorkspace(b.workspacePath) then
      match remote.listing
      case FetchFailed => None
      case Fetched(entries) => Some(LibraryDownloads(Paths(entries), LibraryRoot(cfg.libraryPath), remote.content))
    else
      var path := ScriptPathFor(cfg.scriptPath, b.jobName, FetchPaths(remote.listing));
      match remote.content(path)
      case FetchFailed => None
      case Fetched(text) => Some([Download(path, path, text)])
  }

  /** The marker checkout the build's changelog marker sees for this checkout. */
  function CheckoutOf(cfg: ScmConfig, b: BuildContext): Checkout {
    Checkout(IsLibraryWorkspace(b.workspacePath), b.pipelineRepositoryId, cfg.repositoryId)
  }

  /** The changelog written after the marker's decision; None when writing
      throws out of checkout (a selected commit without an author). Failing to
      fetch the latest commit or the commit feed leaves the file untouched. */
  function ChangelogAfterClaim(claim: Claim, latest: Fetch<Commit>, previousId: Option<string>,
                               window: Fetch<seq<Commit>>): (r: Option<Changelog>)
    ensures claim.skipForSameRepo ==> r == Some(Written(EmptyChangelog))
    ensures !claim.skipForSameRepo && !claim.shouldWrite ==> r == Some(Untouched)
    ensures !claim.skipForSameRepo && claim.shouldWrite && latest.FetchFailed? ==> r == Some(Untouched)
    ensures r.Some? && r.value.Written? && !claim.skipForSameRepo ==>
      latest.Fetched? && SelectCommits(latest.value, previousId, window).Some?
      && Some(r.value.xml) == ChangelogDocument(SelectCommits(latest.value, previousId, window).value)
  {
    if claim.skipForSameRepo then Some(Written(EmptyChangelog))
    else if !claim.shouldWrite then Some(Untouched)
    else
      match latest
      case FetchFailed => Some(Untouched)
      case Fetched(l) =>
        match SelectCommits(l, previousId, window)
        case None => Some(Untouched)
        case Some(commits) =>
          match ChangelogDocument(commits)
          case None => None
          case Some(xml) => Some(Written(xml))
  }

  /** Whether a checkout gets as far as the changelog marker. */
  predicate ReachesChangelog(cfg: ScmConfig, b: BuildContext, remote: Remote) {
    !CredentialsMissing(cfg.credentialsId) && remote.repositoryFound
    && CheckoutDownloads(cfg, b, remote).Some? && b.changelogRequested
  }

  /** The result of checkout, given the marker the build has when it runs. */
  function CheckoutOutcome(cfg: ScmConfig, b: BuildContext, remote: Remote, current: Option<Marker>): CheckoutResult {
    if CredentialsMissing(cfg.credentialsId) || !remote.repositoryFound then CheckoutFailed
    else
      match CheckoutDownloads(cfg, b, remote)
      case None => CheckoutFailed
      case Some(downloads) =>
        if !b.changelogRequested then CheckedOut(downloads, Untouched)
        else
          var claim := Transition(current, CheckoutOf(cfg, b)).claim;
          Finish(downloads, ChangelogAfterClaim(claim, remote.latest, PreviousCommitId(b.previous), remote.window))
  }

  /** How checkout ends once the changelog step has run: a changelog that
      could not be written fails the checkout. */
  function Finish(downloads: seq<Download>, changelog: Option<Changelog>): CheckoutResult {
    match changelog
    case None => CheckoutFailed
    case Some(c) => CheckedOut(downloads, c)
  }

  /** Once checkout reaches the changelog, its result is the downloads with
      the changelog the marker's claim leads to, or a failure. */
  lemma OutcomeWhenReached(cfg: ScmConfig, b: BuildContext, remote: Remote, current: Option<Marker>)
    requires ReachesChangelog(cfg, b, remote)
    ensures CheckoutOutcome(cfg, b, remote, current)
      == Finish(CheckoutDownloads(cfg, b, remote).value,
                ChangelogAfterClaim(Transition(current, CheckoutOf(cfg, b)).claim, remote.latest,
                                    PreviousCommitId(b.previous), remote.window))
  {
  }

  /** A null or blank credentials id fails the checkout before anything else. */
  lemma CheckoutNeedsCredentials(cfg: ScmConfig, b: BuildContext, remote: Remote, current: Option<Marker>)
    requires CredentialsMissing(cfg.credentialsId)
    ensures CheckoutOutcome(cfg, b, remote, current) == CheckoutFailed
    ensures !ReachesChangelog(cfg, b, remote)
  {
  }

  /** A completed library checkout writes exactly the library files, each
      under its path relative to the library directory. */
  lemma LibraryCheckoutWritesLibraryFiles(cfg: ScmConfig, b: BuildContext, remote: Remote, current: Option<Marker>)
    requires IsLibraryWorkspace(b.workspacePath)
    requires CheckoutOutcome(cfg, b, remote, current).CheckedOut?
    ensures remote.listing.Fetched?
    ensures CheckoutOutcome(cfg, b, remote, current).downloads
            == LibraryDownloads(Paths(remote.listing.value), LibraryRoot(cfg.libraryPath), remote.content)
  {
  }

  /** The first checkout of a build, a library of the pipeline's own
      repository, writes the empty changelog: the same document a checkout
      with no commits to report writes. */
  lemma SameRepositoryLibraryWritesEmptyChangelog(cfg: ScmConfig, b: BuildContext, remote: Remote)
    requires ReachesChangelog(cfg, b, remote)
    requires IsLibraryWorkspace(b.workspacePath) && b.pipelineRepositoryId == Some(cfg.repositoryId)
    ensures CheckoutOutcome(cfg, b, remote, None).CheckedOut?
    ensures CheckoutOutcome(cfg, b, remote, None).changelog == Written(EmptyChangelog)
    ensures ChangelogDocument([]) == Some(EmptyChangelog)
  {
    NoCommitsIsEmptyChangelog();
  }

  /** A script checkout whose head is the previous build's commit writes the
      empty changelog. */
  lemma UnchangedHeadWritesEmptyChangelog(cfg: ScmConfig, b: BuildContext, remote: Remote, current: Option<Marker>)
    requires ReachesChangelog(cfg, b, remote)
    requires !IsLibraryWorkspace(b.workspacePath) && current != Some(Script)
    requires remote.latest.Fetched? && PreviousCommitId(b.previous) == Some(remote.latest.value.commitId)
    ensures CheckoutOutcome(cfg, b, remote, current) == CheckedOut(CheckoutDownloads(cfg, b, remote).value, Written(EmptyChangelog))
  {
    NoCommitsIsEmptyChangelog();
  }

  /** Without a previous commit id, a script checkout reports only the
      latest commit; if that commit has no author, the checkout fails. */
  lemma FirstBuildReportsLatestCommit(cfg: ScmConfig, b: BuildContext, remote: Remote, current: Option<Marker>)
    requires ReachesChangelog(cfg, b, remote)
    requires !IsLibraryWorkspace(b.workspacePath) && current != Some(Script)
    requires remote.latest.Fetched? && PreviousCommitId(b.previous).None?
    ensures remote.latest.value.author.None? ==> CheckoutOutcome(cfg, b, remote, current) == CheckoutFailed
    ensures remote.latest.value.author.Some? ==>
      ChangelogDocument([remote.latest.value]).Some?
      && CheckoutOutcome(cfg, b, remote, current)
         == CheckedOut(CheckoutDownloads(cfg, b, remote).value, Written(ChangelogDocument([remote.latest.value]).value))
  {
    var l := remote.latest.value;
    var claim := Transition(current, CheckoutOf(cfg, b)).claim;
    assert CheckoutOutcome(cfg, b, remote, current)
      == Finish(CheckoutDownloads(cfg, b, remote).value, ChangelogAfterClaim(claim, remote.latest, None, remote.window));
    assert !claim.skipForSameRepo && claim.shouldWrite;
    assert SelectCommits(l, None, remote.window) == Some([l]);
    assert EntriesXml([l]).Some? <==> l.author.Some?;
  }

  /** The revision state a build records: the latest commit's id and creation
      time, or an anonymous state when that commit cannot be fetched. */
  datatype Baseline = DiversionBaseline(state: RevisionState) | OtherBaseline

  datatype PollingResult = NoChanges | Significant | BuildNow

  /** calcRevisionsFromBuild */
  function CalcRevisions(latest: Fetch<Commit>): (b: Baseline)
    ensures b.DiversionBaseline? <==> latest.Fetched?
    ensures latest.Fetched? ==> b.state == RevisionState(latest.value.commitId, latest.value.createdTs)
  {
    match latest
    case FetchFailed => OtherBaseline
    case Fetched(c) => DiversionBaseline(RevisionState(c.commitId, c.createdTs))
  }

  /** compareRemoteRevisionWith: no changes when the head cannot be fetched;
      a new build at once against a baseline of another kind; otherwise
      significant exactly when the head moved. */
  function CompareRemote(latest: Fetch<Commit>, baseline: Baseline): (r: PollingResult)
    ensures latest.FetchFailed? ==> r == NoChanges
    ensures r == BuildNow <==> latest.Fetched? && baseline.OtherBaseline?
    ensures r == Significant <==>
      latest.Fetched? && baseline.DiversionBaseline? && latest.value.commitId != baseline.state.commitId
  {
    match latest
    case FetchFailed => NoChanges
    case Fetched(c) =>
      match baseline
      case OtherBaseline => BuildNow
      case DiversionBaseline(s) => if c.commitId == s.commitId then NoChanges else Significant
  }

  /** Polling against the state a build recorded: no changes while the head
      stays at the built commit, a significant change once it moves, and an
      immediate build when the state could not be recorded. */
  lemma PollingAfterBuild(atBuild: Fetch<Commit>, atPoll: Fetch<Commit>)
    requires atPoll.Fetched?
    ensures atBuild.Fetched? ==>
      (CompareRemote(atPoll, CalcRevisions(atBuild)) == NoChanges <==> atPoll.value.commitId == atBuild.value.commitId)
    ensures atBuild.Fetched? ==> CompareRemote(atPoll, CalcRevisions(atBuild)) != BuildNow
    ensures atBuild.FetchFailed? ==> CompareRemote(atPoll, CalcRevisions(atBuild)) == BuildNow
  {
  }

  /** The files a library checkout writes, counting them. */
  method DownloadLibrary(entries: seq<Entry>, libPath: string, content: string -> Fetch<string>)
    returns (downloads: seq<Download>, downloadedCount: nat)
    ensures downloads == LibraryDownloads(Paths(entries), libPath, content)
    ensures downloadedCount == |downloads|
  {
    ghost var paths := Paths(entries);
    downloads := [];
    downloadedCount := 0;
    var i := 0;
    while i < |entries|
      invariant i <= |entries|
      invariant downloads == LibraryDownloads(paths[..i], libPath, content)
      invariant downloadedCount == |downloads|
    {
      assert paths[..i + 1][..i] == paths[..i];
      var filePath := entries[i].path;
      if StartsWith(filePath, libPath + "/") {
        match content(filePath) {
          case Fetched(text) =>
            var relativePath := filePath[|libPath| + 1..];
            downloads := downloads + [Download(filePath, relativePath, text)];
            downloadedCount := downloadedCount + 1;
          case FetchFailed =>
        }
      }
      i := i + 1;
    }
    assert paths[..i] == paths;
  }

  /** The changelog part of checkout once the marker has decided. */
  method WriteBuildChangelog(claim: Claim, latest: Fetch<Commit>, previousCommitId: Option<string>,
                             window: Fetch<seq<Commit>>) returns (r: Option<Changelog>)
    ensures r == ChangelogAfterClaim(claim, latest, previousCommitId, window)
  {
    if claim.skipForSameRepo {
      return Some(Written(EmptyChangelog));
    }
    if !claim.shouldWrite {
      return Some(Untouched);
    }
    if latest.FetchFailed? {
      return Some(Untouched);
    }
    var latestCommit := latest.value;
    var currentCommitId := latestCommit.commitId;
    var commits: seq<Commit>;
    if previousCommitId.Some? && previousCommitId.value == currentCommitId {
      commits := [];
    } else if previousCommitId.Some? {
      if window.FetchFailed? {
        return Some(Untouched);
      }
      commits := CollectSince(window.value, currentCommitId, previousCommitId.value);
    } else {
      commits := [latestCommit];
    }
    var xml := WriteChangelog(commits);
    if xml.None? {
      return None;
    }
    return Some(Written(xml.value));
  }

  class DiversionScm {
    const repositoryId: string
    const credentialsId: Option<string>
    var branch: string
    var scriptPath: Option<string>
    var libraryPath: Option<string>

    constructor (repositoryId: string, credentialsId: Option<string>)
      ensures this.repositoryId == repositoryId && this.credentialsId == credentialsId
      ensures branch == "main" && scriptPath == None && libraryPath == None
    {
      this.repositoryId := repositoryId;
      this.credentialsId := credentialsId;
      branch := "main";
      scriptPath := None;
      libraryPath := None;
    }

    function Config(): ScmConfig
      reads this
    {
      ScmConfig(repositoryId, credentialsId, branch, scriptPath, libraryPath)
    }

    method SetBranch(branch: string)
      modifies this
      ensures this.branch == branch
      ensures scriptPath == old(scriptPath) && libraryPath == old(libraryPath)
    {
      this.branch := branch;
    }

    method SetScriptPath(scriptPath: Option<string>)
      modifies this
      ensures this.scriptPath == scriptPath
      ensures branch == old(branch) && libraryPath == old(libraryPath)
    {
      this.scriptPath := scriptPath;
    }

    method SetLibraryPath(libraryPath: Option<string>)
      modifies this
      ensures this.libraryPath == libraryPath
      ensures branch == old(branch) && scriptPath == old(scriptPath)
    {
      this.libraryPath := libraryPath;
    }

    /** getScriptPathFromJob, with the branch listing it fetches. */
    method ScriptPathFromJob(jobName: string, listing: Fetch<seq<Entry>>) returns (path: string)
      ensures path == ScriptPathFor(scriptPath, jobName, FetchPaths(listing))
    {
      if scriptPath.Some? && scriptPath.value != "" {
        return scriptPath.value;
      }
      if listing.Fetched? {
        var found := FindScript(listing.value, jobName);
        if found.Some? {
          return found.value;
        }
      }
      return jobName + ".groovy";
    }

    /** The download half of checkout: every library file below the library
        path into a library workspace, otherwise the pipeline script. A failed
        listing or a failed script download throws (None). */
    method FetchDownloads(b: BuildContext, remote: Remote) returns (downloads: Option<seq<Download>>)
      ensures downloads == CheckoutDownloads(Config(), b, remote)
    {
      if Contains(b.workspacePath, "@libs") {
        var libPath := if libraryPath.Some? && libraryPath.value != "" then libraryPath.value else DefaultLibraryPath;
        if remote.listing.FetchFailed? {
          return None;
        }
        var files, downloadedCount := DownloadLibrary(remote.listing.value, libPath, remote.content);
        return Some(files);
      }
      var path := ScriptPathFromJob(b.jobName, remote.listing);
      var content := remote.content(path);
      if content.FetchFailed? {
        return None;
      }
      return Some([Download(path, path, content.value)]);
    }

    /** checkout(): downloads the files, then lets the build's changelog
        marker decide whether this checkout writes the changelog. */
    method Checkout(markers: ChangelogMarkers, b: BuildContext, remote: Remote) returns (r: CheckoutResult)
      modifies markers
      ensures r == CheckoutOutcome(Config(), b, remote, old(markers.MarkerOf(b.buildKey)))
      ensures ReachesChangelog(Config(), b, remote) ==>
        markers.markers == old(markers.markers)[b.buildKey := Transition(old(markers.MarkerOf(b.buildKey)), CheckoutOf(Config(), b)).next]
      ensures !ReachesChangelog(Config(), b, remote) ==> markers.markers == old(markers.markers)
    {
      ghost var cfg := Config();
      ghost var current := markers.MarkerOf(b.buildKey);
      if credentialsId.None? || Trim(credentialsId.value) == "" {
        return CheckoutFailed;
      }
      if !remote.repositoryFound {
        return CheckoutFailed;
      }
      var isLibraryCheckout := Contains(b.workspacePath, "@libs");
      var fetched := FetchDownloads(b, remote);
      if fetched.None? {
        return CheckoutFailed;
      }
      var downloads := fetched.value;
      if !b.changelogRequested {
        return CheckedOut(downloads, Untouched);
      }
      assert ReachesChangelog(cfg, b, remote);
      OutcomeWhenReached(cfg, b, remote, current);
      var checkout := ChangelogMarker.Checkout(isLibraryCheckout, b.pipelineRepositoryId, repositoryId);
      assert checkout == CheckoutOf(cfg, b);
      var claim := markers.ClaimChangelog(b.buildKey, checkout);
      var changelog := WriteBuildChangelog(claim, remote.latest, PreviousCommitId(b.previous), remote.window);
      if changelog.None? {
        return CheckoutFailed;
      }
      return CheckedOut(downloads, changelog.value);
    }
  }
}
