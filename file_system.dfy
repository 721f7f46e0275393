/** DiversionSCMFileSystem: the view of one branch that Jenkins loads shared
    libraries and pipeline scripts through. */
module FileSystem {
  import opened Wrappers
  import opened Strings
  import opened JavaLang
  import opened ApiTypes
  import opened ScmFile
  import opened ScriptSearch

  /** The requests resolveScriptPath treats as "the default script". */
  predicate IsDefaultRequest(requested: string) {
    requested == "Jenkinsfile" || requested == "jenkinsfile"
  }

  /** What resolveScriptPath answers: a configured script path for a default
      request, else (with a job name) the script found in the listing, else
      None, meaning "use the requested path". */
  function ResolveScript(configured: Option<string>, jobName: Option<string>, requested: string,
                         listing: Fetch<seq<string>>): (r: Option<string>)
    ensures !IsDefaultRequest(requested) ==> r.None?
    ensures NonEmpty(configured) && IsDefaultRequest(requested) ==> r == configured
    ensures r.Some? ==> r == configured || (listing.Fetched? && r.value in listing.value)
    ensures r.Some? && r != configured ==>
      NonEmpty(jobName) && listing.Fetched? && r == SearchScript(listing.value, jobName.value)
    ensures !NonEmpty(configured) && NonEmpty(jobName) && IsDefaultRequest(requested) ==>
      r == (if listing.Fetched? then SearchScript(listing.value, jobName.value) else None)
  {
    if NonEmpty(configured) && IsDefaultRequest(requested) then configured
    else if NonEmpty(jobName) && IsDefaultRequest(requested) then
      match listing
      case FetchFailed => None
      case Fetched(paths) => SearchScript(paths, jobName.value)
    else None
  }

  /** What lastModified() computes when nothing is cached: the creation time of
      the branch head in milliseconds, in `long` arithmetic, or the clock when
      the branch has no head or a call fails. With a timestamp small enough
      for the multiplication not to overflow, the result is exact. */
  function HeadTimeMillis(branch: Fetch<Branch>, getCommit: string -> Fetch<Commit>, nowMillis: Long): (t: Long)
    ensures branch.Fetched? && NonEmpty(branch.value.commitId)
            && getCommit(branch.value.commitId.value).Fetched?
            && -9_223_372_036_854_775 <= getCommit(branch.value.commitId.value).value.createdTs <= 9_223_372_036_854_775
            ==> t == getCommit(branch.value.commitId.value).value.createdTs * 1000
    ensures branch.Fetched? && NonEmpty(branch.value.commitId) && getCommit(branch.value.commitId.value).Fetched?
            ==> (t - getCommit(branch.value.commitId.value).value.createdTs * 1000) % TWO_64 == 0
    ensures (branch.FetchFailed? || !NonEmpty(branch.value.commitId) || getCommit(branch.value.commitId.value).FetchFailed?)
            ==> t == nowMillis
  {
    match branch
    case FetchFailed => nowMillis
    case Fetched(b) =>
      if NonEmpty(b.commitId) then
        match getCommit(b.commitId.value)
        case FetchFailed => nowMillis
        case Fetched(c) => WrapLong(c.createdTs as int * 1000)
      else nowMillis
  }

  class DiversionScmFileSystem {
    const repositoryId: string
    const branchId: string
    const credentialsId: Option<string>
    const libraryPath: Option<string>
    /** lastModified()'s cache: None until computed, or after invalidateCache(). */
    var cachedLastModified: Option<Long>
    var jobName: Option<string>
    var configuredScriptPath: Option<string>

    constructor (repositoryId: string, branchId: string, credentialsId: Option<string>, libraryPath: Option<string>)
      ensures this.repositoryId == repositoryId && this.branchId == branchId
      ensures this.credentialsId == credentialsId && this.libraryPath == libraryPath
      ensures cachedLastModified == None && jobName == None && configuredScriptPath == None
    {
      this.repositoryId := repositoryId;
      this.branchId := branchId;
      this.credentialsId := credentialsId;
      this.libraryPath := libraryPath;
      cachedLastModified := None;
      jobName := None;
      configuredScriptPath := None;
    }

    /** getRoot(): a new file at the library path, or at the repository root
        when no library path is set. */
    method GetRoot() returns (root: DiversionScmFile)
      ensures fresh(root)
      ensures root.path == if NonEmpty(libraryPath) then libraryPath.value else ""
      ensures root.repositoryId == repositoryId && root.branchId == branchId
      ensures root.isDirectory == None && root.fileExists == None
    {
      var rootPath := if libraryPath.None? || libraryPath.value == "" then "" else libraryPath.value;
      root := new DiversionScmFile(rootPath, repositoryId, branchId);
    }

    /** lastModified(): the cached value when there is one; otherwise computes
        the head's creation time (or the clock) and caches it. */
    method LastModified(branch: Fetch<Branch>, getCommit: string -> Fetch<Commit>, nowMillis: Long) returns (t: Long)
      modifies this
      ensures old(cachedLastModified).Some? ==> t == old(cachedLastModified).value
      ensures old(cachedLastModified).None? ==> t == HeadTimeMillis(branch, getCommit, nowMillis)
      ensures cachedLastModified == Some(t)
      ensures jobName == old(jobName) && configuredScriptPath == old(configuredScriptPath)
    {
      if cachedLastModified.None? {
        match branch {
          case FetchFailed =>
            cachedLastModified := Some(nowMillis);
          case Fetched(b) =>
            var commitId := b.commitId;
            if commitId.Some? && commitId.value != "" {
              match getCommit(commitId.value) {
                case FetchFailed =>
                  cachedLastModified := Some(nowMillis);
                case Fetched(commit) =>
                  cachedLastModified := Some(WrapLong(commit.createdTs as int * 1000));
              }
            } else {
              cachedLastModified := Some(nowMillis);
            }
        }
      }
      return cachedLastModified.value;
    }

    /** invalidateCache(): the next lastModified() recomputes. */
    method InvalidateCache()
      modifies this
      ensures cachedLastModified == None
      ensures jobName == old(jobName) && configuredScriptPath == old(configuredScriptPath)
    {
      cachedLastModified := None;
    }

    method SetJobName(name: Option<string>)
      modifies this
      ensures jobName == name
      ensures cachedLastModified == old(cachedLastModified) && configuredScriptPath == old(configuredScriptPath)
    {
      jobName := name;
    }

    method SetConfiguredScriptPath(scriptPath: Option<string>)
      modifies this
      ensures configuredScriptPath == scriptPath
      ensures cachedLastModified == old(cachedLastModified) && jobName == old(jobName)
    {
      configuredScriptPath := scriptPath;
    }

    /** resolveScriptPath(requestedPath), with the branch listing it would fetch
        when it needs one. */
    method ResolveScriptPath(requested: string, listing: Fetch<seq<Entry>>) returns (r: Option<string>)
      ensures r == ResolveScript(configuredScriptPath, jobName, requested, FetchPaths(listing))
    {
      if configuredScriptPath.Some? && configuredScriptPath.value != "" {
        if requested == "Jenkinsfile" || requested == "jenkinsfile" {
          return configuredScriptPath;
        }
      }
      if jobName.Some? && jobName.value != "" {
        if requested == "Jenkinsfile" || requested == "jenkinsfile" {
          if listing.Fetched? {
            r := FindScript(listing.value, jobName.value);
            if r.Some? {
              return r;
            }
          }
        }
      }
      return None;
    }
  }
}
