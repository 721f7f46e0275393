/** DiversionSCMFileSystemBuilder: builds the file system Jenkins reads
    pipeline scripts and library files through, either from a configured
    DiversionSCM or from a library source and one of its heads. */
module FileSystemBuilder {
  import opened Wrappers
  import opened ApiTypes
  import opened FileSystem
  import opened Scm
  import opened ScmSource

  /** The library path a file system built from a DiversionSCM serves: the
      configured one, or the repository root ("") when none is set. */
  function BuiltLibraryPath(libraryPath: Option<string>): (r: Option<string>)
    ensures r.Some?
    ensures NonEmpty(libraryPath) ==> r == libraryPath
    ensures !NonEmpty(libraryPath) ==> r == Some("")
  {
    if NonEmpty(libraryPath) then libraryPath else Some("")
  }

  /** The configured script path and job name a file system built from a
      DiversionSCM carries: exactly one of them is set. */
  function ScriptInputs(scriptPath: Option<string>, ownerName: string): (r: (Option<string>, Option<string>))
    ensures r.0.Some? != r.1.Some?
    ensures r.0.Some? ==> NonEmpty(r.0) && r.0 == scriptPath
    ensures r.1.Some? ==> !NonEmpty(scriptPath) && r.1 == Some(ownerName)
  {
    if NonEmpty(scriptPath) then (scriptPath, None) else (None, Some(ownerName))
  }

  /** A file system built for a job resolves the default script request to
      the script its checkout downloads: the configured path, or the script
      found for the job name; when it answers None (use "Jenkinsfile"), the
      checkout falls back to "<job>.groovy". */
  lemma {:induction false} ScriptResolutionAgrees(scriptPath: Option<string>, ownerName: string, listing: Fetch<seq<string>>)
    requires ownerName != ""
    ensures ResolveScript(ScriptInputs(scriptPath, ownerName).0, ScriptInputs(scriptPath, ownerName).1, "Jenkinsfile", listing).Some?
            ==> ResolveScript(ScriptInputs(scriptPath, ownerName).0, ScriptInputs(scriptPath, ownerName).1, "Jenkinsfile", listing).value
                == ScriptPathFor(scriptPath, ownerName, listing)
    ensures ResolveScript(ScriptInputs(scriptPath, ownerName).0, ScriptInputs(scriptPath, ownerName).1, "Jenkinsfile", listing).None?
            ==> ScriptPathFor(scriptPath, ownerName, listing) == ownerName + ".groovy"
  {
    var inputs := ScriptInputs(scriptPath, ownerName);
    if !NonEmpty(scriptPath) {
      assert inputs == (None, Some(ownerName));
    }
  }

  /** build(owner, scm, rev): None unless the SCM is a DiversionSCM; otherwise
      a new file system on the SCM's repository and branch, serving its
      library path or the root, with either its script path or the owner's
      name for script detection. */
  method BuildForScm(ownerName: string, scm: Option<DiversionScm>) returns (fs: Option<DiversionScmFileSystem>)
    ensures scm.None? ==> fs.None?
    ensures scm.Some? ==> (fs.Some? && fresh(fs.value)
      && fs.value.repositoryId == scm.value.repositoryId && fs.value.branchId == scm.value.branch
      && fs.value.credentialsId == scm.value.credentialsId
      && fs.value.libraryPath == BuiltLibraryPath(scm.value.libraryPath)
      && (fs.value.configuredScriptPath, fs.value.jobName) == ScriptInputs(scm.value.scriptPath, ownerName)
      && fs.value.cachedLastModified == None)
  {
    if scm.None? {
      return None;
    }
    var s := scm.value;
    var libraryPath := s.libraryPath;
    if libraryPath.None? || libraryPath.value == "" {
      libraryPath := Some("");
    }
    var scriptPath := s.scriptPath;
    var built := new DiversionScmFileSystem(s.repositoryId, s.branch, s.credentialsId, libraryPath);
    if scriptPath.None? || scriptPath.value == "" {
      built.SetJobName(Some(ownerName));
    } else {
      built.SetConfiguredScriptPath(scriptPath);
    }
    return Some(built);
  }

  /** build(source, head, rev): None unless the source is a
      DiversionSCMSource and the head a Diversion head; otherwise a new file
      system on the head's branch serving the source's library path. */
  method BuildForSource(source: Option<DiversionScmSource>, head: ScmHead) returns (fs: Option<DiversionScmFileSystem>)
    ensures source.None? || head.OtherHead? ==> fs.None?
    ensures source.Some? && head.DiversionHead? ==> (fs.Some? && fresh(fs.value)
      && fs.value.repositoryId == source.value.repositoryId && fs.value.branchId == head.branchId
      && fs.value.credentialsId == source.value.credentialsId
      && fs.value.libraryPath == source.value.libraryPath
      && fs.value.configuredScriptPath == None && fs.value.jobName == None
      && fs.value.cachedLastModified == None)
  {
    if source.None? || head.OtherHead? {
      return None;
    }
    var s := source.value;
    var built := new DiversionScmFileSystem(s.repositoryId, head.branchId, s.credentialsId, s.libraryPath);
    return Some(built);
  }
}
