/** The search for a job's pipeline script in a repository listing, which
    DiversionSCM.getScriptPathFromJob and DiversionSCMFileSystem.resolveScriptPath
    both perform: a list of candidate names tried in order of preference, each
    against every listing path in listing order. */
module ScriptSearch {
  import opened Wrappers
  import opened Strings
  import opened ApiTypes

  /** The candidate script names for a job, most preferred first: the job name
      with ".groovy", the bare job name, then "Jenkinsfile". */
  function Patterns(jobName: string): (names: seq<string>)
    ensures |names| == 3 && names[2] == "Jenkinsfile"
  {
    [jobName + ".groovy", jobName, "Jenkinsfile"]
  }

  /** A listing path is a file called `name`, at the root or in any directory. */
  predicate NameMatches(p: string, name: string) {
    EndsWith(p, "/" + name) || p == name
  }

  /** The index of the first listing path that matches `name`. */
  function FirstMatch(paths: seq<string>, name: string): (r: Option<nat>)
    ensures r.Some? ==> r.value < |paths| && NameMatches(paths[r.value], name)
    ensures r.Some? ==> forall j :: 0 <= j < r.value ==> !NameMatches(paths[j], name)
    ensures r.None? ==> forall j :: 0 <= j < |paths| ==> !NameMatches(paths[j], name)
  {
    if paths == [] then None
    else if NameMatches(paths[0], name) then Some(0)
    else
      match FirstMatch(paths[1..], name)
      case None => None
      case Some(i) => Some(i + 1)
  }

  /** The path the search settles on: the first path matching the first name
      that any path matches. None when no path matches any name. */
  function SearchNames(paths: seq<string>, names: seq<string>): (r: Option<string>)
    ensures r.Some? ==> r.value in paths
    ensures r.Some? ==> exists k :: 0 <= k < |names| && NameMatches(r.value, names[k])
    ensures r.None? <==> forall k, j :: 0 <= k < |names| && 0 <= j < |paths| ==> !NameMatches(paths[j], names[k])
  {
    if names == [] then None
    else
      match FirstMatch(paths, names[0])
      case Some(i) => Some(paths[i])
      case None =>
        var r := SearchNames(paths, names[1..]);
        assert forall k :: 0 < k < |names| ==> names[k] == names[1..][k - 1];
        r
  }

  /** The script a job's name leads to in the listing, if any. */
  function SearchScript(paths: seq<string>, jobName: string): Option<string> {
    SearchNames(paths, Patterns(jobName))
  }

  /** A path named after the job with ".groovy" is preferred to anything else:
      the search returns the first such path in listing order. */
  lemma GroovyScriptPreferred(paths: seq<string>, jobName: string, j: nat)
    requires j < |paths| && NameMatches(paths[j], jobName + ".groovy")
    ensures SearchScript(paths, jobName) == Some(paths[FirstMatch(paths, jobName + ".groovy").value])
  {
    assert Patterns(jobName)[0] == jobName + ".groovy";
  }

  /** A Jenkinsfile is only chosen when no path carries the job's name. */
  lemma JenkinsfileIsLastResort(paths: seq<string>, jobName: string)
    requires SearchScript(paths, jobName).Some?
    requires !NameMatches(SearchScript(paths, jobName).value, jobName + ".groovy")
    requires !NameMatches(SearchScript(paths, jobName).value, jobName)
    ensures NameMatches(SearchScript(paths, jobName).value, "Jenkinsfile")
    ensures forall j :: 0 <= j < |paths| ==> !NameMatches(paths[j], jobName + ".groovy") && !NameMatches(paths[j], jobName)
  {
    var names := Patterns(jobName);
    if FirstMatch(paths, names[0]).None? {
      assert SearchScript(paths, jobName) == SearchNames(paths, names[1..]);
      assert names[1..][0] == jobName;
      if FirstMatch(paths, names[1..][0]).None? {
        assert SearchNames(paths, names[1..]) == SearchNames(paths, names[2..]);
        assert names[2..][0] == "Jenkinsfile";
      }
    }
  }

  /** The inner search loop: the first listing path that matches `name`. */
  method MatchIndex(entries: seq<Entry>, name: string) returns (r: Option<nat>)
    ensures r == FirstMatch(Paths(entries), name)
  {
    ghost var paths := Paths(entries);
    var i := 0;
    while i < |entries|
      invariant i <= |entries|
      invariant forall j :: 0 <= j < i ==> !NameMatches(paths[j], name)
    {
      var path := entries[i].path;
      if EndsWith(path, "/" + name) || path == name {
        assert NameMatches(paths[i], name);
        return Some(i);
      }
      i := i + 1;
    }
    return None;
  }

  /** The nested search loops: names in order of preference, listing paths in
      listing order, returning the first match. */
  method FindScript(entries: seq<Entry>, jobName: string) returns (r: Option<string>)
    ensures r == SearchScript(Paths(entries), jobName)
  {
    ghost var paths := Paths(entries);
    var names := Patterns(jobName);
    var k := 0;
    while k < |names|
      invariant k <= |names|
      invariant SearchNames(paths, names) == SearchNames(paths, names[k..])
    {
      var found := MatchIndex(entries, names[k]);
      assert names[k..][0] == names[k];
      if found.Some? {
        return Some(entries[found.value].path);
      }
      assert names[k..][1..] == names[k + 1..];
      k := k + 1;
    }
    return None;
  }
}
