/** The choice of commits a checkout's changelog reports: the commits of the
    newest-first commit feed between the current head and the commit the
    previous build was made from. */
module CommitWindow {
  import opened Wrappers
  import opened ApiTypes
  import opened Revisions

  /** The SCMRevisionState the previous build recorded, as checkout finds it.
      For a MultiSCMRevisionState the reflective lookup of the first Diversion
      state in its map is given by its result: the commit id found, or None
      when there is no Diversion state or the lookup fails. */
  datatype PreviousState =
    | NoPreviousBuild
    | NoState
    | DirectState(state: RevisionState)
    | MultiState(extracted: Option<string>)
    | OtherState

  /** The previous build's commit id, if checkout can determine one. */
  function PreviousCommitId(p: PreviousState): (r: Option<string>)
    ensures r.Some? <==> (p.DirectState? || (p.MultiState? && p.extracted.Some?))
    ensures p.DirectState? ==> r == Some(p.state.commitId)
    ensures p.MultiState? ==> r == p.extracted
  {
    match p
    case DirectState(s) => Some(s.commitId)
    case MultiState(extracted) => extracted
    case _ => None
  }

  /** The first index at or after `from` of a commit with id `id`, or |w|. */
  function IndexOfId(w: seq<Commit>, id: string, from: nat): (r: nat)
    requires from <= |w|
    ensures from <= r <= |w|
    ensures r < |w| ==> w[r].commitId == id
    ensures forall j :: from <= j < r ==> w[j].commitId != id
    decreases |w| - from
  {
    if from == |w| then |w|
    else if w[from].commitId == id then from
    else IndexOfId(w, id, from + 1)
  }

  /** The commits of the window from the first occurrence of the current id up
      to, not including, the first later occurrence of the previous id. */
  function Between(w: seq<Commit>, current: string, previous: string): (r: seq<Commit>)
    ensures forall k :: 0 <= k < |r| ==> r[k].commitId != previous
    ensures r != [] ==> r[0].commitId == current
    ensures (forall k :: 0 <= k < |w| ==> w[k].commitId != current) ==> r == []
  {
    var i := IndexOfId(w, current, 0);
    if i == |w| then []
    else w[i..IndexOfId(w, previous, i)]
  }

  /** A non-empty selection is a contiguous run of the window that starts at
      the first occurrence of the current id and ends at the end of the window
      or just before the previous id. */
  lemma BetweenIsRun(w: seq<Commit>, current: string, previous: string) returns (i: nat)
    requires Between(w, current, previous) != []
    ensures i + |Between(w, current, previous)| <= |w|
    ensures Between(w, current, previous) == w[i..i + |Between(w, current, previous)|]
    ensures forall k :: 0 <= k < i ==> w[k].commitId != current
    ensures i + |Between(w, current, previous)| == |w| || w[i + |Between(w, current, previous)|].commitId == previous
  {
    i := IndexOfId(w, current, 0);
  }

  /** The commits checkout puts in the changelog, given the latest commit of
      the branch, the previous build's commit id and the commit feed it lists
      when it needs it; None when listing the feed fails. */
  function SelectCommits(latest: Commit, previousId: Option<string>, window: Fetch<seq<Commit>>): (r: Option<seq<Commit>>)
    ensures previousId.None? ==> r == Some([latest])
    ensures previousId == Some(latest.commitId) ==> r == Some([])
    ensures previousId.Some? && previousId.value != latest.commitId ==>
      (r.None? <==> window.FetchFailed?)
    ensures r.Some? && previousId.Some? ==>
      forall k :: 0 <= k < |r.value| ==> r.value[k].commitId != previousId.value
    ensures previousId.Some? && previousId.value != latest.commitId && window.Fetched? ==>
      r == Some(Between(window.value, latest.commitId, previousId.value))
  {
    match previousId
    case None => Some([latest])
    case Some(prev) =>
      if prev == latest.commitId then Some([])
      else
        match window
        case FetchFailed => None
        case Fetched(w) => Some(Between(w, latest.commitId, prev))
  }

  /** A window that starts at the current head and reaches the previous
      build's commit yields exactly the commits before it. */
  lemma WindowUpToPrevious(w: seq<Commit>, current: string, previous: string, n: nat)
    requires 0 < n < |w| && w[0].commitId == current && w[n].commitId == previous
    requires forall k :: 0 <= k < n ==> w[k].commitId != previous
    ensures Between(w, current, previous) == w[..n]
  {
    assert IndexOfId(w, current, 0) == 0;
    assert IndexOfId(w, previous, 0) == n;
  }

  /** The loop of checkout over the listed commits, with its foundCurrent flag
      and its break at the previous build's commit. */
  method CollectSince(allCommits: seq<Commit>, currentCommitId: string, previousCommitId: string)
    returns (commits: seq<Commit>)
    ensures commits == Between(allCommits, currentCommitId, previousCommitId)
  {
    ghost var first := IndexOfId(allCommits, currentCommitId, 0);
    commits := [];
    var foundCurrent := false;
    var i := 0;
    while i < |allCommits|
      invariant i <= |allCommits|
      invariant foundCurrent <==> first < i
      invariant !foundCurrent ==> commits == []
      invariant foundCurrent ==> commits == allCommits[first..i]
      invariant foundCurrent ==> forall k :: first <= k < i ==> allCommits[k].commitId != previousCommitId
    {
      var commit := allCommits[i];
      if commit.commitId == currentCommitId {
        foundCurrent := true;
      }
      if foundCurrent {
        if commit.commitId == previousCommitId {
          assert IndexOfId(allCommits, previousCommitId, first) == i;
          return;
        }
        assert allCommits[first..i + 1] == allCommits[first..i] + [commit];
        commits := commits + [commit];
      }
      i := i + 1;
    }
    if foundCurrent {
      assert IndexOfId(allCommits, previousCommitId, first) == |allCommits|;
    }
  }
}
