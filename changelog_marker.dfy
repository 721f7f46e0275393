/** The per-build changelog marker of DiversionSCM.checkout: several checkouts
    of one build (the pipeline script, shared libraries) share a marker that
    decides which of them writes a changelog. */
module ChangelogMarker {
  import opened Wrappers

  /** The values of the "<build key>.changelog" marker. */
  datatype Marker = Script | Library | LibrarySkipped

  /** What one checkout decides: write a changelog of commits, or write the
      empty changelog because the pipeline reads the same repository. */
  datatype Claim = Claim(shouldWrite: bool, skipForSameRepo: bool)

  /** One checkout of a build: a library checkout or the script checkout, the
      repository the pipeline is configured with (if it could be determined),
      and the repository being checked out. */
  datatype Checkout = Checkout(isLibrary: bool, pipelineRepositoryId: Option<string>, repositoryId: string)

  datatype Step = Step(claim: Claim, next: Marker)

  /** The decision of one checkout given the marker it finds. */
  function Transition(current: Option<Marker>, c: Checkout): (s: Step)
    ensures !(s.claim.shouldWrite && s.claim.skipForSameRepo)
    ensures current == Some(Script) ==> s == Step(Claim(false, false), Script)
    ensures current.Some? && c.isLibrary ==> s == Step(Claim(false, false), current.value)
    ensures s.claim.skipForSameRepo <==>
      current.None? && c.isLibrary && c.pipelineRepositoryId == Some(c.repositoryId)
    ensures s.claim.shouldWrite <==>
      (!c.isLibrary && current != Some(Script)) || (current.None? && c.isLibrary && c.pipelineRepositoryId != Some(c.repositoryId))
    ensures !c.isLibrary ==> s.next == Script
    ensures current.None? && c.isLibrary ==>
      s.next == if c.pipelineRepositoryId == Some(c.repositoryId) then LibrarySkipped else Library
  {
    match current
    case None =>
      if !c.isLibrary then Step(Claim(true, false), Script)
      else if c.pipelineRepositoryId.Some? && c.pipelineRepositoryId.value == c.repositoryId then
        Step(Claim(false, true), LibrarySkipped)
      else Step(Claim(true, false), Library)
    case Some(Script) => Step(Claim(false, false), Script)
    case Some(m) =>
      if !c.isLibrary then Step(Claim(true, false), Script)
      else Step(Claim(false, false), m)
  }

  /** The claims of a sequence of checkouts of one build, starting from a
      marker, and the marker they leave. */
  function Run(checkouts: seq<Checkout>, start: Option<Marker>): (r: (seq<Claim>, Option<Marker>))
    ensures |r.0| == |checkouts|
    ensures checkouts != [] ==> r.1.Some?
    ensures checkouts == [] ==> r.1 == start
  {
    if checkouts == [] then ([], start)
    else
      var s := Transition(start, checkouts[0]);
      var rest := Run(checkouts[1..], Some(s.next));
      ([s.claim] + rest.0, rest.1)
  }

  /** Once the script has been checked out, no later checkout of the build
      writes anything, and the marker stays "script". */
  lemma {:induction false} ScriptIsAbsorbing(checkouts: seq<Checkout>)
    ensures Run(checkouts, Some(Script)).1 == Some(Script)
    ensures forall i :: 0 <= i < |checkouts| ==> Run(checkouts, Some(Script)).0[i] == Claim(false, false)
  {
    if checkouts != [] {
      ScriptIsAbsorbing(checkouts[1..]);
    }
  }

  /** With some marker already set, library checkouts claim nothing and keep it. */
  lemma {:induction false} LibrariesAfterFirstClaimNothing(checkouts: seq<Checkout>, m: Marker)
    requires forall i :: 0 <= i < |checkouts| ==> checkouts[i].isLibrary
    ensures Run(checkouts, Some(m)).1 == Some(m)
    ensures forall i :: 0 <= i < |checkouts| ==> Run(checkouts, Some(m)).0[i] == Claim(false, false)
  {
    if checkouts != [] {
      LibrariesAfterFirstClaimNothing(checkouts[1..], m);
    }
  }

  /** A library checkout writes (or writes the empty changelog) only when it is
      the first checkout of the build. */
  lemma LibraryClaimsOnlyFirst(checkouts: seq<Checkout>)
    ensures forall i :: 0 < i < |checkouts| && checkouts[i].isLibrary ==> Run(checkouts, None).0[i] == Claim(false, false)
  {
    if checkouts != [] {
      var s := Transition(None, checkouts[0]);
      forall i | 0 < i < |checkouts| && checkouts[i].isLibrary
        ensures Run(checkouts, None).0[i] == Claim(false, false)
      {
        LibraryNeverClaimsAfterMarker(checkouts[1..], s.next, i - 1);
      }
    }
  }

  lemma {:induction false} LibraryNeverClaimsAfterMarker(checkouts: seq<Checkout>, m: Marker, i: nat)
    requires i < |checkouts| && checkouts[i].isLibrary
    ensures Run(checkouts, Some(m)).0[i] == Claim(false, false)
  {
    var s := Transition(Some(m), checkouts[0]);
    if i > 0 {
      LibraryNeverClaimsAfterMarker(checkouts[1..], s.next, i - 1);
    }
  }

  /** A script checkout writes a changelog exactly when it is the first script
      checkout of the build (and the build did not start with the "script"
      marker). */
  lemma {:induction false} ScriptWritesIffFirstScript(checkouts: seq<Checkout>, start: Option<Marker>, i: nat)
    requires i < |checkouts| && !checkouts[i].isLibrary
    ensures Run(checkouts, start).0[i].shouldWrite <==>
      start != Some(Script) && forall j :: 0 <= j < i ==> checkouts[j].isLibrary
  {
    var s := Transition(start, checkouts[0]);
    if i > 0 {
      ScriptWritesIffFirstScript(checkouts[1..], Some(s.next), i - 1);
      assert forall j :: 1 <= j < i ==> checkouts[1..][j - 1] == checkouts[j];
      if !checkouts[0].isLibrary {
        assert s.next == Script;
      } else {
        assert forall j :: 0 <= j < i - 1 ==> checkouts[1..][j] == checkouts[j + 1];
      }
    }
  }

  /** A script checkout followed, in the same build, by a library checkout of
      the same repository leaves the library's changelog unwritten: the
      "script" marker absorbs it. */
  lemma ScriptThenSameRepositoryLibrary(repositoryId: string)
    ensures Run([Checkout(false, Some(repositoryId), repositoryId), Checkout(true, Some(repositoryId), repositoryId)], None).0
            == [Claim(true, false), Claim(false, false)]
  {
  }

  /** The System properties the markers live in, as a map from build key. */
  class ChangelogMarkers {
    var markers: map<string, Marker>

    constructor ()
      ensures markers == map[]
    {
      markers := map[];
    }

    /** The marker of a build, if set. */
    function MarkerOf(buildKey: string): Option<Marker>
      reads this
    {
      if buildKey in markers then Some(markers[buildKey]) else None
    }

    /** The synchronized block of checkout: reads the build's marker, decides,
        and stores the new marker. Other builds' markers are untouched. */
    method ClaimChangelog(buildKey: string, c: Checkout) returns (claim: Claim)
      modifies this
      ensures claim == Transition(old(MarkerOf(buildKey)), c).claim
      ensures markers == old(markers)[buildKey := Transition(old(MarkerOf(buildKey)), c).next]
    {
      var alreadyWritten := if buildKey in markers then Some(markers[buildKey]) else None;
      var shouldWriteChangelog := false;
      var skipForSameRepo := false;
      if alreadyWritten.None? {
        if !c.isLibrary {
          shouldWriteChangelog := true;
          markers := markers[buildKey := Script];
        } else if c.pipelineRepositoryId.Some? && c.pipelineRepositoryId.value == c.repositoryId {
          skipForSameRepo := true;
          markers := markers[buildKey := LibrarySkipped];
        } else {
          shouldWriteChangelog := true;
          markers := markers[buildKey := Library];
        }
      } else if (alreadyWritten.value == Library || alreadyWritten.value == LibrarySkipped) && !c.isLibrary {
        shouldWriteChangelog := true;
        markers := markers[buildKey := Script];
      }
      return Claim(shouldWriteChangelog, skipForSameRepo);
    }
  }
}
