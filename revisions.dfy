/** DiversionSCMRevisionState and DiversionSCMRevision: the values Jenkins keeps
    to compare builds, with their Java equals and hashCode. */
module Revisions {
  import opened JavaLang
  import opened ApiTypes

  /** What `equals(Object o)` can be handed: null, an object of some other
      class, or an object of the same class. */
  datatype Other<T> = NullRef | OtherClass | SameClass(value: T)

  /** The state of the branch a build was made from. */
  datatype RevisionState = RevisionState(commitId: string, timestamp: Long)

  /** DiversionSCMRevisionState.equals: an object of the same class with the
      same commit id and timestamp. */
  predicate StateEquals(a: RevisionState, o: Other<RevisionState>)
  {
    match o
    case NullRef => false
    case OtherClass => false
    case SameClass(b) => a.timestamp == b.timestamp && a.commitId == b.commitId
  }

  /** DiversionSCMRevisionState.hashCode: `commitId.hashCode() + (int) timestamp`
      in `int` arithmetic. */
  function StateHash(a: RevisionState): Int32 {
    ToInt32(StringHash(a.commitId) + ToInt32(a.timestamp))
  }

  /** equals holds exactly between states with the same fields; in particular
      it is reflexive, symmetric and transitive. */
  lemma StateEqualsIsFieldEquality(a: RevisionState, o: Other<RevisionState>)
    ensures StateEquals(a, o) <==> o == SameClass(a)
  {
  }

  /** Equal states hash alike. */
  lemma StateHashAgreesWithEquals(a: RevisionState, b: RevisionState)
    requires StateEquals(a, SameClass(b))
    ensures StateHash(a) == StateHash(b)
  {
  }

  /** The timestamp's contribution to the hash is its low 32 bits: timestamps
      that differ by a multiple of 2^32 hash alike. */
  lemma StateHashSeesLowBitsOnly(commitId: string, t: Long, u: Long)
    requires (t - u) % TWO_32 == 0
    ensures StateHash(RevisionState(commitId, t)) == StateHash(RevisionState(commitId, u))
  {
    ToInt32Congruent(t, u);
  }

  /** A specific commit of a branch head. */
  datatype Revision = Revision(head: ScmHead, commitId: string)

  /** DiversionSCMRevision.equals: an object of the same class with the same
      commit id, whatever its head. */
  predicate RevisionEquals(a: Revision, o: Other<Revision>) {
    match o
    case NullRef => false
    case OtherClass => false
    case SameClass(b) => a.commitId == b.commitId
  }

  /** DiversionSCMRevision.hashCode. */
  function RevisionHash(a: Revision): Int32 {
    StringHash(a.commitId)
  }

  /** equals compares commit ids only; it is reflexive and symmetric, and equal
      revisions hash alike. */
  lemma RevisionEqualsIgnoresHead(a: Revision, b: Revision)
    ensures RevisionEquals(a, SameClass(b)) <==> a.commitId == b.commitId
    ensures RevisionEquals(a, SameClass(a))
    ensures RevisionEquals(a, SameClass(b)) <==> RevisionEquals(b, SameClass(a))
    ensures RevisionEquals(a, SameClass(b)) ==> RevisionHash(a) == RevisionHash(b)
  {
  }
}
