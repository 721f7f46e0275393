/** DiversionChangeLogEntry: one commit as Jenkins shows it under "Changes". */
module ChangeLogEntries {
  import opened Wrappers
  import opened Strings
  import opened JavaLang
  import opened ApiTypes

  /** An entry's fields, all final. A null commit id, message or author is
      None. `hasParent` records whether the entry has been attached to its
      change log set. */
  datatype ChangeLogEntry = ChangeLogEntry(
    commitId: Option<string>,
    message: Option<string>,
    author: Option<Author>,
    timestamp: Long,
    affectedPaths: seq<string>,
    hasParent: bool)

  /** The four-argument constructor: no affected paths. */
  function NewEntry(commitId: Option<string>, message: Option<string>, author: Option<Author>, timestamp: Long): (e: ChangeLogEntry)
    ensures e.commitId == commitId && e.message == message && e.author == author && e.timestamp == timestamp
    ensures e.affectedPaths == [] && !e.hasParent
  {
    ChangeLogEntry(commitId, message, author, timestamp, [], false)
  }

  /** The five-argument constructor: a null collection of paths reads as empty. */
  function NewEntryWithPaths(commitId: Option<string>, message: Option<string>, author: Option<Author>, timestamp: Long,
                             affectedPaths: Option<seq<string>>): (e: ChangeLogEntry)
    ensures e.commitId == commitId && e.message == message && e.author == author && e.timestamp == timestamp
    ensures e.affectedPaths == affectedPaths.GetOr([]) && !e.hasParent
  {
    ChangeLogEntry(commitId, message, author, timestamp, if affectedPaths.Some? then affectedPaths.value else [], false)
  }

  /** Without paths, the five-argument constructor agrees with the four-argument one. */
  lemma NullPathsIsFourArgumentEntry(commitId: Option<string>, message: Option<string>, author: Option<Author>, timestamp: Long)
    ensures NewEntryWithPaths(commitId, message, author, timestamp, None) == NewEntry(commitId, message, author, timestamp)
    ensures NewEntryWithPaths(commitId, message, author, timestamp, Some([])) == NewEntry(commitId, message, author, timestamp)
  {
  }

  /** A possibly null String in a Java string concatenation. */
  function JavaStr(s: Option<string>): string {
    if s.Some? then s.value else "null"
  }

  /** The separator getDisplayName puts between commit id and message. */
  const Separator: string := " — "

  /** getDisplayName(), and getMsgAnnotated(), whose body is the same: the
      commit id and the message when there is a non-empty commit id, else
      the message itself (possibly null). */
  function DisplayName(e: ChangeLogEntry): (r: Option<string>)
    ensures NonEmpty(e.commitId) ==> (r.Some? && StartsWith(r.value, e.commitId.value + Separator)
      && EndsWith(r.value, JavaStr(e.message))
      && |r.value| == |e.commitId.value| + |Separator| + |JavaStr(e.message)|)
    ensures !NonEmpty(e.commitId) ==> r == e.message
  {
    if e.commitId.Some? && e.commitId.value != "" then
      var s := e.commitId.value + Separator + JavaStr(e.message);
      assert s[..|e.commitId.value + Separator|] == e.commitId.value + Separator;
      assert s[|s| - |JavaStr(e.message)|..] == JavaStr(e.message);
      Some(s)
    else e.message
  }

  /** toString(): commit id and message joined by ": ", nulls written "null". */
  function ToString(e: ChangeLogEntry): (r: string)
    ensures StartsWith(r, JavaStr(e.commitId) + ": ") && EndsWith(r, JavaStr(e.message))
    ensures |r| == |JavaStr(e.commitId)| + 2 + |JavaStr(e.message)|
  {
    var s := JavaStr(e.commitId) + ": " + JavaStr(e.message);
    assert s[..|JavaStr(e.commitId) + ": "|] == JavaStr(e.commitId) + ": ";
    assert s[|s| - |JavaStr(e.message)|..] == JavaStr(e.message);
    s
  }

  /** getDate(): the timestamp, in seconds, as milliseconds, in `long`
      arithmetic. */
  function DateMillis(e: ChangeLogEntry): (ms: Long)
    ensures -9_223_372_036_854_775 <= e.timestamp <= 9_223_372_036_854_775 ==> ms == e.timestamp * 1000
    ensures (ms - e.timestamp * 1000) % TWO_64 == 0
  {
    WrapLong(e.timestamp as int * 1000)
  }

  /** getAuthor(): the Jenkins user named after the author, or the unknown
      user (None) when there is no author or it has no name. */
  function UserName(e: ChangeLogEntry): (r: Option<string>)
    ensures r.Some? <==> e.author.Some? && e.author.value.name.Some?
    ensures r.Some? ==> r == e.author.value.name
  {
    match e.author
    case None => None
    case Some(a) => a.name
  }
}
