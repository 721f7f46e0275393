/** DiversionChangeLogParser: reads the changelog file checkout wrote back
    into entries. The XML parser itself is abstracted: an `<entry>` element
    is given by the elements below it, in document order, each with its tag
    and its text content. */
module ChangeLogParser {
  import opened Wrappers
  import opened Strings
  import opened JavaLang
  import opened ApiTypes
  import opened ChangeLogEntries

  /** An element below an `<entry>`: its tag name and its text content. */
  datatype Node = Node(tag: string, text: string)

  /** The changelog file: absent, not well-formed XML, or a document with its
      `<entry>` elements in document order. */
  datatype ChangelogFile = NoFile | Unparsable | Document(entries: seq<seq<Node>>)

  /** getElementText: the text of the first element with the tag, or "" when
      there is none. */
  function ElementText(nodes: seq<Node>, tag: string): (r: string)
    ensures (forall k :: 0 <= k < |nodes| ==> nodes[k].tag != tag) ==> r == ""
    ensures forall k :: 0 <= k < |nodes| && nodes[k].tag == tag && (forall j :: 0 <= j < k ==> nodes[j].tag != tag)
              ==> r == nodes[k].text
  {
    if nodes == [] then ""
    else if nodes[0].tag == tag then nodes[0].text
    else
      var r := ElementText(nodes[1..], tag);
      assert forall k :: 0 < k < |nodes| ==> nodes[k] == nodes[1..][k - 1];
      r
  }

  /** A non-empty string with no blank at either end. */
  predicate Trimmed(p: string) {
    p != "" && p[0] > ' ' && p[|p| - 1] > ' '
  }

  /** The affected paths of an entry: the trimmed texts of its `<file>`
      elements, in order, leaving out blank ones. */
  function AffectedPaths(nodes: seq<Node>): seq<string> {
    if nodes == [] then []
    else
      var init := AffectedPaths(nodes[..|nodes| - 1]);
      var last := nodes[|nodes| - 1];
      var p := Trim(last.text);
      if last.tag == "file" && p != "" then init + [p] else init
  }

  /** At most one path per element, each non-empty with no blank at either end. */
  lemma {:induction false} AffectedPathsAreTrimmed(nodes: seq<Node>)
    ensures |AffectedPaths(nodes)| <= |nodes|
    ensures forall k :: 0 <= k < |AffectedPaths(nodes)| ==> Trimmed(AffectedPaths(nodes)[k])
  {
    if nodes != [] {
      var init := nodes[..|nodes| - 1];
      AffectedPathsAreTrimmed(init);
      var r := AffectedPaths(nodes);
      if |r| > |AffectedPaths(init)| {
        forall k | 0 <= k < |r| ensures Trimmed(r[k]) {
          if k < |AffectedPaths(init)| {
            assert r[k] == AffectedPaths(init)[k];
          }
        }
      }
    }
  }

  /** The timestamp element read as a `long`; when it does not parse, the
      clock's time in seconds. */
  function ParseTimestamp(text: string, nowMillis: Long): (t: Long)
    ensures ParseLong(text).Some? ==> t == ParseLong(text).value
    ensures ParseLong(text).None? ==> t == MillisToSeconds(nowMillis)
  {
    match ParseLong(text)
    case Some(v) => v
    case None => MillisToSeconds(nowMillis)
  }

  /** The author the parser makes up from the `<author>` text. */
  function ParsedAuthor(name: string): (a: Author)
    ensures a.name == Some(name) && a.fullName == Some(name)
    ensures a.id == Some("") && a.email == Some("")
  {
    Author(Some(""), Some(name), Some(name), Some(""))
  }

  /** The entry made from one `<entry>` element. */
  function ParseEntry(nodes: seq<Node>, nowMillis: Long): ChangeLogEntry {
    NewEntryWithPaths(
      Some(ElementText(nodes, "commitId")),
      Some(ElementText(nodes, "msg")),
      Some(ParsedAuthor(ElementText(nodes, "author"))),
      ParseTimestamp(ElementText(nodes, "timestamp"), nowMillis),
      Some(AffectedPaths(nodes)))
  }

  /** The entries of the change log set parse() returns, each attached to
      the set. A missing or unparsable file gives the empty set. */
  function ParseChangelog(file: ChangelogFile, nowMillis: Long): (r: seq<ChangeLogEntry>)
    ensures file.NoFile? || file.Unparsable? ==> r == []
    ensures file.Document? ==> |r| == |file.entries|
    ensures file.Document? ==> forall i :: 0 <= i < |r| ==> r[i] == ParseEntry(file.entries[i], nowMillis).(hasParent := true)
  {
    match file
    case Document(es) =>
      seq(|es|, i requires 0 <= i < |es| => ParseEntry(es[i], nowMillis).(hasParent := true))
    case _ => []
  }

  /** The loop over an entry's `<file>` elements. */
  method ReadAffectedPaths(nodes: seq<Node>) returns (affectedPaths: seq<string>)
    ensures affectedPaths == AffectedPaths(nodes)
  {
    affectedPaths := [];
    var j := 0;
    while j < |nodes|
      invariant j <= |nodes|
      invariant affectedPaths == AffectedPaths(nodes[..j])
    {
      assert nodes[..j + 1][..j] == nodes[..j];
      var node := nodes[j];
      if node.tag == "file" {
        var filePath := Trim(node.text);
        if filePath != "" {
          affectedPaths := affectedPaths + [filePath];
        }
      }
      j := j + 1;
    }
    assert nodes[..j] == nodes;
  }

  /** The body of parse()'s loop for one `<entry>` element. */
  method ReadEntry(entryElement: seq<Node>, nowMillis: Long) returns (entry: ChangeLogEntry)
    ensures entry == ParseEntry(entryElement, nowMillis)
  {
    var commitId := ElementText(entryElement, "commitId");
    var msg := ElementText(entryElement, "msg");
    var authorName := ElementText(entryElement, "author");
    var timestamp := ParseTimestamp(ElementText(entryElement, "timestamp"), nowMillis);
    var affectedPaths := ReadAffectedPaths(entryElement);
    entry := NewEntryWithPaths(Some(commitId), Some(msg), Some(ParsedAuthor(authorName)), timestamp, Some(affectedPaths));
  }

  /** The entries the first loop of parse() has built after reading the
      elements `es`. */
  function ReadSoFar(es: seq<seq<Node>>, nowMillis: Long): (r: seq<ChangeLogEntry>)
    ensures |r| == |es|
  {
    if es == [] then []
    else ReadSoFar(es[..|es| - 1], nowMillis) + [ParseEntry(es[|es| - 1], nowMillis)]
  }

  /** The k-th entry read is the entry made from the k-th element. */
  lemma {:induction false} ReadSoFarAt(es: seq<seq<Node>>, nowMillis: Long, k: nat)
    requires k < |es|
    ensures ReadSoFar(es, nowMillis)[k] == ParseEntry(es[k], nowMillis)
  {
    if k < |es| - 1 {
      ReadSoFarAt(es[..|es| - 1], nowMillis, k);
    }
  }

  /** The first loop of parse(): one entry per `<entry>` element, in order. */
  method ReadEntries(entryNodes: seq<seq<Node>>, nowMillis: Long) returns (entries: seq<ChangeLogEntry>)
    ensures entries == ReadSoFar(entryNodes, nowMillis)
  {
    entries := [];
    var i := 0;
    while i < |entryNodes|
      invariant i <= |entryNodes|
      invariant entries == ReadSoFar(entryNodes[..i], nowMillis)
    {
      assert entryNodes[..i + 1][..i] == entryNodes[..i];
      var entry := ReadEntry(entryNodes[i], nowMillis);
      entries := entries + [entry];
      i := i + 1;
    }
    assert entryNodes[..i] == entryNodes;
  }

  /** The second loop of parse(): attaches every entry to the set. */
  method AttachEntries(parsed: seq<ChangeLogEntry>) returns (entries: seq<ChangeLogEntry>)
    ensures |entries| == |parsed|
    ensures forall k :: 0 <= k < |entries| ==> entries[k] == parsed[k].(hasParent := true)
  {
    entries := parsed;
    var k := 0;
    while k < |entries|
      invariant k <= |entries| == |parsed|
      invariant forall m :: 0 <= m < k ==> entries[m] == parsed[m].(hasParent := true)
      invariant forall m :: k <= m < |entries| ==> entries[m] == parsed[m]
    {
      entries := entries[k := entries[k].(hasParent := true)];
      k := k + 1;
    }
  }

  /** parse(): a missing or unparsable file gives the empty set; otherwise
      the entries are read, then attached to the set. */
  method Parse(file: ChangelogFile, nowMillis: Long) returns (entries: seq<ChangeLogEntry>)
    ensures entries == ParseChangelog(file, nowMillis)
  {
    entries := [];
    if file.NoFile? || file.Unparsable? {
      return;
    }
    var parsed := ReadEntries(file.entries, nowMillis);
    entries := AttachEntries(parsed);
    forall k | 0 <= k < |entries|
      ensures entries[k] == ParseChangelog(file, nowMillis)[k]
    {
      ReadSoFarAt(file.entries, nowMillis, k);
    }
  }
}
