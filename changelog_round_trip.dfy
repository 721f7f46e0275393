/** What the parser reads back from the changelog checkout writes. The XML
    parser is abstracted as the text content it reports for each element:
    the written character data with the five predefined entities decoded. */
module ChangelogRoundTrip {
  import opened Wrappers
  import opened Strings
  import opened JavaLang
  import opened ApiTypes
  import opened ChangelogXml
  import opened ChangeLogEntries
  import opened ChangeLogParser

  /** The text a parser reports for character data the writer escaped. */
  function CharData(text: Option<string>): string {
    Unescape(EscapeXml(text))
  }

  /** The `<file>` elements of an entry. */
  function FileNodes(files: seq<string>): (r: seq<Node>)
    ensures |r| == |files|
  {
    if files == [] then []
    else FileNodes(files[..|files| - 1]) + [Node("file", CharData(Some(files[|files| - 1])))]
  }

  /** The lines inside the `<files>` element. */
  function FileLinesText(files: seq<string>): string {
    if files == [] then ""
    else FileLinesText(files[..|files| - 1]) + "      " + CharData(Some(files[|files| - 1])) + "\n"
  }

  /** The elements below one written `<entry>`, in document order. */
  function WrittenElements(c: Commit): seq<Node>
    requires c.author.Some?
  {
    [Node("commitId", CharData(Some(c.commitId))),
     Node("msg", CharData(c.commitMessage)),
     Node("author", CharData(c.author.value.name)),
     Node("timestamp", LongToString(c.createdTs))]
    + (if c.changedFiles.Some? && c.changedFiles.value != [] then
         [Node("files", "\n" + FileLinesText(c.changedFiles.value) + "    ")] + FileNodes(c.changedFiles.value)
       else [])
  }

  /** The document checkout writes for the selected commits, as the parser
      sees it; it exists when the writer did not abort. */
  function WrittenDocument(commits: seq<Commit>): ChangelogFile
    requires ChangelogDocument(commits).Some?
  {
    Document(seq(|commits|, i requires 0 <= i < |commits| => WrittenElements(commits[i])))
  }

  /** The changed files as the parser reports them: trimmed, blanks left out. */
  function TrimmedPaths(files: seq<string>): seq<string> {
    if files == [] then []
    else
      var init := TrimmedPaths(files[..|files| - 1]);
      var p := Trim(files[|files| - 1]);
      if p != "" then init + [p] else init
  }

  lemma {:induction false} AffectedPathsConcat(a: seq<Node>, b: seq<Node>)
    ensures AffectedPaths(a + b) == AffectedPaths(a) + AffectedPaths(b)
    decreases |b|
  {
    if b == [] {
      assert a + b == a;
    } else {
      var b' := b[..|b| - 1];
      assert (a + b)[..|a + b| - 1] == a + b';
      assert (a + b)[|a + b| - 1] == b[|b| - 1];
      AffectedPathsConcat(a, b');
    }
  }

  lemma {:induction false} FileNodesAffectedPaths(files: seq<string>)
    ensures AffectedPaths(FileNodes(files)) == TrimmedPaths(files)
  {
    if files != [] {
      var init := files[..|files| - 1];
      var last := files[|files| - 1];
      FileNodesAffectedPaths(init);
      UnescapeEscapeXml(Some(last));
      AffectedPathsConcat(FileNodes(init), [Node("file", CharData(Some(last)))]);
      assert AffectedPaths([Node("file", CharData(Some(last)))]) == if Trim(last) != "" then [Trim(last)] else [] by {
        assert [Node("file", CharData(Some(last)))][..0] == [];
      }
    }
  }

  lemma {:induction false} NoFileNodes(nodes: seq<Node>)
    requires forall k :: 0 <= k < |nodes| ==> nodes[k].tag != "file"
    ensures AffectedPaths(nodes) == []
  {
    if nodes != [] {
      NoFileNodes(nodes[..|nodes| - 1]);
    }
  }

  /** An entry element carries no `<file>` element other than those of its
      `<files>` block. */
  lemma WrittenAffectedPaths(c: Commit)
    requires c.author.Some?
    ensures AffectedPaths(WrittenElements(c)) == TrimmedPaths(c.changedFiles.GetOr([]))
  {
    var head := [Node("commitId", CharData(Some(c.commitId))),
                 Node("msg", CharData(c.commitMessage)),
                 Node("author", CharData(c.author.value.name)),
                 Node("timestamp", LongToString(c.createdTs))];
    NoFileNodes(head);
    if c.changedFiles.Some? && c.changedFiles.value != [] {
      var files := c.changedFiles.value;
      var block := [Node("files", "\n" + FileLinesText(files) + "    ")];
      NoFileNodes(block);
      assert WrittenElements(c) == head + (block + FileNodes(files));
      AffectedPathsConcat(head, block + FileNodes(files));
      AffectedPathsConcat(block, FileNodes(files));
      FileNodesAffectedPaths(files);
    } else {
      assert WrittenElements(c) == head;
      assert c.changedFiles.GetOr([]) == [];
    }
  }

  /** The parser reads back what the writer wrote for a commit: its id, its
      message (null read as ""), its author's name, its timestamp, and its
      changed files trimmed with blank ones dropped. */
  lemma WrittenEntryParsesBack(c: Commit, nowMillis: Long)
    requires c.author.Some?
    ensures ParseEntry(WrittenElements(c), nowMillis).commitId == Some(c.commitId)
    ensures ParseEntry(WrittenElements(c), nowMillis).message == Some(c.commitMessage.GetOr(""))
    ensures ParseEntry(WrittenElements(c), nowMillis).author == Some(ParsedAuthor(c.author.value.name.GetOr("")))
    ensures ParseEntry(WrittenElements(c), nowMillis).timestamp == c.createdTs
    ensures ParseEntry(WrittenElements(c), nowMillis).affectedPaths == TrimmedPaths(c.changedFiles.GetOr([]))
  {
    var nodes := WrittenElements(c);
    UnescapeEscapeXml(Some(c.commitId));
    UnescapeEscapeXml(c.commitMessage);
    UnescapeEscapeXml(c.author.value.name);
    assert ElementText(nodes, "commitId") == c.commitId;
    assert nodes[0].tag != "msg";
    assert nodes[1] == Node("msg", CharData(c.commitMessage));
    assert ElementText(nodes, "msg") == c.commitMessage.GetOr("");
    assert nodes[0].tag != "author" && nodes[1].tag != "author";
    assert nodes[2] == Node("author", CharData(c.author.value.name));
    assert ElementText(nodes, "author") == c.author.value.name.GetOr("");
    assert nodes[0].tag != "timestamp" && nodes[1].tag != "timestamp" && nodes[2].tag != "timestamp";
    assert nodes[3] == Node("timestamp", LongToString(c.createdTs));
    assert ElementText(nodes, "timestamp") == LongToString(c.createdTs);
    ParseLongOfLongToString(c.createdTs);
    WrittenAffectedPaths(c);
  }

  /** Whatever changelog the writer completes, when every written text holds
      only characters XML allows, the parser reads back one entry per selected
      commit, in order, each attached to the set. */
  lemma ChangelogParsesBack(commits: seq<Commit>, nowMillis: Long)
    requires ChangelogDocument(commits).Some?
    ensures |ParseChangelog(WrittenDocument(commits), nowMillis)| == |commits|
    ensures forall i :: 0 <= i < |commits| ==>
      ParseChangelog(WrittenDocument(commits), nowMillis)[i].commitId == Some(commits[i].commitId)
      && ParseChangelog(WrittenDocument(commits), nowMillis)[i].timestamp == commits[i].createdTs
      && ParseChangelog(WrittenDocument(commits), nowMillis)[i].hasParent
  {
    forall i | 0 <= i < |commits|
      ensures ParseChangelog(WrittenDocument(commits), nowMillis)[i].commitId == Some(commits[i].commitId)
      ensures ParseChangelog(WrittenDocument(commits), nowMillis)[i].timestamp == commits[i].createdTs
      ensures ParseChangelog(WrittenDocument(commits), nowMillis)[i].hasParent
    {
      WrittenEntryParsesBack(commits[i], nowMillis);
    }
  }

  /** The parsed entry of a commit with a non-empty id is displayed as that id
      and the commit's message. */
  lemma ParsedEntryDisplayName(c: Commit, nowMillis: Long)
    requires c.author.Some? && c.commitId != ""
    ensures DisplayName(ParseEntry(WrittenElements(c), nowMillis)) == Some(c.commitId + Separator + c.commitMessage.GetOr(""))
  {
    WrittenEntryParsesBack(c, nowMillis);
  }
}
