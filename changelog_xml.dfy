/** The changelog document DiversionSCM.checkout writes, and the escaping it
    applies to text: the five predefined entities of XML 1.0 (section 4.6 of the
    XML 1.0 specification). */
module ChangelogXml {
  import opened Wrappers
  import opened JavaLang
  import opened ApiTypes

  /** `s.replace(c, rep)` for a one-character target: every occurrence of `c`,
      left to right, becomes `rep`. */
  function ReplaceChar(s: string, c: char, rep: string): string {
    if s == [] then [] else (if s[0] == c then rep else [s[0]]) + ReplaceChar(s[1..], c, rep)
  }

  lemma {:induction false} ReplaceCharConcat(a: string, b: string, c: char, rep: string)
    ensures ReplaceChar(a + b, c, rep) == ReplaceChar(a, c, rep) + ReplaceChar(b, c, rep)
  {
    if a == [] {
      assert a + b == b;
    } else {
      assert (a + b)[0] == a[0];
      assert (a + b)[1..] == a[1..] + b;
      ReplaceCharConcat(a[1..], b, c, rep);
    }
  }

  lemma ReplaceCharSingle(c: char, x: char, rep: string)
    ensures ReplaceChar([c], x, rep) == if c == x then rep else [c]
  {
    assert [c][1..] == [];
  }

  lemma {:induction false} ReplaceCharAbsent(s: string, x: char, rep: string)
    requires x !in s
    ensures ReplaceChar(s, x, rep) == s
  {
    if s != [] {
      ReplaceCharAbsent(s[1..], x, rep);
      assert s == [s[0]] + s[1..];
    }
  }

  /** The chain of replacements escapeXml applies to a non-null string, "&" first. */
  function ReplaceChain(s: string): string {
    ReplaceChar(ReplaceChar(ReplaceChar(ReplaceChar(ReplaceChar(s, '&', "&amp;"), '<', "&lt;"), '>', "&gt;"), '"', "&quot;"), '\'', "&apos;")
  }

  /** escapeXml: "" for null, otherwise the replacement chain. */
  function EscapeXml(text: Option<string>): string {
    match text
    case None => ""
    case Some(s) => ReplaceChain(s)
  }

  /** The entity that stands for one character (XML 1.0, section 4.6). */
  function EscapeChar(c: char): string {
    if c == '&' then "&amp;"
    else if c == '<' then "&lt;"
    else if c == '>' then "&gt;"
    else if c == '"' then "&quot;"
    else if c == '\'' then "&apos;"
    else [c]
  }

  /** Character-by-character escaping: the reference the chain is measured against. */
  function EscapeEach(s: string): string {
    if s == [] then [] else EscapeChar(s[0]) + EscapeEach(s[1..])
  }

  /** The chain applied to text without any of the five characters. */
  lemma ReplaceChainOfPlain(s: string)
    requires '&' !in s && '<' !in s && '>' !in s && '"' !in s && '\'' !in s
    ensures ReplaceChain(s) == s
  {
    ReplaceCharAbsent(s, '&', "&amp;");
    ReplaceCharAbsent(s, '<', "&lt;");
    ReplaceCharAbsent(s, '>', "&gt;");
    ReplaceCharAbsent(s, '"', "&quot;");
    ReplaceCharAbsent(s, '\'', "&apos;");
  }

  /** Each step of the chain leaves the entities of the earlier steps alone:
      only the step for the character itself changes it. */
  lemma ReplaceChainOfChar(c: char)
    ensures ReplaceChain([c]) == EscapeChar(c)
  {
    if c == '&' {
      ReplaceCharSingle(c, '&', "&amp;");
      EntityKept("&amp;");
    } else if c == '<' {
      ReplaceCharSingle(c, '&', "&amp;");
      ReplaceCharSingle(c, '<', "&lt;");
      EntityKept("&lt;");
    } else if c == '>' {
      ReplaceCharSingle(c, '&', "&amp;");
      ReplaceCharSingle(c, '<', "&lt;");
      ReplaceCharSingle(c, '>', "&gt;");
      EntityKept("&gt;");
    } else if c == '"' {
      ReplaceCharSingle(c, '&', "&amp;");
      ReplaceCharSingle(c, '<', "&lt;");
      ReplaceCharSingle(c, '>', "&gt;");
      ReplaceCharSingle(c, '"', "&quot;");
      ReplaceCharAbsent("&quot;", '\'', "&apos;");
    } else if c == '\'' {
      ReplaceCharSingle(c, '&', "&amp;");
      ReplaceCharSingle(c, '<', "&lt;");
      ReplaceCharSingle(c, '>', "&gt;");
      ReplaceCharSingle(c, '"', "&quot;");
      ReplaceCharSingle(c, '\'', "&apos;");
    } else {
      ReplaceChainOfPlain([c]);
    }
  }

  /** The steps of the chain after the one for `c` leave its entity unchanged. */
  lemma EntityKept(e: string)
    requires '<' !in e && '>' !in e && '"' !in e && '\'' !in e
    ensures ReplaceChar(e, '<', "&lt;") == e
    ensures ReplaceChar(e, '>', "&gt;") == e
    ensures ReplaceChar(e, '"', "&quot;") == e
    ensures ReplaceChar(e, '\'', "&apos;") == e
  {
    ReplaceCharAbsent(e, '<', "&lt;");
    ReplaceCharAbsent(e, '>', "&gt;");
    ReplaceCharAbsent(e, '"', "&quot;");
    ReplaceCharAbsent(e, '\'', "&apos;");
  }

  lemma {:induction false} ReplaceChainConcat(a: string, b: string)
    ensures ReplaceChain(a + b) == ReplaceChain(a) + ReplaceChain(b)
  {
    var s1a, s1b := ReplaceChar(a, '&', "&amp;"), ReplaceChar(b, '&', "&amp;");
    ReplaceCharConcat(a, b, '&', "&amp;");
    var s2a, s2b := ReplaceChar(s1a, '<', "&lt;"), ReplaceChar(s1b, '<', "&lt;");
    ReplaceCharConcat(s1a, s1b, '<', "&lt;");
    var s3a, s3b := ReplaceChar(s2a, '>', "&gt;"), ReplaceChar(s2b, '>', "&gt;");
    ReplaceCharConcat(s2a, s2b, '>', "&gt;");
    var s4a, s4b := ReplaceChar(s3a, '"', "&quot;"), ReplaceChar(s3b, '"', "&quot;");
    ReplaceCharConcat(s3a, s3b, '"', "&quot;");
    ReplaceCharConcat(s4a, s4b, '\'', "&apos;");
  }

  /** Replacing "&" first makes the chain escape each character exactly once:
      the chain equals character-by-character escaping. */
  lemma {:induction false} ReplaceChainIsEscapeEach(s: string)
    ensures ReplaceChain(s) == EscapeEach(s)
  {
    if s != [] {
      assert s == [s[0]] + s[1..];
      ReplaceChainConcat([s[0]], s[1..]);
      ReplaceChainOfChar(s[0]);
      ReplaceChainIsEscapeEach(s[1..]);
    }
  }

  /** The characters markup is made of. */
  predicate IsMarkupChar(c: char) {
    c == '<' || c == '>' || c == '"' || c == '\''
  }

  lemma {:induction false} EscapeEachHasNoMarkup(s: string)
    ensures forall i :: 0 <= i < |EscapeEach(s)| ==> !IsMarkupChar(EscapeEach(s)[i])
  {
    if s != [] {
      EscapeEachHasNoMarkup(s[1..]);
      var e, rest := EscapeChar(s[0]), EscapeEach(s[1..]);
      assert EscapeEach(s) == e + rest;
      forall i | 0 <= i < |e + rest| ensures !IsMarkupChar((e + rest)[i]) {
        if i >= |e| {
          assert (e + rest)[i] == rest[i - |e|];
        }
      }
    }
  }

  /** Escaped text holds no raw "<", ">", '"' or "'". */
  lemma EscapeXmlHasNoMarkup(text: Option<string>)
    ensures forall i :: 0 <= i < |EscapeXml(text)| ==> !IsMarkupChar(EscapeXml(text)[i])
  {
    if text.Some? {
      ReplaceChainIsEscapeEach(text.value);
      EscapeEachHasNoMarkup(text.value);
    }
  }

  /** What an XML parser makes of character data: the five predefined entities
      decoded, every other character kept. */
  function Unescape(s: string): string {
    if s == [] then []
    else if |s| >= 5 && s[..5] == "&amp;" then "&" + Unescape(s[5..])
    else if |s| >= 4 && s[..4] == "&lt;" then "<" + Unescape(s[4..])
    else if |s| >= 4 && s[..4] == "&gt;" then ">" + Unescape(s[4..])
    else if |s| >= 6 && s[..6] == "&quot;" then "\"" + Unescape(s[6..])
    else if |s| >= 6 && s[..6] == "&apos;" then "'" + Unescape(s[6..])
    else [s[0]] + Unescape(s[1..])
  }

  /** Decoding reads one escaped character back and continues after it. */
  lemma UnescapeStep(c: char, rest: string)
    ensures Unescape(EscapeChar(c) + rest) == [c] + Unescape(rest)
  {
    var e := EscapeChar(c);
    var t := e + rest;
    assert t[..|e|] == e;
    assert t[|e|..] == rest;
    if c == '&' {
      assert t[..5] == "&amp;";
    } else if c == '<' {
      assert t[..4] == "&lt;";
      assert |t| >= 5 ==> t[..5][1] == 'l';
    } else if c == '>' {
      assert t[..4] == "&gt;";
      assert |t| >= 5 ==> t[..5][1] == 'g';
      assert t[..4][1] == 'g';
    } else if c == '"' {
      assert t[..6] == "&quot;";
      assert t[..5][1] == 'q' && t[..4][1] == 'q';
    } else if c == '\'' {
      assert t[..6] == "&apos;";
      assert t[..5][1] == 'a' && t[..5][2] == 'p' && t[..4][1] == 'a' && t[..6][1] == 'a' && t[..6][2] == 'p';
    } else {
      assert t[0] == c;
      assert |t| >= 4 ==> t[..4][0] == c;
      assert |t| >= 5 ==> t[..5][0] == c;
      assert |t| >= 6 ==> t[..6][0] == c;
    }
  }

  lemma {:induction false} UnescapeEscapeEach(s: string)
    ensures Unescape(EscapeEach(s)) == s
  {
    if s != [] {
      UnescapeStep(s[0], EscapeEach(s[1..]));
      UnescapeEscapeEach(s[1..]);
      assert s == [s[0]] + s[1..];
    }
  }

  /** Decoding the entities restores what escapeXml was given (null reads back
      as ""). */
  lemma UnescapeEscapeXml(text: Option<string>)
    ensures Unescape(EscapeXml(text)) == text.GetOr("")
  {
    if text.Some? {
      ReplaceChainIsEscapeEach(text.value);
      UnescapeEscapeEach(text.value);
    }
  }

  const XmlDeclaration: string := "<?xml version=\"1.0\" encoding=\"UTF-8\"?>\n"

  /** The document written when a library checkout is skipped as a duplicate. */
  const EmptyChangelog: string := XmlDeclaration + "<changelog>\n</changelog>\n"

  /** The `<file>` lines of an entry. */
  function FilesXml(files: seq<string>): string {
    if files == [] then ""
    else FilesXml(files[..|files| - 1]) + ElementLine("      ", "file", EscapeXml(Some(files[|files| - 1])))
  }

  /** The `<files>` block, written only for a non-null, non-empty list. */
  function FilesBlock(changedFiles: Option<seq<string>>): string {
    if changedFiles.Some? && changedFiles.value != [] then "    <files>\n" + FilesXml(changedFiles.value) + "    </files>\n"
    else ""
  }

  /** The `<entry>` element for one commit. A commit without an author makes the
      writer throw (None). */
  function EntryXml(c: Commit): Option<string> {
    if c.author.None? then None
    else Some(EntryHead(c) + FilesBlock(c.changedFiles) + "  </entry>\n")
  }

  /** The entries of the first commits, in order; None once one of them throws. */
  function EntriesXml(commits: seq<Commit>): (r: Option<string>)
    ensures r.Some? <==> forall i :: 0 <= i < |commits| ==> commits[i].author.Some?
  {
    if commits == [] then Some("")
    else
      var init := commits[..|commits| - 1];
      assert forall i :: 0 <= i < |init| ==> init[i] == commits[i];
      match EntriesXml(init)
      case None => None
      case Some(prefix) =>
        match EntryXml(commits[|commits| - 1])
        case None => None
        case Some(entry) => Some(prefix + entry)
  }

  /** The whole changelog document for the selected commits. */
  function ChangelogDocument(commits: seq<Commit>): Option<string> {
    match EntriesXml(commits)
    case None => None
    case Some(entries) => Some(XmlDeclaration + "<changelog>\n" + entries + "</changelog>\n")
  }

  /** With no commits selected, the writer produces exactly the document a
      skipped library checkout writes. */
  lemma NoCommitsIsEmptyChangelog()
    ensures ChangelogDocument([]) == Some(EmptyChangelog)
  {
    assert EntriesXml([]) == Some("");
    var open := XmlDeclaration + "<changelog>\n";
    assert open + "" == open;
    assert "<changelog>\n" + "</changelog>\n" == "<changelog>\n</changelog>\n";
    assert open + "</changelog>\n" == XmlDeclaration + ("<changelog>\n" + "</changelog>\n");
  }

  /** The entries are written in the order of the selected commits: one more
      commit appends exactly its entry. */
  lemma EntriesAppend(commits: seq<Commit>, c: Commit)
    requires EntriesXml(commits).Some? && EntryXml(c).Some?
    ensures EntriesXml(commits + [c]) == Some(EntriesXml(commits).value + EntryXml(c).value)
  {
    var all := commits + [c];
    assert all[..|all| - 1] == commits;
    assert all[|all| - 1] == c;
  }

  /** One `writer.write` of an element on a line of its own: the
      indentation, the start tag, the text, the end tag. */
  function ElementLine(indent: string, tag: string, raw: string): string {
    indent + "<" + tag + ">" + raw + "</" + tag + ">\n"
  }

  /** The lines of an entry before its `<files>` block. */
  function EntryHead(c: Commit): string
    requires c.author.Some?
  {
    "  <entry>\n"
      + ElementLine("    ", "commitId", EscapeXml(Some(c.commitId)))
      + ElementLine("    ", "msg", EscapeXml(c.commitMessage))
      + ElementLine("    ", "author", EscapeXml(c.author.value.name))
      + ElementLine("    ", "timestamp", LongToString(c.createdTs))
  }

  /** The `<file>` lines, one per changed file in order. */
  method WriteFiles(files: seq<string>) returns (out: string)
    ensures out == FilesXml(files)
  {
    out := "";
    var j := 0;
    while j < |files|
      invariant j <= |files|
      invariant out == FilesXml(files[..j])
    {
      out := out + ElementLine("      ", "file", EscapeXml(Some(files[j])));
      assert files[..j + 1][..j] == files[..j];
      j := j + 1;
    }
    assert files[..j] == files;
  }

  /** One `<entry>` element, for a commit that has an author: the writes of
      the loop body in checkout, one line at a time. It mirrors those appends
      one `ElementLine` per write; the contract ties the result to `EntryXml`,
      which builds the same lines through `EntryHead`. */
  method WriteEntry(commit: Commit) returns (entry: string)
    requires commit.author.Some?
    ensures EntryXml(commit) == Some(entry)
  {
    entry := "  <entry>\n";
    entry := entry + ElementLine("    ", "commitId", EscapeXml(Some(commit.commitId)));
    entry := entry + ElementLine("    ", "msg", EscapeXml(commit.commitMessage));
    entry := entry + ElementLine("    ", "author", EscapeXml(commit.author.value.name));
    entry := entry + ElementLine("    ", "timestamp", LongToString(commit.createdTs));
    var filesBlock := "";
    if commit.changedFiles.Some? && commit.changedFiles.value != [] {
      var fileLines := WriteFiles(commit.changedFiles.value);
      filesBlock := "    <files>\n" + fileLines + "    </files>\n";
    }
    entry := entry + filesBlock + "  </entry>\n";
  }

  /** The writer loop of checkout: the declaration, one entry per commit in
      order, the closing tag; a commit without an author aborts it. */
  method WriteChangelog(commits: seq<Commit>) returns (xml: Option<string>)
    ensures xml == ChangelogDocument(commits)
  {
    var entries := "";
    var i := 0;
    while i < |commits|
      invariant i <= |commits|
      invariant EntriesXml(commits[..i]) == Some(entries)
    {
      var commit := commits[i];
      if commit.author.None? {
        assert !(commits[i].author.Some?);
        return None;
      }
      var entry := WriteEntry(commit);
      EntriesAppend(commits[..i], commit);
      assert commits[..i] + [commit] == commits[..i + 1];
      entries := entries + entry;
      i := i + 1;
    }
    assert commits[..i] == commits;
    return Some(XmlDeclaration + "<changelog>\n" + entries + "</changelog>\n");
  }
}
