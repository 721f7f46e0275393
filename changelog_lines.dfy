/** The written changelog, line by line. Every element checkout writes inside
    an entry sits on a line of its own. Reading such a line back (the tag up
    to the first '>', the character data up to the next '<', the matching end
    tag) yields exactly the element the round-trip lemmas give the parser. */
module ChangelogLines {
  import opened Wrappers
  import opened Strings
  import opened JavaLang
  import opened ApiTypes
  import opened ChangelogXml
  import opened ChangeLogParser
  import opened ChangelogRoundTrip

  /** A line with its indentation removed. */
  function DropIndent(s: string): string {
    if s != [] && s[0] == ' ' then DropIndent(s[1..]) else s
  }

  /** How a reader takes one element line apart: past the indentation, a
      '<' opens the start tag, the tag runs to the first '>', the character
      data to the next '<', which must open the matching end tag; the data
      comes back with the entities decoded. */
  function ReadElementLine(line: string): Option<Node> {
    var s := DropIndent(line);
    if s == [] || s[0] != '<' then None else ReadAfterOpen(s[1..])
  }

  /** The rest of an element line after its first '<'. */
  function ReadAfterOpen(t: string): Option<Node> {
    match IndexOfChar(t, '>')
    case None => None
    case Some(k) => ReadContent(t[..k], t[k + 1..])
  }

  /** The rest of an element line after the start tag `tag`. */
  function ReadContent(tag: string, rest: string): Option<Node> {
    match IndexOfChar(rest, '<')
    case None => None
    case Some(m) =>
      if rest[m..] == "</" + tag + ">\n" then Some(Node(tag, Unescape(rest[..m]))) else None
  }

  lemma {:induction false} DropIndentOfBlanks(indent: string, s: string)
    requires forall i :: 0 <= i < |indent| ==> indent[i] == ' '
    requires s != [] && s[0] != ' '
    ensures DropIndent(indent + s) == s
  {
    if indent == [] {
      assert indent + s == s;
    } else {
      assert (indent + s)[1..] == indent[1..] + s;
      DropIndentOfBlanks(indent[1..], s);
    }
  }

  /** The first `c` of `x + [c] + y` is the one after `x` when `x` has none. */
  lemma IndexOfCharAfter(x: string, c: char, y: string)
    requires c !in x
    ensures IndexOfChar(x + [c] + y, c) == Some(|x|)
  {
    var s := x + [c] + y;
    assert s[|x|] == c;
    assert forall i :: 0 <= i < |x| ==> s[i] == x[i];
  }

  lemma ReadContentBack(tag: string, raw: string)
    requires '<' !in raw
    ensures ReadContent(tag, raw + ("</" + tag + ">\n")) == Some(Node(tag, Unescape(raw)))
  {
    var close := "</" + tag + ">\n";
    var rest := raw + close;
    assert rest == raw + ['<'] + ("/" + tag + ">\n");
    IndexOfCharAfter(raw, '<', "/" + tag + ">\n");
    assert rest[|raw|..] == close;
    assert rest[..|raw|] == raw;
  }

  lemma ReadAfterOpenBack(tag: string, rest: string)
    requires '>' !in tag
    ensures ReadAfterOpen(tag + (">" + rest)) == ReadContent(tag, rest)
  {
    var t := tag + (">" + rest);
    assert t == tag + ['>'] + rest;
    IndexOfCharAfter(tag, '>', rest);
    assert t[..|tag|] == tag;
    assert t[|tag| + 1..] == rest;
  }

  /** An element line is its indentation, then '<', then the tag, '>', the
      text and the end tag. */
  lemma ElementLineShape(indent: string, tag: string, raw: string)
    ensures ElementLine(indent, tag, raw) == indent + ("<" + (tag + (">" + (raw + ("</" + tag + ">\n")))))
  {
  }

  /** A line written with an escaped text reads back as its tag and the
      decoded text. */
  lemma ElementLineReadsBack(indent: string, tag: string, raw: string)
    requires forall i :: 0 <= i < |indent| ==> indent[i] == ' '
    requires '>' !in tag && '<' !in raw
    ensures ReadElementLine(ElementLine(indent, tag, raw)) == Some(Node(tag, Unescape(raw)))
  {
    var rest := raw + ("</" + tag + ">\n");
    var s := "<" + (tag + (">" + rest));
    ElementLineShape(indent, tag, raw);
    DropIndentOfBlanks(indent, s);
    assert s[1..] == tag + (">" + rest);
    ReadAfterOpenBack(tag, rest);
    ReadContentBack(tag, raw);
  }

  /** Escaped text never holds a '<'. */
  lemma EscapedHasNoOpenBracket(text: Option<string>)
    ensures '<' !in EscapeXml(text)
  {
    EscapeXmlHasNoMarkup(text);
  }

  /** A line of escaped text reads back as the element with the text the
      parser reports for it. */
  lemma TextLineReadsBack(indent: string, tag: string, text: Option<string>)
    requires forall i :: 0 <= i < |indent| ==> indent[i] == ' '
    requires '>' !in tag
    ensures ReadElementLine(ElementLine(indent, tag, EscapeXml(text))) == Some(Node(tag, CharData(text)))
  {
    EscapedHasNoOpenBracket(text);
    ElementLineReadsBack(indent, tag, EscapeXml(text));
  }

  /** Text without '&' decodes to itself. */
  lemma {:induction false} UnescapePlain(s: string)
    requires '&' !in s
    ensures Unescape(s) == s
  {
    if s != [] {
      assert s[0] != '&';
      assert |s| >= 4 ==> s[..4][0] == s[0];
      assert |s| >= 5 ==> s[..5][0] == s[0];
      assert |s| >= 6 ==> s[..6][0] == s[0];
      assert Unescape(s) == [s[0]] + Unescape(s[1..]);
      UnescapePlain(s[1..]);
      assert [s[0]] + s[1..] == s;
    }
  }

  /** A written timestamp holds a sign and digits only. */
  lemma LongToStringPlain(x: Long)
    ensures '<' !in LongToString(x) && '&' !in LongToString(x)
  {
    var d := Digits(if x < 0 then -(x as int) else x as int);
    assert forall i :: 0 <= i < |d| ==> IsDigit(d[i]);
    if x < 0 {
      assert LongToString(x) == "-" + d;
      assert forall i :: 0 < i < |"-" + d| ==> ("-" + d)[i] == d[i - 1];
    }
  }

  /** Line `i` below the start tag of a written entry. */
  function HeadLine(c: Commit, i: nat): string
    requires c.author.Some? && i < 4
  {
    if i == 0 then ElementLine("    ", "commitId", EscapeXml(Some(c.commitId)))
    else if i == 1 then ElementLine("    ", "msg", EscapeXml(c.commitMessage))
    else if i == 2 then ElementLine("    ", "author", EscapeXml(c.author.value.name))
    else ElementLine("    ", "timestamp", LongToString(c.createdTs))
  }

  /** The head of a written entry is the entry's start tag followed by four
      lines. */
  lemma EntryHeadLines(c: Commit)
    requires c.author.Some?
    ensures EntryHead(c) == "  <entry>\n" + HeadLine(c, 0) + HeadLine(c, 1) + HeadLine(c, 2) + HeadLine(c, 3)
  {
  }

  /** Those lines read back, in order, as the first four elements the parser
      is given for the entry. */
  lemma EntryHeadReadsBack(c: Commit, i: nat)
    requires c.author.Some? && i < 4
    ensures ReadElementLine(HeadLine(c, i)) == Some(WrittenElements(c)[i])
  {
    WrittenHead(c);
    if i == 0 {
      TextLineReadsBack("    ", "commitId", Some(c.commitId));
    } else if i == 1 {
      TextLineReadsBack("    ", "msg", c.commitMessage);
    } else if i == 2 {
      TextLineReadsBack("    ", "author", c.author.value.name);
    } else {
      LongToStringPlain(c.createdTs);
      ElementLineReadsBack("    ", "timestamp", LongToString(c.createdTs));
      UnescapePlain(LongToString(c.createdTs));
    }
  }

  /** The first four elements the parser is given for an entry. */
  lemma WrittenHead(c: Commit)
    requires c.author.Some?
    ensures WrittenElements(c)[0] == Node("commitId", CharData(Some(c.commitId)))
    ensures WrittenElements(c)[1] == Node("msg", CharData(c.commitMessage))
    ensures WrittenElements(c)[2] == Node("author", CharData(c.author.value.name))
    ensures WrittenElements(c)[3] == Node("timestamp", LongToString(c.createdTs))
  {
  }

  /** The k-th `<file>` element the parser is given is the k-th file. */
  lemma {:induction false} FileNodesAt(files: seq<string>, k: nat)
    requires k < |files|
    ensures FileNodes(files)[k] == Node("file", CharData(Some(files[k])))
  {
    if k < |files| - 1 {
      FileNodesAt(files[..|files| - 1], k);
    }
  }

  /** The file lines of an entry: after the lines of the first `k` files
      comes the line of file `k`. */
  lemma FileLinesStep(files: seq<string>, k: nat)
    requires k < |files|
    ensures FilesXml(files[..k + 1]) == FilesXml(files[..k]) + ElementLine("      ", "file", EscapeXml(Some(files[k])))
  {
    var p := files[..k + 1];
    assert p[..|p| - 1] == files[..k];
    assert p[|p| - 1] == files[k];
  }

  /** The line of file `k` reads back as the `<file>` element of file `k`. */
  lemma FileLineReadsBack(files: seq<string>, k: nat)
    requires k < |files|
    ensures ReadElementLine(ElementLine("      ", "file", EscapeXml(Some(files[k])))) == Some(FileNodes(files)[k])
  {
    TextLineReadsBack("      ", "file", Some(files[k]));
    FileNodesAt(files, k);
  }
}
