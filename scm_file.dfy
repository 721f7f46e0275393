/** DiversionSCMFile: a file or directory of a Diversion repository, whose kind
    and children are inferred from the flat path listing of one branch. */
module ScmFile {
  import opened Wrappers
  import opened Strings
  import opened ApiTypes

  /** The path of the child `name` of a file at `parent`. */
  function ChildPath(parent: string, name: string): string {
    if parent == "" then name else parent + "/" + name
  }

  /** The prefix children() matches listing paths against: "" for the root,
      otherwise the path with one trailing "/". */
  function SearchPrefix(path: string): (prefix: string)
    ensures path != "" ==> EndsWith(prefix, "/")
  {
    if path == "" then "" else if EndsWith(path, "/") then path else path + "/"
  }

  /** The path a child is given is the prefix its name was found under, as long
      as the parent path has no trailing "/". */
  lemma ChildPathExtendsPrefix(parent: string, name: string)
    requires !EndsWith(parent, "/")
    ensures ChildPath(parent, name) == SearchPrefix(parent) + name
  {
  }

  /** How a listing path below a prefix names a child: the whole remainder
      (a direct child) or its first segment (a directory with nested paths). */
  datatype ChildRef = Direct(name: string) | Nested(name: string)

  function ChildRefOf(p: string, prefix: string): (c: Option<ChildRef>)
    ensures c.Some? ==> StartsWith(p, prefix) && '/' !in c.value.name
    ensures c.Some? && c.value.Direct? ==> p == prefix + c.value.name && c.value.name != ""
    ensures c.Some? && c.value.Nested? ==> StartsWith(p, prefix + c.value.name + "/")
    ensures c.None? ==> !StartsWith(p, prefix) || p == prefix
  {
    if !StartsWith(p, prefix) then None
    else
      var rel := p[|prefix|..];
      assert p == prefix + rel;
      if rel == "" then None
      else
        match IndexOfChar(rel, '/')
        case None => Some(Direct(rel))
        case Some(i) =>
          assert (prefix + rel[..i] + "/") == p[..|prefix| + i + 1];
          Some(Nested(rel[..i]))
  }

  /** The name of the child a listing path contributes, if any. */
  function ChildNameOf(p: string, prefix: string): Option<string> {
    match ChildRefOf(p, prefix)
    case None => None
    case Some(c) => Some(c.name)
  }

  /** Some listing path starts with `prefix`. */
  predicate AnyHasPrefix(paths: seq<string>, prefix: string) {
    exists i :: 0 <= i < |paths| && StartsWith(paths[i], prefix)
  }

  /** The `LinkedHashMap<String, Boolean> childInfo` of children(): the names
      in insertion order and each name's directory flag. */
  datatype ChildIndex = ChildIndex(order: seq<string>, isDir: map<string, bool>)

  predicate NoDuplicates(s: seq<string>) {
    forall i, j :: 0 <= i < j < |s| ==> s[i] != s[j]
  }

  ghost predicate WellFormed(idx: ChildIndex) {
    && (forall k :: k in idx.isDir <==> k in idx.order)
    && NoDuplicates(idx.order)
  }

  /** `childInfo.put(k, v)`: a new key goes to the end, an existing key keeps its place. */
  function Put(idx: ChildIndex, k: string, v: bool): ChildIndex {
    ChildIndex(if k in idx.isDir then idx.order else idx.order + [k], idx.isDir[k := v])
  }

  /** What the first pass of children() does with one listing path `p`. */
  function Record(idx: ChildIndex, p: string, prefix: string, paths: seq<string>): ChildIndex {
    match ChildRefOf(p, prefix)
    case None => idx
    case Some(Direct(name)) =>
      var hasChildren := AnyHasPrefix(paths, prefix + name + "/");
      if name !in idx.isDir || !idx.isDir[name] then Put(idx, name, hasChildren) else idx
    case Some(Nested(name)) => Put(idx, name, true)
  }

  /** The child names the first `n` listing paths contribute, repeats included. */
  function NamesUpTo(paths: seq<string>, n: nat, prefix: string): seq<string>
    requires n <= |paths|
  {
    if n == 0 then []
    else
      match ChildNameOf(paths[n - 1], prefix)
      case None => NamesUpTo(paths, n - 1, prefix)
      case Some(k) => NamesUpTo(paths, n - 1, prefix) + [k]
  }

  /** The listing path a child name comes from. */
  lemma {:induction false} NameSource(paths: seq<string>, n: nat, prefix: string, k: string) returns (j: nat)
    requires n <= |paths|
    requires k in NamesUpTo(paths, n, prefix)
    ensures j < n && ChildNameOf(paths[j], prefix) == Some(k)
  {
    match ChildNameOf(paths[n - 1], prefix)
    case None =>
      j := NameSource(paths, n - 1, prefix, k);
    case Some(name) =>
      if name == k {
        j := n - 1;
      } else {
        j := NameSource(paths, n - 1, prefix, k);
      }
  }

  /** What `childInfo` holds after the first `n` listing paths: exactly the
      names those paths contribute, each once, and for each name whether some
      listing path lies below it. */
  ghost predicate IndexInvariant(idx: ChildIndex, paths: seq<string>, n: nat, prefix: string)
    requires n <= |paths|
  {
    && WellFormed(idx)
    && (forall k :: k in idx.isDir <==> k in NamesUpTo(paths, n, prefix))
    && (forall k :: k in idx.isDir ==> idx.isDir[k] == AnyHasPrefix(paths, prefix + k + "/"))
  }

  /** `childInfo.put` keeps the keys and the order in step. */
  lemma PutKeepsWellFormed(idx: ChildIndex, k: string, v: bool)
    requires WellFormed(idx)
    ensures WellFormed(Put(idx, k, v))
  {
    if k !in idx.isDir {
      var order := idx.order + [k];
      forall i, j | 0 <= i < j < |order| ensures order[i] != order[j] {
        if j == |order| - 1 {
          assert order[i] in idx.order;
        }
      }
    }
  }

  /** Putting the next name with its true directory flag keeps the invariant. */
  lemma PutKeepsInvariant(idx: ChildIndex, paths: seq<string>, n: nat, prefix: string, k: string)
    requires n < |paths|
    requires IndexInvariant(idx, paths, n, prefix)
    requires NamesUpTo(paths, n + 1, prefix) == NamesUpTo(paths, n, prefix) + [k]
    ensures IndexInvariant(Put(idx, k, AnyHasPrefix(paths, prefix + k + "/")), paths, n + 1, prefix)
  {
    PutKeepsWellFormed(idx, k, AnyHasPrefix(paths, prefix + k + "/"));
  }

  /** Recording one more listing path keeps the invariant. */
  lemma RecordKeepsInvariant(idx: ChildIndex, paths: seq<string>, n: nat, prefix: string)
    requires n < |paths|
    requires IndexInvariant(idx, paths, n, prefix)
    ensures IndexInvariant(Record(idx, paths[n], prefix, paths), paths, n + 1, prefix)
  {
    var names := NamesUpTo(paths, n, prefix);
    match ChildRefOf(paths[n], prefix)
    case None =>
      assert NamesUpTo(paths, n + 1, prefix) == names;
    case Some(c) =>
      assert ChildNameOf(paths[n], prefix) == Some(c.name);
      assert NamesUpTo(paths, n + 1, prefix) == names + [c.name];
      if c.Nested? {
        assert StartsWith(paths[n], prefix + c.name + "/");
        assert AnyHasPrefix(paths, prefix + c.name + "/");
        PutKeepsInvariant(idx, paths, n, prefix, c.name);
      } else if c.name !in idx.isDir || !idx.isDir[c.name] {
        PutKeepsInvariant(idx, paths, n, prefix, c.name);
      }
  }

  /** `childInfo` after the first `n` paths of the listing `paths`. */
  function IndexUpTo(paths: seq<string>, n: nat, prefix: string): (idx: ChildIndex)
    requires n <= |paths|
  {
    if n == 0 then ChildIndex([], map[])
    else Record(IndexUpTo(paths, n - 1, prefix), paths[n - 1], prefix, paths)
  }

  /** After the first `n` listing paths, `childInfo` holds exactly the names
      they contribute, each once, each with its true directory flag. */
  lemma {:induction false} IndexUpToKeepsInvariant(paths: seq<string>, n: nat, prefix: string)
    requires n <= |paths|
    ensures IndexInvariant(IndexUpTo(paths, n, prefix), paths, n, prefix)
  {
    if n > 0 {
      IndexUpToKeepsInvariant(paths, n - 1, prefix);
      RecordKeepsInvariant(IndexUpTo(paths, n - 1, prefix), paths, n - 1, prefix);
    }
  }

  /** The complete `childInfo` of a directory whose search prefix is `prefix`. */
  function ChildIndexOf(paths: seq<string>, prefix: string): (idx: ChildIndex)
    ensures IndexInvariant(idx, paths, |paths|, prefix)
  {
    IndexUpToKeepsInvariant(paths, |paths|, prefix);
    IndexUpTo(paths, |paths|, prefix)
  }

  /** The first occurrence of each element, in order. */
  function Distinct(s: seq<string>): seq<string> {
    if s == [] then []
    else
      var d := Distinct(s[..|s| - 1]);
      if s[|s| - 1] in d then d else d + [s[|s| - 1]]
  }

  /** Children come out in the order their names first appear in the listing. */
  lemma {:induction false} ChildOrderIsFirstOccurrence(paths: seq<string>, n: nat, prefix: string)
    requires n <= |paths|
    ensures IndexUpTo(paths, n, prefix).order == Distinct(NamesUpTo(paths, n, prefix))
  {
    if n > 0 {
      ChildOrderIsFirstOccurrence(paths, n - 1, prefix);
      var prev := IndexUpTo(paths, n - 1, prefix);
      var names := NamesUpTo(paths, n - 1, prefix);
      match ChildRefOf(paths[n - 1], prefix)
      case None =>
      case Some(c) =>
        IndexUpToKeepsInvariant(paths, n - 1, prefix);
        assert c.name in prev.isDir <==> c.name in Distinct(names);
        assert NamesUpTo(paths, n, prefix) == names + [c.name];
        assert (names + [c.name])[..|names + [c.name]| - 1] == names;
    }
  }

  /** The scan of children() for nested paths: whether some listing path starts
      with `prefix`, stopping at the first one. */
  method HasPathWithPrefix(entries: seq<Entry>, prefix: string) returns (found: bool)
    ensures found == AnyHasPrefix(Paths(entries), prefix)
  {
    var i := 0;
    while i < |entries|
      invariant i <= |entries|
      invariant forall j :: 0 <= j < i ==> !StartsWith(entries[j].path, prefix)
    {
      if StartsWith(entries[i].path, prefix) {
        return true;
      }
      i := i + 1;
    }
    return false;
  }

  /** The exact-match scan of type(). */
  method ContainsPath(entries: seq<Entry>, path: string) returns (found: bool)
    ensures found <==> path in Paths(entries)
  {
    var i := 0;
    while i < |entries|
      invariant i <= |entries|
      invariant forall j :: 0 <= j < i ==> entries[j].path != path
    {
      if entries[i].path == path {
        assert Paths(entries)[i] == path;
        return true;
      }
      i := i + 1;
    }
    return false;
  }

  /** The first pass of children(): builds `childInfo` from the listing. */
  method ScanChildren(entries: seq<Entry>, prefix: string) returns (idx: ChildIndex)
    ensures idx == ChildIndexOf(Paths(entries), prefix)
  {
    var paths := Paths(entries);
    idx := ChildIndex([], map[]);
    var n := 0;
    while n < |entries|
      invariant n <= |entries|
      invariant idx == IndexUpTo(paths, n, prefix)
    {
      var filePath := entries[n].path;
      if StartsWith(filePath, prefix) {
        var relativePath := filePath[|prefix|..];
        if relativePath != "" {
          var slashIndex := IndexOfChar(relativePath, '/');
          if slashIndex.None? {
            var hasChildren := HasPathWithPrefix(entries, prefix + relativePath + "/");
            if relativePath !in idx.isDir || !idx.isDir[relativePath] {
              idx := Put(idx, relativePath, hasChildren);
            }
          } else {
            idx := Put(idx, relativePath[..slashIndex.value], true);
          }
        }
      }
      n := n + 1;
    }
  }

  /** The kinds SCMFile.type() can report here. */
  datatype FileType = RegularFile | Directory | Nonexistent

  /** The names type() reports as directories without reading the listing. */
  predicate IsWellKnownDirectory(path: string) {
    path == "" || path == "vars" || path == "src" || path == "resources"
  }

  /** What type() answers for an uncached file at `path`. */
  function Classify(path: string, listing: Fetch<seq<string>>): FileType {
    if IsWellKnownDirectory(path) then Directory
    else
      match listing
      case FetchFailed => Nonexistent
      case Fetched(paths) =>
        if AnyHasPrefix(paths, path + "/") then Directory
        else if path in paths then RegularFile
        else Nonexistent
  }

  /** A child that children() reports is classified by type() the same way,
      unless its path is one of the well-known directory names. */
  lemma ChildKindAgreesWithType(paths: seq<string>, parent: string, k: string)
    requires !EndsWith(parent, "/")
    requires k in ChildIndexOf(paths, SearchPrefix(parent)).isDir
    requires !IsWellKnownDirectory(ChildPath(parent, k))
    ensures Classify(ChildPath(parent, k), Fetched(paths))
            == if ChildIndexOf(paths, SearchPrefix(parent)).isDir[k] then Directory else RegularFile
  {
    var prefix := SearchPrefix(parent);
    ChildPathExtendsPrefix(parent, k);
    var j := NameSource(paths, |paths|, prefix, k);
    if ChildRefOf(paths[j], prefix).value.Direct? {
      assert paths[j] == ChildPath(parent, k);
    } else {
      assert StartsWith(paths[j], prefix + k + "/");
    }
  }

  /** Under a parent path with a trailing "/", the agreement fails: children()
      of "a/" finds "x" in the listing ["a/x"], but the child is given the
      path "a//x", which type() reports as nonexistent. */
  lemma TrailingSlashParentChild()
    ensures ChildIndexOf(["a/x"], SearchPrefix("a/")) == ChildIndex(["x"], map["x" := false])
    ensures ChildPath("a/", "x") == "a//x"
    ensures Classify(ChildPath("a/", "x"), Fetched(["a/x"])) == Nonexistent
  {
    TrailingSlashListing();
    SingleFileIndex(["a/x"], "a/", "x");
  }

  /** The facts about the listing ["a/x"] under the parent "a/". */
  lemma TrailingSlashListing()
    ensures SearchPrefix("a/") == "a/"
    ensures ChildRefOf("a/x", "a/") == Some(Direct("x"))
    ensures !AnyHasPrefix(["a/x"], "a/x/") && !AnyHasPrefix(["a/x"], "a//x/")
    ensures ChildPath("a/", "x") == "a//x" && "a//x" !in ["a/x"]
  {
    var paths := ["a/x"];
    assert !StartsWith(paths[0], "a/x/");
    assert !StartsWith(paths[0], "a//x/");
  }

  /** The index of a one-path listing that names a file directly below the prefix. */
  lemma SingleFileIndex(paths: seq<string>, prefix: string, name: string)
    requires |paths| == 1 && ChildRefOf(paths[0], prefix) == Some(Direct(name))
    requires !AnyHasPrefix(paths, prefix + name + "/")
    ensures ChildIndexOf(paths, prefix) == ChildIndex([name], map[name := false])
  {
    assert IndexUpTo(paths, 0, prefix) == ChildIndex([], map[]);
    assert IndexUpTo(paths, 1, prefix) == Put(ChildIndex([], map[]), name, false);
  }

  /** A path classified as a regular file has no children. */
  lemma RegularFileHasNoChildren(paths: seq<string>, path: string)
    requires Classify(path, Fetched(paths)) == RegularFile
    requires !EndsWith(path, "/")
    ensures ChildIndexOf(paths, SearchPrefix(path)).order == []
  {
    var prefix := SearchPrefix(path);
    var idx := ChildIndexOf(paths, prefix);
    if idx.order != [] {
      var j := NameSource(paths, |paths|, prefix, idx.order[0]);
    }
  }

  /** A child that children() flags as a file has no children of its own. */
  lemma FileChildHasNoChildren(paths: seq<string>, parent: string, k: string)
    requires !EndsWith(parent, "/")
    requires k in ChildIndexOf(paths, SearchPrefix(parent)).isDir
    requires !ChildIndexOf(paths, SearchPrefix(parent)).isDir[k]
    ensures ChildIndexOf(paths, SearchPrefix(ChildPath(parent, k))).order == []
  {
    var prefix := SearchPrefix(parent);
    ChildPathExtendsPrefix(parent, k);
    var j := NameSource(paths, |paths|, prefix, k);
    assert ChildRefOf(paths[j], prefix).value.Direct?;
    var child := ChildPath(parent, k);
    assert child[|child| - 1] == k[|k| - 1];
    var idx := ChildIndexOf(paths, SearchPrefix(child));
    if idx.order != [] {
      var i := NameSource(paths, |paths|, child + "/", idx.order[0]);
    }
  }

  /** A file or directory of one branch of one repository, with the kind cache
      that type() fills. */
  class DiversionScmFile {
    const repositoryId: string
    const branchId: string
    const path: string
    /** Cached kind: None until known. */
    var isDirectory: Option<bool>
    /** Cached existence: None until known. */
    var fileExists: Option<bool>

    /** The constructor the file system uses for its root. */
    constructor (path: string, repositoryId: string, branchId: string)
      ensures this.path == path && this.repositoryId == repositoryId && this.branchId == branchId
      ensures isDirectory == None && fileExists == None
    {
      this.path := path;
      this.repositoryId := repositoryId;
      this.branchId := branchId;
      isDirectory := None;
      fileExists := None;
    }

    /** The constructor for the child `name` of `parent`. */
    constructor Child(parent: DiversionScmFile, name: string)
      ensures path == ChildPath(parent.path, name)
      ensures repositoryId == parent.repositoryId && branchId == parent.branchId
      ensures isDirectory == None && fileExists == None
    {
      path := ChildPath(parent.path, name);
      repositoryId := parent.repositoryId;
      branchId := parent.branchId;
      isDirectory := None;
      fileExists := None;
    }

    /** `c` is the child `name` of this file as children() presets it: its kind
        is `dir` and it is known to exist. */
    ghost predicate IsPresetChild(c: DiversionScmFile, name: string, dir: bool)
      reads c
    {
      && c.path == ChildPath(path, name)
      && c.repositoryId == repositoryId
      && c.branchId == branchId
      && c.isDirectory == Some(dir)
      && c.fileExists == Some(true)
    }

    /** The second pass of children(): one new file per name of `idx.order`, in
        that order, its kind preset from `idx.isDir`. */
    method NewChildren(idx: ChildIndex) returns (children: seq<DiversionScmFile>)
      requires WellFormed(idx)
      ensures |children| == |idx.order|
      ensures forall i :: 0 <= i < |children| ==>
        fresh(children[i]) && IsPresetChild(children[i], idx.order[i], idx.isDir[idx.order[i]])
    {
      var names := idx.order;
      var flags := idx.isDir;
      children := [];
      var i := 0;
      while i < |names|
        invariant i <= |names|
        invariant |children| == i
        invariant forall j :: 0 <= j < i ==> fresh(children[j]) && IsPresetChild(children[j], names[j], flags[names[j]])
      {
        var childName := names[i];
        var child := new DiversionScmFile.Child(this, childName);
        child.isDirectory := Some(flags[childName]);
        child.fileExists := Some(true);
        children := children + [child];
        i := i + 1;
      }
    }

    /** children(): one new file per child name of the listing, in order of first
        appearance, each with its kind preset and known to exist. A failed
        listing propagates (None). */
    method Children(listing: Fetch<seq<Entry>>) returns (r: Option<seq<DiversionScmFile>>)
      ensures listing.FetchFailed? ==> r.None?
      ensures listing.Fetched? ==> (
        && r.Some?
        && var idx := ChildIndexOf(Paths(listing.value), SearchPrefix(path));
        && |r.value| == |idx.order|
        && forall i :: 0 <= i < |r.value| ==>
             fresh(r.value[i]) && IsPresetChild(r.value[i], idx.order[i], idx.isDir[idx.order[i]]))
    {
      if listing.FetchFailed? {
        return None;
      }
      var idx := ScanChildren(listing.value, SearchPrefix(path));
      var children := NewChildren(idx);
      return Some(children);
    }

    /** type(): answers from the cache when the kind is known; otherwise
        classifies the path and caches a DIRECTORY or REGULAR_FILE answer. A
        NONEXISTENT answer, including one caused by a failed listing, only
        records that the file does not exist. */
    method Type(listing: Fetch<seq<Entry>>) returns (t: FileType)
      modifies this
      ensures old(isDirectory).Some? ==>
        && t == (if old(isDirectory).value then Directory else RegularFile)
        && isDirectory == old(isDirectory) && fileExists == old(fileExists)
      ensures old(isDirectory).None? ==>
        && t == Classify(path, FetchPaths(listing))
        && isDirectory == (if t == Nonexistent then None else Some(t == Directory))
        && fileExists == Some(t != Nonexistent)
    {
      if isDirectory.Some? {
        return if isDirectory.value then Directory else RegularFile;
      }
      if IsWellKnownDirectory(path) {
        isDirectory := Some(true);
        fileExists := Some(true);
        return Directory;
      }
      if listing.FetchFailed? {
        fileExists := Some(false);
        return Nonexistent;
      }
      var entries := listing.value;
      var hasChildren := HasPathWithPrefix(entries, path + "/");
      if hasChildren {
        isDirectory := Some(true);
        fileExists := Some(true);
        return Directory;
      }
      var found := ContainsPath(entries, path);
      if found {
        isDirectory := Some(false);
        fileExists := Some(true);
        return RegularFile;
      }
      fileExists := Some(false);
      return Nonexistent;
    }
  }
}
