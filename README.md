# Diversion SCM plugin for Jenkins — a verified model of its core

The Jenkins Diversion SCM plugin lets Jenkins pipelines and Global Pipeline
Libraries check out files from Diversion repositories. This project models
the plugin's decision logic in Dafny and proves properties of that model. The
model covers:

- **The virtual file tree.** `DiversionSCMFile` and `DiversionSCMFileSystem`
  present a flat path listing of one branch as a tree of files and
  directories. They find a directory's children and classify a path, and
  they cache both answers in fields. The file system also resolves the
  default "Jenkinsfile" request to a configured or auto-detected script. It
  caches the branch head's time as its last-modified time.
- **Building a file system.** `DiversionSCMFileSystemBuilder` builds one
  either from a configured `DiversionSCM` or from a library source and a
  branch head.
- **Checkout.** `DiversionSCM.checkout` does four things:
  - it downloads the pipeline script, or every file below the library
    directory;
  - it decides, through a per-build marker shared by all checkouts of a
    build, whether this checkout writes the build's changelog;
  - it selects the commits between the current head and the previous build's
    commit;
  - it writes those commits as XML, escaped with the five predefined
    entities of XML 1.0 (section 4.6 of the XML 1.0 recommendation).
- **Reading the changelog back.** `DiversionChangeLogParser` reads the
  changelog into `DiversionChangeLogEntry` values.
- **Polling.** `DiversionSCM` computes a baseline from a build
  (`calcRevisionsFromBuild`) and compares the remote head with it
  (`compareRemoteRevisionWith`).
- **Revision values.** `DiversionSCMRevisionState` and `DiversionSCMRevision`
  are value types with their own `equals` and `hashCode` rules.
- **Library source.** `DiversionSCMSource` picks the branch a library version
  names and turns branch heads into revisions. It builds the `DiversionSCM`
  for a head, and it detects which directories of a repository hold a shared
  library.

Every call to the Diversion API becomes an input. A listing, a file's
content, the latest commit, the commit feed and a branch lookup each arrive
as a `Fetch` value (`Fetched(v)` or `FetchFailed`) or as a function that
returns one. The clock also becomes a parameter. A Java `null` becomes
`None`. An exception that leaves a method becomes a failure value
(`FetchFailed`, `CheckoutFailed` or `None`, as each contract says). Java
`long` and `int` arithmetic is written out: `WrapLong`, `ToInt32`,
`String.hashCode` as `StringHash`, `Long.parseLong` / `Long.toString`, and
truncating division.

Modules, one per concern:

- `Wrappers`, `Strings`, `JavaLang`: `Option` and `Fetch`, string
  predicates, and the Java library semantics the plugin relies on.
- `ApiTypes`: the API's records (entries, commits, authors, branches, heads).
- `ScmFile`, `ScriptSearch`, `FileSystem`, `FileSystemBuilder`: the file tree,
  the script search both script resolvers share, the file system, and its
  builder.
- `ChangelogMarker`, `CommitWindow`, `ChangelogXml`, `Scm`: checkout, polling
  and the `DiversionSCM` class.
- `ChangeLogEntries`, `ChangeLogParser`, `ChangelogRoundTrip`,
  `ChangelogLines`: the entries, the parser, the proof that the elements
  checkout writes parse back, and the proof that each element line checkout
  writes reads back as that element.
- `Revisions`, `ScmSource`: the revision values and `DiversionSCMSource`.

A script checkout followed, in the same build, by a library checkout of the
same repository leaves the library's changelog unwritten: the "script" marker
absorbs it (`ChangelogMarker.ScriptThenSameRepositoryLibrary`).

## Model

| member | source | states |
|---|---|---|
| ScmFile.SearchPrefix | src/main/java/io/superstudios/plugins/diversion/DiversionSCMFile.java:61 | the prefix children() matches against ends with "/" for every non-root path |
| ScmFile.ChildPathExtendsPrefix | src/main/java/io/superstudios/plugins/diversion/DiversionSCMFile.java:43-61 | for a parent path without a trailing "/", a child's path (name at the root, parent + "/" + name otherwise) is the search prefix followed by the name |
| ScmFile.ChildRefOf | src/main/java/io/superstudios/plugins/diversion/DiversionSCMFile.java:70-101 | a listing path below the prefix names a direct child (the whole non-empty remainder) or a directory (its first segment, followed by "/"); a child name never contains "/"; the prefix itself and paths outside it name nothing |
| ScmFile.NameSource | src/main/java/io/superstudios/plugins/diversion/DiversionSCMFile.java:67-104 | every recorded child name comes from some earlier listing path |
| ScmFile.PutKeepsWellFormed | src/main/java/io/superstudios/plugins/diversion/DiversionSCMFile.java:94-100 | LinkedHashMap.put keeps keys and insertion order in step, with no duplicates |
| ScmFile.RecordKeepsInvariant | src/main/java/io/superstudios/plugins/diversion/DiversionSCMFile.java:67-104 | one step of the first pass keeps the invariant: the keys are exactly the names seen so far, and each flag says whether some listing path starts with prefix + name + "/" (a directory flag is never downgraded) |
| ScmFile.Record | src/main/java/io/superstudios/plugins/diversion/DiversionSCMFile.java:70-101 | no contract; what one listing path adds to the child index is stated by RecordKeepsInvariant and ChildIndexOf |
| ScmFile.PutKeepsInvariant | src/main/java/io/superstudios/plugins/diversion/DiversionSCMFile.java:94-100 | putting a newly seen name with its true directory flag keeps that invariant |
| ScmFile.IndexUpToKeepsInvariant | src/main/java/io/superstudios/plugins/diversion/DiversionSCMFile.java:64-104 | after any number n of listing paths the child index satisfies that invariant |
| ScmFile.ChildIndexOf | src/main/java/io/superstudios/plugins/diversion/DiversionSCMFile.java:64-104 | after the whole listing: the children are exactly the first segments of the remainders below the prefix, each once, each flagged a directory iff a listing path lies below it |
| ScmFile.ChildOrderIsFirstOccurrence | src/main/java/io/superstudios/plugins/diversion/DiversionSCMFile.java:64-115 | the children come out in the order of their first appearance in the listing |
| ScmFile.HasPathWithPrefix | src/main/java/io/superstudios/plugins/diversion/DiversionSCMFile.java:145-153 | the early-break scan answers whether any listing path starts with the prefix |
| ScmFile.ContainsPath | src/main/java/io/superstudios/plugins/diversion/DiversionSCMFile.java:161-168 | the scan answers whether the exact path is listed |
| ScmFile.ScanChildren | src/main/java/io/superstudios/plugins/diversion/DiversionSCMFile.java:63-104 | the first pass of children(), with its nested early-break scan, builds exactly ChildIndexOf of the listing |
| ScmFile.ChildKindAgreesWithType | src/main/java/io/superstudios/plugins/diversion/DiversionSCMFile.java:84-100 | a child children() flags as a directory (or as a file) is classified the same way by type(), unless it is one of the well-known directory names |
| ScmFile.RegularFileHasNoChildren | src/main/java/io/superstudios/plugins/diversion/DiversionSCMFile.java:143-168 | a path type() classifies as a regular file has no children |
| ScmFile.FileChildHasNoChildren | src/main/java/io/superstudios/plugins/diversion/DiversionSCMFile.java:84-96 | a child flagged as a file has no children of its own |
| ScmFile.TrailingSlashParentChild | src/main/java/io/superstudios/plugins/diversion/DiversionSCMFile.java:37-44 | under the parent "a/", the child "x" found in the listing ["a/x"] gets the path "a//x", which type() reports as nonexistent |
| ScmFile.DiversionScmFile.constructor | src/main/java/io/superstudios/plugins/diversion/DiversionSCMFile.java:27-35 | a file at a path with nothing cached |
| ScmFile.DiversionScmFile.Child | src/main/java/io/superstudios/plugins/diversion/DiversionSCMFile.java:37-44 | the child is at name (root parent) or parent + "/" + name, on the parent's repository and branch |
| ScmFile.DiversionScmFile.NewChildren | src/main/java/io/superstudios/plugins/diversion/DiversionSCMFile.java:106-115 | the second pass creates one new file per name, in insertion order, with its directory flag preset and known to exist |
| ScmFile.DiversionScmFile.Children | src/main/java/io/superstudios/plugins/diversion/DiversionSCMFile.java:54-118 | a failed listing propagates; otherwise one new file per child name, in first-occurrence order, with its directory flag preset and known to exist |
| ScmFile.DiversionScmFile.Type | src/main/java/io/superstudios/plugins/diversion/DiversionSCMFile.java:128-178 | a cached kind is returned unchanged; otherwise: directory for "", "vars", "src", "resources"; directory if any path lies below; regular file on an exact match; nonexistent otherwise or on a failed listing. Directory and file answers are cached; a nonexistent answer is not |
| ScmFile.Classify | src/main/java/io/superstudios/plugins/diversion/DiversionSCMFile.java:136-177 | no contract; its agreement with children() is stated by ChildKindAgreesWithType, RegularFileHasNoChildren and TrailingSlashParentChild, and Type computes it |
| ScriptSearch.Patterns | src/main/java/io/superstudios/plugins/diversion/DiversionSCMFileSystem.java:158-162 | three names, tried in the order job + ".groovy", job, "Jenkinsfile" |
| ScriptSearch.SearchScript | src/main/java/io/superstudios/plugins/diversion/DiversionSCMFileSystem.java:158-176 | no contract; it is SearchNames over Patterns, whose properties are stated by SearchNames, GroovyScriptPreferred, JenkinsfileIsLastResort and FindScript |
| ScriptSearch.FirstMatch | src/main/java/io/superstudios/plugins/diversion/DiversionSCMFileSystem.java:170-175 | the first listing path that equals the name or ends with "/" + name, or none |
| ScriptSearch.SearchNames | src/main/java/io/superstudios/plugins/diversion/DiversionSCMFileSystem.java:169-176 | the answer is a listed path matching some pattern; there is no answer iff no path matches any pattern |
| ScriptSearch.GroovyScriptPreferred | src/main/java/io/superstudios/plugins/diversion/DiversionSCMFileSystem.java:158-176 | when any path matches job + ".groovy", the first such path wins |
| ScriptSearch.JenkinsfileIsLastResort | src/main/java/io/superstudios/plugins/diversion/DiversionSCMFileSystem.java:158-176 | a "Jenkinsfile" match is returned only when no path matches the two job-name patterns |
| ScriptSearch.MatchIndex | src/main/java/io/superstudios/plugins/diversion/DiversionSCMFileSystem.java:173-178 | the inner loop stops at the first listing path that is the name or ends with "/" + name, and finds none exactly when no path matches |
| ScriptSearch.FindScript | src/main/java/io/superstudios/plugins/diversion/DiversionSCMFileSystem.java:164-179 | the nested search loop with early return computes SearchScript |
| FileSystem.ResolveScript | src/main/java/io/superstudios/plugins/diversion/DiversionSCMFileSystem.java:144-185 | any request other than "Jenkinsfile"/"jenkinsfile" gives null; a non-empty configured path wins without the listing; otherwise, with a non-empty job name, exactly the search result of a fetched listing (the found script, null on no match) and null on a failed listing |
| FileSystem.IsDefaultRequest | src/main/java/io/superstudios/plugins/diversion/DiversionSCMFileSystem.java:148 | no contract; the request test "Jenkinsfile" or "jenkinsfile" whose effect ResolveScript states |
| FileSystem.HeadTimeMillis | src/main/java/io/superstudios/plugins/diversion/DiversionSCMFileSystem.java:54-73 | the head commit's createdTs * 1000 when the branch has a non-empty head and both lookups succeed, wrapped modulo 2^64 as long multiplication does (exact while it fits); the clock when a lookup fails or the head is empty |
| FileSystem.DiversionScmFileSystem.constructor | src/main/java/io/superstudios/plugins/diversion/DiversionSCMFileSystem.java:28-39 | fields as given, nothing cached, no job name, no configured path |
| FileSystem.DiversionScmFileSystem.GetRoot | src/main/java/io/superstudios/plugins/diversion/DiversionSCMFileSystem.java:43-48 | a new root file at "" when the library path is null or empty, else at the library path verbatim |
| FileSystem.DiversionScmFileSystem.LastModified | src/main/java/io/superstudios/plugins/diversion/DiversionSCMFileSystem.java:51-76 | a cached value is returned unchanged; otherwise HeadTimeMillis is computed and cached |
| FileSystem.DiversionScmFileSystem.InvalidateCache | src/main/java/io/superstudios/plugins/diversion/DiversionSCMFileSystem.java:82-84 | clears the cache, nothing else |
| FileSystem.DiversionScmFileSystem.SetJobName | src/main/java/io/superstudios/plugins/diversion/DiversionSCMFileSystem.java:116-118 | sets the job name, nothing else |
| FileSystem.DiversionScmFileSystem.SetConfiguredScriptPath | src/main/java/io/superstudios/plugins/diversion/DiversionSCMFileSystem.java:128-130 | sets the configured path, nothing else |
| FileSystem.DiversionScmFileSystem.ResolveScriptPath | src/main/java/io/superstudios/plugins/diversion/DiversionSCMFileSystem.java:144-185 | resolveScriptPath computes ResolveScript of its fields and the branch listing |
| FileSystemBuilder.BuiltLibraryPath | src/main/java/io/superstudios/plugins/diversion/DiversionSCMFileSystemBuilder.java:55-58 | a null or empty library path becomes "" (the repository root); any other passes unchanged |
| FileSystemBuilder.ScriptInputs | src/main/java/io/superstudios/plugins/diversion/DiversionSCMFileSystemBuilder.java:73-77 | exactly one of the configured path (when non-empty) and the owner's name is passed on |
| FileSystemBuilder.ScriptResolutionAgrees | src/main/java/io/superstudios/plugins/diversion/DiversionSCMFileSystemBuilder.java:73-77 | for an owner with a name, the file system's answer to "Jenkinsfile" is the script checkout downloads; when it answers null, checkout falls back to job + ".groovy" |
| FileSystemBuilder.BuildForScm | src/main/java/io/superstudios/plugins/diversion/DiversionSCMFileSystemBuilder.java:45-80 | null for a non-Diversion SCM; otherwise a new file system with the SCM's repository, branch and credentials, the defaulted library path, and the script inputs above |
| FileSystemBuilder.BuildForSource | src/main/java/io/superstudios/plugins/diversion/DiversionSCMFileSystemBuilder.java:84-106 | null unless both source and head are Diversion ones; otherwise a new file system on the head's branch with the source's library path |
| Scm.ScriptPathFor | src/main/java/io/superstudios/plugins/diversion/DiversionSCM.java:94-132 | a non-empty configured script path verbatim; otherwise the found script whenever the search finds one, and job + ".groovy" exactly on no match or a failed listing |
| Scm.LibraryRoot | src/main/java/io/superstudios/plugins/diversion/DiversionSCM.java:176-178 | the configured library path when non-empty, else "Meta/Jenkins/SharedLibs" |
| Scm.LibraryDownloads | src/main/java/io/superstudios/plugins/diversion/DiversionSCM.java:181-203 | every written file comes from a listed path equal to libPath + "/" + its target, with fetched content |
| Scm.LibraryDownloadsComplete | src/main/java/io/superstudios/plugins/diversion/DiversionSCM.java:184-198 | every listed path below libPath + "/" whose content can be fetched is written |
| Scm.DownloadLibrary | src/main/java/io/superstudios/plugins/diversion/DiversionSCM.java:181-204 | the download loop writes exactly LibraryDownloads and counts them |
| Strings.TrimRemovesOnlyEndBlanks | src/main/java/io/superstudios/plugins/diversion/DiversionSCM.java:143-145 | String.trim keeps a slice of its input whose ends are not blanks and removes only characters up to U+0020 at the two ends |
| Scm.CheckoutNeedsCredentials | src/main/java/io/superstudios/plugins/diversion/DiversionSCM.java:142-145 | a null or blank credentials id fails checkout before any marker is touched |
| Scm.CredentialsMissing | src/main/java/io/superstudios/plugins/diversion/DiversionSCM.java:143 | no contract; a null or blank (after trim) credentials id, whose effect CheckoutNeedsCredentials states |
| Scm.IsLibraryWorkspace | src/main/java/io/superstudios/plugins/diversion/DiversionSCM.java:169 | no contract; a workspace path containing "@libs", whose effect CheckoutDownloads and LibraryCheckoutWritesLibraryFiles state |
| Scm.CheckoutDownloads | src/main/java/io/superstudios/plugins/diversion/DiversionSCM.java:167-220 | in a library workspace, failure iff the listing fails, else exactly LibraryDownloads of the library root; otherwise the one script at ScriptPathFor, failing iff its content cannot be fetched |
| Scm.CheckoutOutcome | src/main/java/io/superstudios/plugins/diversion/DiversionSCM.java:135-391 | no contract; its properties are stated by CheckoutNeedsCredentials, LibraryCheckoutWritesLibraryFiles, SameRepositoryLibraryWritesEmptyChangelog, UnchangedHeadWritesEmptyChangelog, FirstBuildReportsLatestCommit and DiversionScm.Checkout |
| Scm.LibraryCheckoutWritesLibraryFiles | src/main/java/io/superstudios/plugins/diversion/DiversionSCM.java:168-204 | a completed checkout into an "@libs" workspace writes exactly the library files |
| Scm.SameRepositoryLibraryWritesEmptyChangelog | src/main/java/io/superstudios/plugins/diversion/DiversionSCM.java:245-277 | the first checkout of a build, a library of the pipeline's own repository, writes the empty changelog document |
| Scm.UnchangedHeadWritesEmptyChangelog | src/main/java/io/superstudios/plugins/diversion/DiversionSCM.java:314-367 | a writing script checkout whose head is the previous build's commit writes the empty changelog |
| Scm.FirstBuildReportsLatestCommit | src/main/java/io/superstudios/plugins/diversion/DiversionSCM.java:336-351 | without a previous commit id the changelog holds exactly the latest commit; a latest commit without an author makes checkout throw |
| Scm.ChangelogAfterClaim | src/main/java/io/superstudios/plugins/diversion/DiversionSCM.java:272-374 | the same-repository skip writes the empty changelog; no claim or a failed head fetch leaves the file untouched; a written changelog is the document of the selected commits |
| Scm.WriteBuildChangelog | src/main/java/io/superstudios/plugins/diversion/DiversionSCM.java:272-374 | the changelog code of checkout computes ChangelogAfterClaim |
| Scm.CalcRevisions | src/main/java/io/superstudios/plugins/diversion/DiversionSCM.java:394-407 | a Diversion state of the latest commit's id and time iff it can be fetched, else an anonymous state |
| Scm.CompareRemote | src/main/java/io/superstudios/plugins/diversion/DiversionSCM.java:421-463 | no changes on a failed head fetch; build now iff the baseline is of another kind; significant iff the head differs from the Diversion baseline |
| Scm.PollingAfterBuild | src/main/java/io/superstudios/plugins/diversion/DiversionSCM.java:394-463 | against a recorded state, polling reports no changes iff the head is still the built commit, never "build now"; against an anonymous state, "build now" |
| Scm.DiversionScm.constructor | src/main/java/io/superstudios/plugins/diversion/DiversionSCM.java:42-52 | branch "main", no script path, no library path |
| Scm.DiversionScm.SetBranch | src/main/java/io/superstudios/plugins/diversion/DiversionSCM.java:55-57 | sets the branch, nothing else |
| Scm.DiversionScm.SetScriptPath | src/main/java/io/superstudios/plugins/diversion/DiversionSCM.java:60-62 | sets the script path, nothing else |
| Scm.DiversionScm.SetLibraryPath | src/main/java/io/superstudios/plugins/diversion/DiversionSCM.java:65-67 | sets the library path, nothing else |
| Scm.DiversionScm.ScriptPathFromJob | src/main/java/io/superstudios/plugins/diversion/DiversionSCM.java:94-132 | getScriptPathFromJob computes ScriptPathFor |
| Scm.DiversionScm.FetchDownloads | src/main/java/io/superstudios/plugins/diversion/DiversionSCM.java:167-220 | the download half of checkout computes CheckoutDownloads: the library files into a library workspace, else the script; a failed listing or script download throws |
| Scm.DiversionScm.Checkout | src/main/java/io/superstudios/plugins/diversion/DiversionSCM.java:135-391 | checkout's result is CheckoutOutcome under the build's current marker; the marker map changes at the build's key only, and only when checkout reaches the marker |
| ChangelogMarker.Transition | src/main/java/io/superstudios/plugins/diversion/DiversionSCM.java:233-270 | the five marker transitions; write and same-repository skip are never both set; skip iff first checkout is a library of the pipeline's repository; a first library checkout stores "library-skipped" for the pipeline's repository and "library" otherwise; a script checkout stores "script" |
| ChangelogMarker.ScriptIsAbsorbing | src/main/java/io/superstudios/plugins/diversion/DiversionSCM.java:262-269 | after "script", no checkout writes and the marker stays "script" |
| ChangelogMarker.LibrariesAfterFirstClaimNothing | src/main/java/io/superstudios/plugins/diversion/DiversionSCM.java:262-269 | with a marker set, library checkouts claim nothing and keep it |
| ChangelogMarker.LibraryNeverClaimsAfterMarker | src/main/java/io/superstudios/plugins/diversion/DiversionSCM.java:262-269 | a library checkout after any marker claims nothing |
| ChangelogMarker.LibraryClaimsOnlyFirst | src/main/java/io/superstudios/plugins/diversion/DiversionSCM.java:236-269 | only the first checkout of a build can be a claiming library checkout |
| ChangelogMarker.ScriptWritesIffFirstScript | src/main/java/io/superstudios/plugins/diversion/DiversionSCM.java:236-266 | a script checkout writes iff every earlier checkout of the build was a library one and the build did not start at "script" |
| ChangelogMarker.ScriptThenSameRepositoryLibrary | src/main/java/io/superstudios/plugins/diversion/DiversionSCM.java:236-269 | script then same-repository library: the script writes, the library writes nothing |
| ChangelogMarker.ChangelogMarkers.ClaimChangelog | src/main/java/io/superstudios/plugins/diversion/DiversionSCM.java:227-270 | the synchronized block returns Transition's claim and stores its marker at the build's key, leaving other keys alone |
| CommitWindow.PreviousCommitId | src/main/java/io/superstudios/plugins/diversion/DiversionSCM.java:286-309 | a previous id exists iff the previous build recorded a Diversion state directly or inside a multi-SCM state |
| CommitWindow.Between | src/main/java/io/superstudios/plugins/diversion/DiversionSCM.java:320-334 | the selection never holds the previous id, starts at the current id, and is empty if the current id is absent |
| CommitWindow.BetweenIsRun | src/main/java/io/superstudios/plugins/diversion/DiversionSCM.java:320-334 | a non-empty selection is the contiguous run from the first occurrence of the current id to the end or to just before the previous id |
| CommitWindow.WindowUpToPrevious | src/main/java/io/superstudios/plugins/diversion/DiversionSCM.java:320-334 | a feed starting at the current head and reaching the previous commit at n yields its first n commits |
| CommitWindow.SelectCommits | src/main/java/io/superstudios/plugins/diversion/DiversionSCM.java:311-340 | no previous id gives [latest]; an equal id gives [] without the feed; otherwise a failure iff listing the feed fails, and on success exactly the feed's commits from the latest up to, not including, the previous one (Between); never the previous commit |
| CommitWindow.CollectSince | src/main/java/io/superstudios/plugins/diversion/DiversionSCM.java:320-334 | the foundCurrent loop with its break computes Between |
| ChangelogXml.ReplaceChainOfPlain | src/main/java/io/superstudios/plugins/diversion/DiversionSCM.java:528-535 | text without the five markup characters is left unchanged |
| ChangelogXml.EscapeXml | src/main/java/io/superstudios/plugins/diversion/DiversionSCM.java:528-535 | no contract; "" for null, else the replace chain, whose properties are stated by ReplaceChainIsEscapeEach, EscapeXmlHasNoMarkup and UnescapeEscapeXml |
| ChangelogXml.ReplaceChainIsEscapeEach | src/main/java/io/superstudios/plugins/diversion/DiversionSCM.java:528-535 | the chain of replace calls, "&" first, escapes each character independently |
| ChangelogXml.EscapeXmlHasNoMarkup | src/main/java/io/superstudios/plugins/diversion/DiversionSCM.java:528-535 | escaped text holds no raw "<", ">", quote or apostrophe |
| ChangelogXml.UnescapeEscapeXml | src/main/java/io/superstudios/plugins/diversion/DiversionSCM.java:528-535 | decoding the five entities restores the text; null becomes "" |
| ChangelogXml.EntriesXml | src/main/java/io/superstudios/plugins/diversion/DiversionSCM.java:347-364 | the entries can be written iff every selected commit has an author |
| ChangelogXml.EntryHead | src/main/java/io/superstudios/plugins/diversion/DiversionSCM.java:348-352 | no contract; the start tag and the four element lines, which ChangelogLines.EntryHeadReadsBack reads back |
| ChangelogXml.FilesXml | src/main/java/io/superstudios/plugins/diversion/DiversionSCM.java:357-359 | no contract; one file line per file, stated by ChangelogLines.FileLinesStep and FileLineReadsBack and computed by WriteFiles |
| ChangelogXml.EntryXml | src/main/java/io/superstudios/plugins/diversion/DiversionSCM.java:347-363 | no contract; None for a commit without an author (the writer throws), else the head, the files block and the end tag; WriteEntry computes it |
| ChangelogXml.ChangelogDocument | src/main/java/io/superstudios/plugins/diversion/DiversionSCM.java:343-367 | no contract; the declaration, the entries and the closing tag, stated by EntriesXml, NoCommitsIsEmptyChangelog, WriteChangelog and the round-trip lemmas |
| ChangelogXml.EntriesAppend | src/main/java/io/superstudios/plugins/diversion/DiversionSCM.java:347-364 | one entry per commit, in order |
| ChangelogXml.NoCommitsIsEmptyChangelog | src/main/java/io/superstudios/plugins/diversion/DiversionSCM.java:343-366 | the document of no commits is the empty changelog document |
| ChangelogXml.WriteFiles | src/main/java/io/superstudios/plugins/diversion/DiversionSCM.java:357-359 | the file loop writes FilesXml |
| ChangelogXml.WriteEntry | src/main/java/io/superstudios/plugins/diversion/DiversionSCM.java:348-363 | one entry, with a files block only for a non-null, non-empty file list |
| ChangelogXml.WriteChangelog | src/main/java/io/superstudios/plugins/diversion/DiversionSCM.java:343-367 | the writer produces ChangelogDocument, or throws when a commit has no author |
| ChangelogLines.ElementLineReadsBack | src/main/java/io/superstudios/plugins/diversion/DiversionSCM.java:348-359 | a line of indentation, start tag, text without "<" and end tag reads back as its tag with the text decoded |
| ChangelogLines.TextLineReadsBack | src/main/java/io/superstudios/plugins/diversion/DiversionSCM.java:348-359 | a line holding escaped text reads back as the element with the text the parser reports (null as "") |
| ChangelogLines.EntryHeadReadsBack | src/main/java/io/superstudios/plugins/diversion/DiversionSCM.java:349-352 | the commitId, msg, author and timestamp lines of a written entry read back, in order, as the first four elements the parser is given |
| ChangelogLines.FileLinesStep | src/main/java/io/superstudios/plugins/diversion/DiversionSCM.java:357-359 | each turn of the file loop appends the line of the next file |
| ChangelogLines.FileLineReadsBack | src/main/java/io/superstudios/plugins/diversion/DiversionSCM.java:357-359 | the line of file k reads back as the k-th `<file>` element |
| ChangelogLines.UnescapePlain | src/main/java/io/superstudios/plugins/diversion/DiversionChangeLogParser.java:49 | text without "&" is read as itself |
| ChangelogLines.LongToStringPlain | src/main/java/io/superstudios/plugins/diversion/DiversionSCM.java:352 | a written timestamp holds neither "<" nor "&" |
| ChangeLogEntries.NewEntry | src/main/java/io/superstudios/plugins/diversion/DiversionChangeLogEntry.java:20-26 | getters return the arguments; no affected paths |
| ChangeLogEntries.NewEntryWithPaths | src/main/java/io/superstudios/plugins/diversion/DiversionChangeLogEntry.java:28-34 | getters return the arguments; affected paths are the collection, or empty for null |
| ChangeLogEntries.NullPathsIsFourArgumentEntry | src/main/java/io/superstudios/plugins/diversion/DiversionChangeLogEntry.java:25-33 | a null or empty collection gives the four-argument entry |
| ChangeLogEntries.DisplayName | src/main/java/io/superstudios/plugins/diversion/DiversionChangeLogEntry.java:75-91 | commitId + " — " + message for a non-empty commit id, else the message (getMsgAnnotated is the same) |
| ChangeLogEntries.ToString | src/main/java/io/superstudios/plugins/diversion/DiversionChangeLogEntry.java:67-69 | commitId + ": " + message, with "null" for null |
| ChangeLogEntries.DateMillis | src/main/java/io/superstudios/plugins/diversion/DiversionChangeLogEntry.java:62-64 | timestamp * 1000 in long arithmetic: wrapped modulo 2^64, exact while it fits |
| ChangeLogEntries.UserName | src/main/java/io/superstudios/plugins/diversion/DiversionChangeLogEntry.java:42-47 | the author's name when both exist, else the unknown user |
| ChangeLogParser.ElementText | src/main/java/io/superstudios/plugins/diversion/DiversionChangeLogParser.java:103-109 | "" for a missing tag, else the text of its first occurrence |
| ChangeLogParser.ParseEntry | src/main/java/io/superstudios/plugins/diversion/DiversionChangeLogParser.java:42-79 | no contract; its properties are stated by ReadEntry and ChangelogRoundTrip.WrittenEntryParsesBack |
| ChangeLogParser.AffectedPaths | src/main/java/io/superstudios/plugins/diversion/DiversionChangeLogParser.java:56-63 | no contract; stated by AffectedPathsAreTrimmed, ReadAffectedPaths and ChangelogRoundTrip.FileNodesAffectedPaths |
| ChangeLogParser.AffectedPathsAreTrimmed | src/main/java/io/superstudios/plugins/diversion/DiversionChangeLogParser.java:56-63 | at most one path per element, each trimmed and non-blank (the order and the trimming itself are stated by FileNodesAffectedPaths) |
| ChangeLogParser.ParseTimestamp | src/main/java/io/superstudios/plugins/diversion/DiversionChangeLogParser.java:47-53 | Long.parseLong of the text, or the clock in seconds when it does not parse |
| ChangeLogParser.ParsedAuthor | src/main/java/io/superstudios/plugins/diversion/DiversionChangeLogParser.java:66-70 | name and full name are the author text; id and email are "" |
| ChangeLogParser.ParseChangelog | src/main/java/io/superstudios/plugins/diversion/DiversionChangeLogParser.java:19-98 | no file or an unparsable one gives no entries; else one entry per element, in order, each with its parent set |
| ChangeLogParser.ReadAffectedPaths | src/main/java/io/superstudios/plugins/diversion/DiversionChangeLogParser.java:56-63 | the file loop computes AffectedPaths |
| ChangeLogParser.ReadEntry | src/main/java/io/superstudios/plugins/diversion/DiversionChangeLogParser.java:42-79 | one entry element read as ParseEntry |
| ChangeLogParser.ReadSoFarAt | src/main/java/io/superstudios/plugins/diversion/DiversionChangeLogParser.java:37-80 | the k-th entry read is the k-th entry element parsed on its own |
| ChangeLogParser.ReadEntries | src/main/java/io/superstudios/plugins/diversion/DiversionChangeLogParser.java:37-80 | the entry loop reads every element, in order, one entry per element |
| ChangeLogParser.AttachEntries | src/main/java/io/superstudios/plugins/diversion/DiversionChangeLogParser.java:83-87 | every entry gets its parent set, nothing else changes |
| ChangeLogParser.Parse | src/main/java/io/superstudios/plugins/diversion/DiversionChangeLogParser.java:19-98 | parse computes ParseChangelog |
| ChangelogRoundTrip.FileNodesAffectedPaths | src/main/java/io/superstudios/plugins/diversion/DiversionChangeLogParser.java:56-63 | the written file list reads back as its trimmed non-blank paths |
| ChangelogRoundTrip.WrittenAffectedPaths | src/main/java/io/superstudios/plugins/diversion/DiversionChangeLogParser.java:56-63 | an entry's affected paths read back as the commit's trimmed changed files |
| ChangelogRoundTrip.WrittenEntryParsesBack | src/main/java/io/superstudios/plugins/diversion/DiversionChangeLogParser.java:39-79 | a written entry reads back with the commit's id, message (null as ""), author name and timestamp |
| ChangelogRoundTrip.ChangelogParsesBack | src/main/java/io/superstudios/plugins/diversion/DiversionChangeLogParser.java:37-89 | a written changelog reads back as one entry per commit, in order |
| ChangelogRoundTrip.ParsedEntryDisplayName | src/main/java/io/superstudios/plugins/diversion/DiversionChangeLogEntry.java:75-80 | a read-back entry displays as commitId + " — " + message |
| JavaLang.WrapLong | src/main/java/io/superstudios/plugins/diversion/DiversionSCMFileSystem.java:64 | long multiplication wraps modulo 2^64 and is exact in range |
| JavaLang.StringHash | src/main/java/io/superstudios/plugins/diversion/DiversionSCMRevisionState.java:39 | no contract; String.hashCode (s[0]*31^(n-1) + … + s[n-1] in int arithmetic), used by StateHashAgreesWithEquals and RevisionEqualsIgnoresHead |
| JavaLang.LongToString | src/main/java/io/superstudios/plugins/diversion/DiversionSCM.java:352 | no contract; the decimal form of a long, read back by ParseLongOfLongToString |
| JavaLang.ParseLong | src/main/java/io/superstudios/plugins/diversion/DiversionChangeLogParser.java:49 | a value only for non-empty text; it reads back what LongToString writes (ParseLongOfLongToString) |
| JavaLang.ToInt32 | src/main/java/io/superstudios/plugins/diversion/DiversionSCMRevisionState.java:39 | the (int) cast and int addition wrap modulo 2^32 |
| JavaLang.ParseLongOfLongToString | src/main/java/io/superstudios/plugins/diversion/DiversionChangeLogParser.java:49 | Long.parseLong reads back what the writer's long-to-string wrote |
| JavaLang.MillisToSeconds | src/main/java/io/superstudios/plugins/diversion/DiversionChangeLogParser.java:52 | long division by 1000 truncates toward zero |
| Revisions.StateEqualsIsFieldEquality | src/main/java/io/superstudios/plugins/diversion/DiversionSCMRevisionState.java:28-35 | equal iff of the same class with equal commit id and timestamp; reflexive |
| Revisions.StateEquals | src/main/java/io/superstudios/plugins/diversion/DiversionSCMRevisionState.java:28-35 | no contract; stated by StateEqualsIsFieldEquality |
| Revisions.StateHash | src/main/java/io/superstudios/plugins/diversion/DiversionSCMRevisionState.java:38-40 | no contract; stated by StateHashAgreesWithEquals and StateHashSeesLowBitsOnly |
| Revisions.StateHashAgreesWithEquals | src/main/java/io/superstudios/plugins/diversion/DiversionSCMRevisionState.java:38-40 | equal states hash equally |
| Revisions.StateHashSeesLowBitsOnly | src/main/java/io/superstudios/plugins/diversion/DiversionSCMRevisionState.java:38-40 | timestamps that differ by a multiple of 2^32 hash equally |
| Revisions.RevisionEqualsIgnoresHead | src/main/java/io/superstudios/plugins/diversion/DiversionSCMRevision.java:33-44 | equal iff same class and commit id, whatever the heads; reflexive, symmetric; equal revisions hash equally |
| Revisions.RevisionEquals | src/main/java/io/superstudios/plugins/diversion/DiversionSCMRevision.java:33-39 | no contract; stated by RevisionEqualsIgnoresHead |
| Revisions.RevisionHash | src/main/java/io/superstudios/plugins/diversion/DiversionSCMRevision.java:42-44 | no contract; stated by RevisionEqualsIgnoresHead |
| ScmSource.VarsHitOf | src/main/java/io/superstudios/plugins/diversion/DiversionSCMSource.java:316-327 | a path counts only if it contains "/vars/" and ends with ".groovy"; the parent is the non-empty text before the first "/vars/"; a leading "/vars/" sets the root flag |
| ScmSource.PlainVarsIsNotRoot | src/main/java/io/superstudios/plugins/diversion/DiversionSCMSource.java:317-326 | "vars/x.groovy" never sets the root flag |
| ScmSource.ScanVarsParents | src/main/java/io/superstudios/plugins/diversion/DiversionSCMSource.java:310-328 | the loop collects exactly the detected parents and the root flag of the listing |
| ScmSource.SortedPaths | src/main/java/io/superstudios/plugins/diversion/DiversionSCMSource.java:338-339 | the parents, strictly sorted, each once |
| ScmSource.LibraryPathValues | src/main/java/io/superstudios/plugins/diversion/DiversionSCMSource.java:289-347 | a non-empty current path comes first, then the root; every detected parent is offered; nothing more without a listing or a detection |
| ScmSource.DiversionScmSource.constructor | src/main/java/io/superstudios/plugins/diversion/DiversionSCMSource.java:39-48 | library path "vars" and default branch "dev" |
| ScmSource.DiversionScmSource.SetLibraryPath | src/main/java/io/superstudios/plugins/diversion/DiversionSCMSource.java:62-65 | sets the library path, nothing else |
| ScmSource.DiversionScmSource.SetDefaultBranch | src/main/java/io/superstudios/plugins/diversion/DiversionSCMSource.java:71-74 | sets the default branch, nothing else |
| ScmSource.DiversionScmSource.BranchFor | src/main/java/io/superstudios/plugins/diversion/DiversionSCMSource.java:87 | the version itself when it starts with "dv.branch.", else the default branch |
| ScmSource.DiversionScmSource.RetrieveVersion | src/main/java/io/superstudios/plugins/diversion/DiversionSCMSource.java:82-98 | throws iff the lookup fails; else a revision of the branch's head with its commit id, or "HEAD" for null |
| ScmSource.DiversionScmSource.RetrieveHead | src/main/java/io/superstudios/plugins/diversion/DiversionSCMSource.java:102-123 | throws iff the head is not a Diversion head; a revision carrying the head and its non-empty commit id exactly when the lookup gives one; else null |
| ScmSource.DiversionScmSource.Build | src/main/java/io/superstudios/plugins/diversion/DiversionSCMSource.java:201-211 | rejects a non-Diversion head; else a new DiversionSCM on the head's branch with the source's library path |
| ScmSource.DiversionScmSource.LibraryPathItems | src/main/java/io/superstudios/plugins/diversion/DiversionSCMSource.java:289-347 | the dropdown's values from the current path and the detected parents (sorted, each once) and root flag of the listing; one extra entry when the listing fails |

## Left out

- The Diversion API client (HTTP, OAuth, proxies, JSON parsing) is not part of this model. Its answers are inputs (`Fetch` values and functions returning them), and an API exception is `FetchFailed`.
- Credential lookup and `CredentialsProvider.track` are left out: they have no effect on what checkout decides. `InterruptedException` is treated like any other failure of the call that throws it.
- The reflective lookup inside a `MultiSCMRevisionState` and `getPipelineRepositoryId` are given by their results (`Option<string>`), because reflection has no Dafny counterpart.
- The per-build marker lives in `System` properties inside `synchronized (build)`. It is modelled as a map field updated by one checkout at a time, so concurrency is not modelled.
- Workspace writes, directory creation, log output and `FileWriter` are left out. Downloads and the changelog are returned as values. A changelog writer that throws part-way leaves a partial file; the model says only that checkout throws.
- The clock (`System.currentTimeMillis()`) is a parameter.
- `String.hashCode` and `String.compareTo` are defined on Dafny characters, not on UTF-16 code units, so strings outside the Basic Multilingual Plane may hash and sort differently.
- ChangeLogParser.ParseChangelog: the XML parser and its DOM are abstracted to the list of elements below each `<entry>`, with their texts already decoded. Any parse error is `Unparsable`. `ChangelogRoundTrip.WrittenDocument` is that assumed DOM of a written changelog. `ChangelogLines` proves that every element line checkout writes inside an entry reads back as the matching element of `WrittenElements` (tag and decoded text). The nesting of those lines into `<entry>` and `<changelog>`, the text of the `<files>` element (its whitespace) and the parser's line-end normalisation ('\r') are not modelled. A text holding a character XML 1.0 does not allow (U+0001, U+001B) makes the real parser throw, so the round-trip lemmas hold only for texts of allowed characters.
- ChangeLogParser.ParseChangelog: an exception after parsing would return the entries accumulated so far. Nothing in the entry loop can throw once the document has parsed, so the model returns no entries for an unparsable file only.
- ChangeLogParser.ParseEntry has no contract of its own. Its properties are stated by the round-trip lemmas.
- `getMsgAnnotated` is the same function as `getDisplayName` and is modelled once (ChangeLogEntries.DisplayName).
- Commit ids are never null in the model. A null id in the commit feed would make checkout throw a `NullPointerException`, which is not modelled.
- `DiversionSCMSource.retrieve(criteria, observer, …)` (branch discovery), `DiversionSCMHead`, `DiversionChangeLogSet`, the descriptors, the dropdowns' labels, their permission checks and every other `doFill*Items` are left out. They are Jenkins plumbing and user-interface text. Of `doFillLibraryPathItems`, only the values are modelled.
- The API's record classes (commits, branches, authors, files) are plain datatypes without their Jackson annotations.
- ScmFile.ChildKindAgreesWithType: holds only for a parent path without a trailing "/". With one, the child's path has a doubled "/" and type() reports it as nonexistent (ScmFile.TrailingSlashParentChild).
- ScmFile.FileChildHasNoChildren: the same restriction to parent paths without a trailing "/".
- ScmFile.RegularFileHasNoChildren: stated for paths without a trailing "/". In a listing holding both "a/" and "a/x", type() reports "a/" as a regular file while children() of "a/" finds "x".
- ChangeLogParser.ParseTimestamp: `Long.parseLong` accepts any Unicode decimal digit (it reads digits through `Character.digit`, so fullwidth "１２" parses as 12); the model accepts only ASCII '0'..'9' and falls back to the clock for any other text. The writer only ever writes ASCII digits, so the round trip is unaffected.
