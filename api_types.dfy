/** The values the Diversion API returns, as the plugin reads them. The HTTP
    client that produces them is not part of this model: every operation that
    needs one takes it as a parameter. */
module ApiTypes {
  import opened Wrappers
  import opened JavaLang

  /** One row of a tree listing: its path and whether it carries a blob
      (DiversionFile's "blob"/"tree" type). */
  datatype Entry = Entry(path: string, hasBlob: bool)

  /** The paths of a listing, in listing order. */
  function Paths(entries: seq<Entry>): (ps: seq<string>)
    ensures |ps| == |entries|
    ensures forall i :: 0 <= i < |entries| ==> ps[i] == entries[i].path
  {
    seq(|entries|, i requires 0 <= i < |entries| => entries[i].path)
  }

  /** The paths of a listing fetch, or the failure. */
  function FetchPaths(listing: Fetch<seq<Entry>>): Fetch<seq<string>> {
    match listing
    case Fetched(es) => Fetched(Paths(es))
    case FetchFailed => FetchFailed
  }

  datatype Author = Author(id: Option<string>, name: Option<string>, fullName: Option<string>, email: Option<string>)

  /** A commit of the newest-first commit feed; `createdTs` is in seconds. The
      author is absent when the feed has no "author" object. */
  datatype Commit = Commit(
    commitId: string,
    createdTs: Long,
    commitMessage: Option<string>,
    author: Option<Author>,
    changedFiles: Option<seq<string>>)

  /** A branch and the commit it points to (none for an empty branch). */
  datatype Branch = Branch(branchId: string, branchName: string, commitId: Option<string>)

  /** A Jenkins SCMHead: a DiversionSCMHead carries the branch id as well. */
  datatype ScmHead = DiversionHead(name: string, branchId: string) | OtherHead(name: string)
}
