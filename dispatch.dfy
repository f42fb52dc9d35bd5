/**
 * `copy_uri_to_file`: fetch a bundle URI into a local file, choosing the
 * strategy from the URI's scheme. `copy_file` is not modelled; its status
 * is an input.
 */
module Dispatch {
  import opened CString
  import opened Transport

  /** The two ways a URI is retrieved. */
  datatype Strategy =
    | ViaHelper(uri: string)     // the remote helper, given the URI unchanged
    | LocalCopy(path: string)    // a plain file copy from `path`

  const FileScheme := "file://"

  /**
   * `https:` and `http:` URIs go to the helper untouched; a `file://` URI is
   * copied from what follows the scheme; anything else is taken as a path.
   */
  function SelectStrategy(uri: string): (st: Strategy)
    ensures st.ViaHelper? <==> HasPrefix(uri, "https:") || HasPrefix(uri, "http:")
    ensures st.ViaHelper? ==> st.uri == uri
    ensures st.LocalCopy? && HasPrefix(uri, FileScheme) ==> FileScheme + st.path == uri
    ensures st.LocalCopy? && !HasPrefix(uri, FileScheme) ==> st.path == uri
  {
    if HasPrefix(uri, "https:") || HasPrefix(uri, "http:") then ViaHelper(uri)
    else if HasPrefix(uri, FileScheme) then
      assert uri == FileScheme + uri[|FileScheme|..];
      LocalCopy(uri[|FileScheme|..])
    else LocalCopy(uri)
  }

  /** What the retrieval did: the lines written to the helper, or the copy it made. */
  datatype Retrieval =
    | HelperSession(sent: seq<string>)
    | FileCopy(src: string, dest: string)

  /** The status `copy_uri_to_file` returns; `!!copy_file(...)` turns any copy failure into 1. */
  function CopyResult(uri: string, replies: seq<string>, helperExit: int, copyStatus: int): (r: int)
    ensures SelectStrategy(uri).LocalCopy? ==> r == 0 || r == 1
    ensures SelectStrategy(uri).LocalCopy? ==> (r == 0 <==> copyStatus == 0)
    ensures SelectStrategy(uri).ViaHelper? ==> (r == 0 <==> helperExit == 0 && AdvertisesGet(replies))
  {
    match SelectStrategy(uri)
    case ViaHelper(_) => DownloadResult(replies, helperExit)
    case LocalCopy(_) => if copyStatus != 0 then 1 else 0
  }

  /** `copy_uri_to_file(uri, file)`: exactly one of the two strategies runs. */
  method CopyUriToFile(uri: string, file: string, replies: seq<string>, helperExit: int, copyStatus: int)
    returns (result: int, how: Retrieval)
    ensures result == CopyResult(uri, replies, helperExit, copyStatus)
    ensures how.HelperSession? <==> SelectStrategy(uri).ViaHelper?
    ensures how.HelperSession? ==> (GetRequest(uri, file) in how.sent <==> AdvertisesGet(replies))
    ensures how.HelperSession? ==>
      how.sent == if AdvertisesGet(replies) then ["capabilities", GetRequest(uri, file), ""] else ["capabilities"]
    ensures how.FileCopy? ==> how == FileCopy(SelectStrategy(uri).path, file)
  {
    if HasPrefix(uri, "https:") || HasPrefix(uri, "http:") {
      var sent;
      result, sent := DownloadHttpsUriToFile(uri, file, replies, helperExit);
      how := HelperSession(sent);
      return;
    }
    var out := uri;
    if HasPrefix(uri, FileScheme) {
      out := uri[|FileScheme|..];
    }
    // Copy as a file.
    how := FileCopy(out, file);
    result := if copyStatus != 0 then 1 else 0;
  }

  /** `file://<path>` is copied from `<path>`. */
  lemma FileUriIsCopied(path: string)
    ensures SelectStrategy(FileScheme + path) == LocalCopy(path)
  {
    var uri := FileScheme + path;
    assert uri[0] == 'f';
    assert HasPrefix(uri, FileScheme) && uri[|FileScheme|..] == path;
  }

  /** A URI with no recognised scheme is copied from itself, verbatim. */
  lemma PlainPathIsCopied(path: string)
    requires !HasPrefix(path, "https:") && !HasPrefix(path, "http:") && !HasPrefix(path, FileScheme)
    ensures SelectStrategy(path) == LocalCopy(path)
  {
  }

  /** `https:` and `http:` URIs go to the helper, unchanged. */
  lemma WebUriUsesHelper(rest: string)
    ensures SelectStrategy("https:" + rest) == ViaHelper("https:" + rest)
    ensures SelectStrategy("http:" + rest) == ViaHelper("http:" + rest)
  {
    assert HasPrefix("https:" + rest, "https:");
    assert HasPrefix("http:" + rest, "http:");
  }

  /** `file:///tmp/x` and `/tmp/x` are both a copy of `/tmp/x`. */
  lemma FileUriAndPathAgree()
    ensures SelectStrategy("file:///tmp/x") == SelectStrategy("/tmp/x") == LocalCopy("/tmp/x")
  {
    FileUriIsCopied("/tmp/x");
    assert FileScheme + "/tmp/x" == "file:///tmp/x";
    assert "/tmp/x"[0] == '/';
    PlainPathIsCopied("/tmp/x");
  }
}
