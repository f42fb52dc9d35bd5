/**
 * The conversation `download_https_uri_to_file` holds with the
 * `git-remote-https` helper: ask for its capabilities, read them up to a
 * blank line, and ask it to `get` the URI only if it offers `get`.
 * The helper's reply lines and its exit status are inputs; the lines
 * written to the helper are returned as a trace.
 */
module Transport {
  /**
   * The request line asking the helper to write `uri` into `file`: the word
   * `get`, a space, the URI, a space, the file name.
   */
  function GetRequest(uri: string, file: string): (line: string)
    ensures |line| == 5 + |uri| + |file|
    ensures line[..4] == "get " && line[4..4 + |uri|] == uri && line[4 + |uri|] == ' ' && line[5 + |uri|..] == file
  {
    "get " + uri + " " + file
  }

  /** A URI without spaces and the file name can be read back from the request line. */
  lemma GetRequestInjective(uri1: string, file1: string, uri2: string, file2: string)
    requires ' ' !in uri1 && ' ' !in uri2
    requires GetRequest(uri1, file1) == GetRequest(uri2, file2)
    ensures uri1 == uri2 && file1 == file2
  {
  }

  /**
   * The helper advertises `get`: a line exactly equal to "get" comes before
   * the first blank line (or the end of its output).
   */
  function AdvertisesGet(replies: seq<string>): (b: bool)
    ensures b <==> exists i :: 0 <= i < |replies| && replies[i] == "get" && forall j :: 0 <= j < i ==> replies[j] != ""
  {
    if replies == [] || replies[0] == "" then false
    else if replies[0] == "get" then true
    else
      var b := AdvertisesGet(replies[1..]);
      assert b ==> exists i :: 1 <= i < |replies| && replies[i] == "get" && forall j :: 0 <= j < i ==> replies[j] != "" by {
        if b {
          var i :| 0 <= i < |replies[1..]| && replies[1..][i] == "get" && forall j :: 0 <= j < i ==> replies[1..][j] != "";
          assert replies[i + 1] == "get";
        }
      }
      b
  }

  /** What the download returns: 1 if the helper failed, else 0 with `get`, else -1 (`error()`). */
  function DownloadResult(replies: seq<string>, exitStatus: int): (r: int)
    ensures r == 0 <==> exitStatus == 0 && AdvertisesGet(replies)
    ensures exitStatus != 0 ==> r == 1
    ensures exitStatus == 0 && !AdvertisesGet(replies) ==> r == -1
  {
    if exitStatus != 0 then 1
    else if AdvertisesGet(replies) then 0
    else -1
  }

  /** The capability loop: read lines until a blank one or the end, noting an exact `get`. */
  method ScanCapabilities(replies: seq<string>) returns (foundGet: bool)
    ensures foundGet == AdvertisesGet(replies)
  {
    foundGet := false;
    var i := 0;
    while i < |replies|
      invariant i <= |replies|
      invariant forall j :: 0 <= j < i ==> replies[j] != ""
      invariant foundGet <==> exists j :: 0 <= j < i && replies[j] == "get"
    {
      var line := replies[i];
      if line == "" {
        break;
      }
      if line == "get" {
        foundGet := true;
      }
      i := i + 1;
    }
  }

  /**
   * `download_https_uri_to_file` once the helper runs: the lines written to
   * it, and the result. The `get` request is written exactly when the helper
   * advertised `get`; a helper that exits nonzero fails the download
   * whatever it said.
   */
  method DownloadHttpsUriToFile(uri: string, file: string, replies: seq<string>, exitStatus: int)
    returns (result: int, sent: seq<string>)
    ensures result == DownloadResult(replies, exitStatus)
    ensures |sent| > 0 && sent[0] == "capabilities"
    ensures AdvertisesGet(replies) ==> sent == ["capabilities", GetRequest(uri, file), ""]
    ensures !AdvertisesGet(replies) ==> sent == ["capabilities"]
    ensures GetRequest(uri, file) in sent <==> AdvertisesGet(replies)
  {
    assert GetRequest(uri, file)[0] == 'g' && "capabilities"[0] == 'c';
    result := 0;
    sent := ["capabilities"];
    var foundGet := ScanCapabilities(replies);
    if !foundGet {
      result := -1;
    } else {
      sent := sent + [GetRequest(uri, file), ""];
    }
    // cleanup: a nonzero exit from finish_command overrides the result.
    if exitStatus != 0 {
      return 1, sent;
    }
  }

  /** A helper that never sends a line equal to "get" fails the download and gets no `get` request. */
  lemma NoGetNoRequest(replies: seq<string>, exitStatus: int)
    requires "get" !in replies
    ensures !AdvertisesGet(replies) && DownloadResult(replies, exitStatus) != 0
  {
  }

  /** Lines after the blank line that ends the capability block are never looked at. */
  lemma {:induction false} BlankLineEndsCapabilities(block: seq<string>, rest: seq<string>)
    requires forall i :: 0 <= i < |block| ==> block[i] != ""
    ensures AdvertisesGet(block + [""] + rest) == AdvertisesGet(block)
  {
    if block != [] {
      assert (block + [""] + rest)[1..] == block[1..] + [""] + rest;
      BlankLineEndsCapabilities(block[1..], rest);
    }
  }
}
