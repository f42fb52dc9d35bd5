/**
 * `fetch_bundle_uri`: name a scratch file, retrieve the URI into it, check
 * that it is a bundle, unbundle it, and on full success set
 * `log.excludedecoration`; the scratch file is unlinked on every path once
 * it has a name. What the outside world does is given as an `Env`, and
 * what the fetch does to it is returned as a list of events.
 */
module Fetch {
  import opened Wrappers
  import opened CString
  import opened Status
  import opened Transport
  import opened Dispatch
  import opened Unbundle

  /** The answers of everything the fetch calls but this model does not contain. */
  datatype Env = Env(
    tempName: Option<string>,             // the name `odb_mkstemp` found, None when it failed
    helperReplies: seq<string>,           // the lines the remote helper prints
    helperExit: int,                      // the helper's exit status, as `finish_command` reports it
    copyStatus: int,                      // what `copy_file` returns
    isBundle: bool,                       // what `is_bundle` says of the scratch file
    header: Option<seq<HeaderRef>>,       // the header `read_bundle_header` reads, None when it fails
    unbundleStatus: int)                  // what `unbundle` returns

  /** What the fetch does, in order. */
  datatype Event =
    | TempFileNamed(name: string)
    | Retrieved(how: Retrieval)
    | BundleChecked(file: string)
    | Unbundled(file: string, updates: seq<RefUpdate>)
    | ConfigSet(key: string, value: string, valuePattern: string)
    | Unlinked(name: string)

  const DecorationKey := "log.excludedecoration"
  const DecorationValue := "refs/bundle/"

  /** The configuration write made after a fully successful fetch. */
  function DecorationSetting(): Event {
    ConfigSet(DecorationKey, DecorationValue, DecorationValue)
  }

  /**
   * The statuses of the three steps, in the order they run: retrieval,
   * the bundle check, and unbundling.
   */
  function StepResults(uri: string, env: Env): (rs: seq<int>)
    ensures |rs| == 3
    ensures rs[0] == 0 <==>
      if SelectStrategy(uri).ViaHelper? then env.helperExit == 0 && AdvertisesGet(env.helperReplies)
      else env.copyStatus == 0
    ensures rs[1] == 0 <==> env.isBundle
    ensures rs[2] == 0 <==> env.header.Some? && env.unbundleStatus == 0
  {
    [CopyResult(uri, env.helperReplies, env.helperExit, env.copyStatus),
     if env.isBundle then 0 else 1,
     UnbundleResult(env.header, env.unbundleStatus)]
  }

  /**
   * The events of a fetch that named `name`, given how the retrieval went,
   * the statuses of the three steps and the ref updates of the unbundling:
   * each step after the retrieval runs only when the ones before it
   * succeeded, the decoration setting only when all of them did, and the
   * unlink comes last on every path.
   */
  function Trace(name: string, how: Retrieval, rs: seq<int>, updates: seq<RefUpdate>): seq<Event>
    requires |rs| == 3
  {
    var checked := if rs[0] != 0 then [] else [BundleChecked(name)];
    var unbundled := if rs[0] != 0 || rs[1] != 0 then [] else [Unbundled(name, updates)];
    var decorated := if rs[0] != 0 || rs[1] != 0 || rs[2] != 0 then [] else [DecorationSetting()];
    [TempFileNamed(name), Retrieved(how)] + checked + unbundled + decorated + [Unlinked(name)]
  }

  /** `Trace` spelled out for each way the steps can end. */
  lemma TraceShape(name: string, how: Retrieval, rs: seq<int>, updates: seq<RefUpdate>)
    requires |rs| == 3
    ensures rs[0] != 0 ==> Trace(name, how, rs, updates) == [TempFileNamed(name), Retrieved(how), Unlinked(name)]
    ensures rs[0] == 0 && rs[1] != 0 ==>
      Trace(name, how, rs, updates) == [TempFileNamed(name), Retrieved(how), BundleChecked(name), Unlinked(name)]
    ensures rs[0] == 0 && rs[1] == 0 && rs[2] != 0 ==>
      Trace(name, how, rs, updates)
        == [TempFileNamed(name), Retrieved(how), BundleChecked(name), Unbundled(name, updates), Unlinked(name)]
    ensures rs[0] == 0 && rs[1] == 0 && rs[2] == 0 ==>
      Trace(name, how, rs, updates)
        == [TempFileNamed(name), Retrieved(how), BundleChecked(name), Unbundled(name, updates),
            DecorationSetting(), Unlinked(name)]
  {
  }

  /**
   * What every trace promises: the scratch file is unlinked last and only
   * there; the bundle is checked exactly when the retrieval succeeded,
   * unbundled exactly when the check succeeded as well, and the decoration
   * setting is written exactly when every step succeeded.
   */
  lemma TraceFacts(name: string, how: Retrieval, rs: seq<int>, updates: seq<RefUpdate>)
    requires |rs| == 3
    ensures var t := Trace(name, how, rs, updates);
      && |t| >= 3 && t[0] == TempFileNamed(name) && t[1] == Retrieved(how) && t[|t| - 1] == Unlinked(name)
      && (forall i :: 0 <= i < |t| - 1 ==> !t[i].Unlinked?)
      && (BundleChecked(name) in t <==> rs[0] == 0)
      && (Unbundled(name, updates) in t <==> rs[0] == 0 && rs[1] == 0)
      && (DecorationSetting() in t <==> FirstNonzero(rs) == 0)
  {
    TraceShape(name, how, rs, updates);
    FirstNonzeroOfThree(rs[0], rs[1], rs[2]);
    assert rs == [rs[0], rs[1], rs[2]];
  }

  /**
   * `fetch_bundle_uri(r, uri)`. `died` is true when no scratch name could
   * be found (`die`: nothing else happens). Otherwise the result is the first
   * failing step's status, the retrieval writes into the scratch file, and
   * the events are `Trace` of the step statuses: the `TraceFacts` lemmas
   * say what that sequence holds.
   */
  method FetchBundleUri(uri: string, env: Env, refs: map<string, ObjectId>)
    returns (died: bool, result: int, events: seq<Event>, refs': map<string, ObjectId>)
    ensures died <==> env.tempName.None?
    ensures died ==> events == [] && refs' == refs
    ensures !died ==> result == FirstNonzero(StepResults(uri, env))
    // The retrieval writes into the scratch file.
    ensures !died ==> |events| >= 3 && events[1].Retrieved?
    ensures !died ==> (events[1].how.HelperSession? <==> SelectStrategy(uri).ViaHelper?)
    ensures !died && events[1].how.FileCopy? ==> events[1].how == FileCopy(SelectStrategy(uri).path, env.tempName.value)
    ensures !died && events[1].how.HelperSession? ==>
      (GetRequest(uri, env.tempName.value) in events[1].how.sent <==> AdvertisesGet(env.helperReplies))
    ensures !died && events[1].how.HelperSession? ==>
      events[1].how.sent == if AdvertisesGet(env.helperReplies)
                            then ["capabilities", GetRequest(uri, env.tempName.value), ""]
                            else ["capabilities"]
    // The rest of the trace follows the step statuses.
    ensures !died ==> events == Trace(env.tempName.value, events[1].how, StepResults(uri, env),
                                      if env.header.Some? then Remap(env.header.value, refs) else [])
    // Refs change only when the unbundling step ran.
    ensures (!died && StepResults(uri, env)[0] == 0 && env.isBundle && env.header.Some?) ==>
      refs' == AfterUpdates(refs, Remap(env.header.value, refs))
    ensures (died || StepResults(uri, env)[0] != 0 || !env.isBundle || env.header.None?) ==> refs' == refs
  {
    died, result, events, refs' := false, 0, [], refs;
    if env.tempName.None? {
      // find_temp_filename dies: the process ends here.
      died := true;
      return;
    }
    var filename := env.tempName.value;
    var rs := StepResults(uri, env);
    FirstNonzeroOfThree(rs[0], rs[1], rs[2]);
    ghost var ups := if env.header.Some? then Remap(env.header.value, refs) else [];

    // Every failing step jumps to `cleanup`, which unlinks the scratch file:
    // each exit below ends its events with that unlink.
    var how;
    result, how := CopyUriToFile(uri, filename, env.helperReplies, env.helperExit, env.copyStatus);
    TraceShape(filename, how, rs, ups);
    if result != 0 {
      events := [TempFileNamed(filename), Retrieved(how), Unlinked(filename)];
      return;
    }

    result := if env.isBundle then 0 else 1;
    if result != 0 {
      events := [TempFileNamed(filename), Retrieved(how), BundleChecked(filename), Unlinked(filename)];
      return;
    }

    var updates;
    result, updates, refs' := UnbundleFromFile(env.header, env.unbundleStatus, refs);
    if result != 0 {
      events := [TempFileNamed(filename), Retrieved(how), BundleChecked(filename), Unbundled(filename, updates), Unlinked(filename)];
      return;
    }

    events := [TempFileNamed(filename), Retrieved(how), BundleChecked(filename), Unbundled(filename, updates),
               DecorationSetting(), Unlinked(filename)];
  }

  /** The decoration setting names `refs/bundle/`, which is not a prefix of any ref the fetch writes. */
  lemma DecorationValueMissesBundleRefs(branch: string)
    ensures !HasPrefix(BundlesPrefix + branch, DecorationValue)
  {
    assert (BundlesPrefix + branch)[11] == 's' && DecorationValue[11] == '/';
  }
}
