/**
 * `unbundle_from_file`: read the bundle header, hand the bundle to
 * `unbundle`, then copy every branch the header lists into the
 * `refs/bundles/` namespace. The header reader, `unbundle` and the ref
 * store are outside this model: the header (or its absence) and the
 * `unbundle` status are inputs, and the ref store is a map from ref name to
 * object id that every `update_ref` overwrites.
 */
module Unbundle {
  import opened Wrappers
  import opened CString

  type ObjectId = string

  /** One reference the bundle header lists. */
  datatype HeaderRef = HeaderRef(name: string, oid: ObjectId)

  /** One `update_ref` call: reason, ref, new value, and the expected old value (NULL for none). */
  datatype RefUpdate = RefUpdate(reason: string, name: string, newOid: ObjectId, oldOid: Option<ObjectId>)

  const HeadsPrefix := "refs/heads/"
  const BundlesPrefix := "refs/bundles/"
  const UpdateReason := "fetched bundle"

  /** `read_ref`: the current value of `name`, if it exists. */
  function ReadRef(refs: map<string, ObjectId>, name: string): (r: Option<ObjectId>)
    ensures r.Some? <==> name in refs
    ensures r.Some? ==> refs[name] == r.value
  {
    if name in refs then Some(refs[name]) else None
  }

  /** The local ref a header ref is copied to: `refs/heads/X` becomes `refs/bundles/X`; other refs have none. */
  function BundleRefName(refname: string): (r: Option<string>)
    ensures r.Some? <==> HasPrefix(refname, HeadsPrefix)
    ensures r.Some? ==> HasPrefix(r.value, BundlesPrefix) && HeadsPrefix + r.value[|BundlesPrefix|..] == refname
  {
    if HasPrefix(refname, HeadsPrefix) then
      var b := BundlesPrefix + refname[|HeadsPrefix|..];
      assert b[|BundlesPrefix|..] == refname[|HeadsPrefix|..];
      assert refname == HeadsPrefix + refname[|HeadsPrefix|..];
      Some(b)
    else None
  }

  /** Two different branches never land on the same bundle ref. */
  lemma BundleRefNameInjective(x: string, y: string)
    requires BundleRefName(x).Some? && BundleRefName(x) == BundleRefName(y)
    ensures x == y
  {
  }

  /** The header refs that are branches, in header order. */
  function Heads(hs: seq<HeaderRef>): (r: seq<HeaderRef>)
    ensures |r| <= |hs|
    ensures forall i :: 0 <= i < |r| ==> HasPrefix(r[i].name, HeadsPrefix)
  {
    if hs == [] then []
    else
      var rest := Heads(hs[1..]);
      if HasPrefix(hs[0].name, HeadsPrefix) then [hs[0]] + rest else rest
  }

  /** `Heads` keeps exactly the header refs under `refs/heads/`. */
  lemma {:induction false} HeadsAreTheBranches(hs: seq<HeaderRef>)
    ensures forall h :: h in Heads(hs) <==> h in hs && HasPrefix(h.name, HeadsPrefix)
  {
    if hs != [] {
      HeadsAreTheBranches(hs[1..]);
      assert forall h :: h in hs <==> h == hs[0] || h in hs[1..];
    }
  }

  /**
   * The `update_ref` calls of the loop over the header refs, in order. Each
   * reads the bundle ref as the updates before it left the store.
   */
  function Remap(hs: seq<HeaderRef>, refs: map<string, ObjectId>): (us: seq<RefUpdate>)
    ensures |us| <= |hs|
    ensures forall i :: 0 <= i < |us| ==> us[i].reason == UpdateReason && HasPrefix(us[i].name, BundlesPrefix)
    decreases |hs|
  {
    if hs == [] then []
    else match BundleRefName(hs[0].name)
      case None => Remap(hs[1..], refs)
      case Some(b) =>
        [RefUpdate(UpdateReason, b, hs[0].oid, ReadRef(refs, b))] + Remap(hs[1..], refs[b := hs[0].oid])
  }

  /** The first step of `Remap`, with the rest of the updates following it. */
  lemma RemapUnfold(hs: seq<HeaderRef>, refs: map<string, ObjectId>)
    requires hs != []
    ensures BundleRefName(hs[0].name).None? ==> Remap(hs, refs) == Remap(hs[1..], refs)
    ensures BundleRefName(hs[0].name).Some? ==>
      var b := BundleRefName(hs[0].name).value;
      Remap(hs, refs) == [RefUpdate(UpdateReason, b, hs[0].oid, ReadRef(refs, b))] + Remap(hs[1..], refs[b := hs[0].oid])
  {
  }

  /** The ref store after the updates, applied in order. */
  function AfterUpdates(refs: map<string, ObjectId>, us: seq<RefUpdate>): map<string, ObjectId>
    decreases |us|
  {
    if us == [] then refs
    else
      var last := us[|us| - 1];
      AfterUpdates(refs, us[..|us| - 1])[last.name := last.newOid]
  }

  /** The status `unbundle_from_file` returns: 1 without a readable header, else `unbundle`'s status. */
  function UnbundleResult(header: Option<seq<HeaderRef>>, unbundleStatus: int): (r: int)
    ensures r == 0 <==> header.Some? && unbundleStatus == 0
    ensures header.None? ==> r == 1
  {
    if header.None? then 1 else unbundleStatus
  }

  /**
   * `unbundle_from_file`. The branches are copied whatever `unbundle`
   * returned; its status is only passed on at the end.
   */
  method UnbundleFromFile(header: Option<seq<HeaderRef>>, unbundleStatus: int, refs: map<string, ObjectId>)
    returns (result: int, updates: seq<RefUpdate>, refs': map<string, ObjectId>)
    ensures result == UnbundleResult(header, unbundleStatus)
    ensures header.None? ==> updates == [] && refs' == refs
    ensures header.Some? ==> updates == Remap(header.value, refs)
    ensures refs' == AfterUpdates(refs, updates)
  {
    if header.None? {
      return 1, [], refs;
    }
    var hs := header.value;
    result := unbundleStatus;

    var bundleRef := BundlesPrefix;
    var prefixLen := |bundleRef|;
    updates, refs' := [], refs;
    var i := 0;
    while i < |hs|
      invariant i <= |hs|
      invariant prefixLen <= |bundleRef| && bundleRef[..prefixLen] == BundlesPrefix
      invariant updates + Remap(hs[i..], refs') == Remap(hs, refs)
      invariant refs' == AfterUpdates(refs, updates)
    {
      var h := hs[i];
      RemapUnfold(hs[i..], refs');
      assert hs[i..][0] == h && hs[i..][1..] == hs[i + 1..];
      if HasPrefix(h.name, HeadsPrefix) {
        var branch := h.name[|HeadsPrefix|..];
        bundleRef := bundleRef[..prefixLen] + branch;
        assert BundleRefName(h.name) == Some(bundleRef);
        var hasOld := ReadRef(refs', bundleRef);
        var u := RefUpdate(UpdateReason, bundleRef, h.oid, hasOld);
        assert (updates + [u])[..|updates|] == updates;
        updates := updates + [u];
        refs' := refs'[bundleRef := h.oid];
      }
      i := i + 1;
    }
    assert hs[i..] == [];
  }

  /**
   * One update per branch in the header, in header order: branch
   * `refs/heads/X` goes to `refs/bundles/X` with the header's object id;
   * every other header ref is skipped.
   */
  lemma {:induction false} RemapFollowsHeads(hs: seq<HeaderRef>, refs: map<string, ObjectId>)
    ensures |Remap(hs, refs)| == |Heads(hs)|
    ensures forall i :: 0 <= i < |Heads(hs)| ==>
      && Remap(hs, refs)[i].name == BundleRefName(Heads(hs)[i].name).value
      && Remap(hs, refs)[i].newOid == Heads(hs)[i].oid
      && Remap(hs, refs)[i].reason == UpdateReason
    decreases |hs|
  {
    if hs != [] {
      var b := BundleRefName(hs[0].name);
      var refs1 := if b.Some? then refs[b.value := hs[0].oid] else refs;
      RemapFollowsHeads(hs[1..], refs1);
      var rest, heads := Remap(hs[1..], refs1), Heads(hs[1..]);
      var all, allHeads := Remap(hs, refs), Heads(hs);
      if b.Some? {
        assert all == [RefUpdate(UpdateReason, b.value, hs[0].oid, ReadRef(refs, b.value))] + rest;
        assert allHeads == [hs[0]] + heads;
        forall i | 1 <= i < |allHeads|
          ensures all[i] == rest[i - 1] && allHeads[i] == heads[i - 1]
        {
        }
      } else {
        assert all == rest;
        assert allHeads == heads;
      }
    }
  }

  /**
   * When the header names each ref once, every update expects exactly the
   * value the bundle ref had before the loop, and none when it did not exist.
   */
  lemma {:induction false} RemapExpectsPriorValue(hs: seq<HeaderRef>, refs: map<string, ObjectId>)
    requires forall i, j :: 0 <= i < j < |hs| ==> hs[i].name != hs[j].name
    ensures forall i :: 0 <= i < |Remap(hs, refs)| ==>
      Remap(hs, refs)[i].oldOid == ReadRef(refs, Remap(hs, refs)[i].name)
    decreases |hs|
  {
    if hs != [] {
      var b := BundleRefName(hs[0].name);
      if b.None? {
        RemapExpectsPriorValue(hs[1..], refs);
      } else {
        var refs1 := refs[b.value := hs[0].oid];
        var rest := Remap(hs[1..], refs1);
        RemapExpectsPriorValue(hs[1..], refs1);
        RemapFollowsHeads(hs[1..], refs1);
        forall i | 0 <= i < |rest|
          ensures rest[i].name != b.value
        {
          var h := Heads(hs[1..])[i];
          HeadsAreTheBranches(hs[1..]);
          assert h in hs[1..];
          var k :| 0 <= k < |hs[1..]| && hs[1..][k] == h;
          assert hs[k + 1].name != hs[0].name;
        }
      }
    }
  }

  /** Each update expects the value its ref has in the store the updates before it left. */
  ghost predicate ReadsEarlier(refs: map<string, ObjectId>, us: seq<RefUpdate>) {
    forall i :: 0 <= i < |us| ==> us[i].oldOid == ReadRef(AfterUpdates(refs, us[..i]), us[i].name)
  }

  /**
   * Whatever the header holds, each update expects the value its bundle ref
   * has in the store the earlier updates left, as `read_ref` finds it just
   * before that `update_ref`.
   */
  lemma {:induction false} RemapReadsEarlierUpdates(hs: seq<HeaderRef>, refs: map<string, ObjectId>)
    ensures ReadsEarlier(refs, Remap(hs, refs))
    decreases |hs|
  {
    if hs != [] {
      RemapUnfold(hs, refs);
      var b := BundleRefName(hs[0].name);
      if b.None? {
        RemapReadsEarlierUpdates(hs[1..], refs);
      } else {
        var refs1 := refs[b.value := hs[0].oid];
        RemapReadsEarlierUpdates(hs[1..], refs1);
        ReadsEarlierCons(refs, RefUpdate(UpdateReason, b.value, hs[0].oid, ReadRef(refs, b.value)), Remap(hs[1..], refs1));
      }
    }
  }

  /** An update that reads the store it is given, followed by updates that read theirs. */
  lemma ReadsEarlierCons(refs: map<string, ObjectId>, u: RefUpdate, rest: seq<RefUpdate>)
    requires u.oldOid == ReadRef(refs, u.name)
    requires ReadsEarlier(refs[u.name := u.newOid], rest)
    ensures ReadsEarlier(refs, [u] + rest)
  {
    var all := [u] + rest;
    forall i | 0 <= i < |all|
      ensures all[i].oldOid == ReadRef(AfterUpdates(refs, all[..i]), all[i].name)
    {
      if i == 0 {
        assert all[..0] == [];
      } else {
        assert all[..i] == [u] + rest[..i - 1];
        assert all[i] == rest[i - 1];
        AfterUpdatesCons(refs, u, rest[..i - 1]);
      }
    }
  }

  /** Applying `u` and then `us` is applying `us` to the store `u` left. */
  lemma {:induction false} AfterUpdatesCons(refs: map<string, ObjectId>, u: RefUpdate, us: seq<RefUpdate>)
    ensures AfterUpdates(refs, [u] + us) == AfterUpdates(refs[u.name := u.newOid], us)
    decreases |us|
  {
    if us == [] {
      assert [u][..0] == [];
    } else {
      var all := [u] + us;
      assert all[..|all| - 1] == [u] + us[..|us| - 1];
      assert all[|all| - 1] == us[|us| - 1];
      AfterUpdatesCons(refs, u, us[..|us| - 1]);
    }
  }

  /** A header without branches updates nothing. */
  lemma NoBranchesNoUpdates(hs: seq<HeaderRef>, refs: map<string, ObjectId>)
    requires forall i :: 0 <= i < |hs| ==> !HasPrefix(hs[i].name, HeadsPrefix)
    ensures Remap(hs, refs) == []
  {
    RemapFollowsHeads(hs, refs);
    HeadsAreTheBranches(hs);
  }

  /** `refs/heads/main` with object `oid` sets `refs/bundles/main` to `oid`. */
  lemma MainBranchExample(oid: ObjectId, refs: map<string, ObjectId>)
    ensures var after := AfterUpdates(refs, Remap([HeaderRef("refs/heads/main", oid)], refs));
      "refs/bundles/main" in after && after["refs/bundles/main"] == oid
  {
    var h := HeaderRef("refs/heads/main", oid);
    assert HasPrefix(h.name, HeadsPrefix) && h.name[|HeadsPrefix|..] == "main";
    assert BundlesPrefix + "main" == "refs/bundles/main";
    assert BundleRefName(h.name) == Some("refs/bundles/main");
    assert [h][1..] == [];
    var u := RefUpdate(UpdateReason, "refs/bundles/main", oid, ReadRef(refs, "refs/bundles/main"));
    assert Remap([h], refs) == [u];
    assert [u][..0] == [];
  }
}
