/** What `bundle_list_update` does to a bundle list, key shape by key shape. */
module RegistryFacts {
  import opened Wrappers
  import opened CString
  import opened Registry

  /** The key `bundle.<id>.<attr>`. */
  function AttrKey(id: string, attr: string): string {
    BundlePrefix + (id + "." + attr)
  }

  /** Keys outside `bundle.`, and `bundle.<x>` with no second dot, are rejected and change nothing. */
  lemma MalformedKeysRejected(s: ListState, key: string, value: string)
    requires !HasPrefix(key, BundlePrefix) || '.' !in key[|BundlePrefix|..]
    ensures Apply(s, key, value) == (s, 1)
  {
  }

  /** `bundle.list.version` is accepted exactly when `atoi` reads 1, and then sets the version to 1. */
  lemma VersionKey(s: ListState, value: string)
    ensures Apply(s, "bundle.list.version", value).1 == 0 <==> Atoi(value) == 1
    ensures Atoi(value) == 1 ==> Apply(s, "bundle.list.version", value).0 == s.(version := 1)
    ensures Atoi(value) != 1 ==> Apply(s, "bundle.list.version", value).0 == s
  {
    VersionKeyParses();
  }

  /** The version key is recognised as such. */
  lemma VersionKeyParses()
    ensures ParseKey("bundle.list.version") == ListVersion
  {
    assert HasPrefix("bundle.list.version", BundlePrefix);
    assert "bundle.list.version"[|BundlePrefix|..] == "list.version";
  }

  /** Values such as "1abc" or " 1" pass the version check; text with no number fails it. */
  lemma VersionQuirks(s: ListState, ws: string, rest: string)
    requires forall i :: 0 <= i < |ws| ==> IsSpace(ws[i])
    requires rest == [] || (!IsDigit(rest[0]) && !IsSpace(rest[0]) && rest[0] != '+' && rest[0] != '-')
    ensures Apply(s, "bundle.list.version", ws + "1" + rest) == (s.(version := 1), 0)
    ensures Apply(s, "bundle.list.version", ws + rest) == (s, 1)
  {
    VersionOneThenText(s, ws, rest);
    VersionWithoutNumber(s, ws, rest);
  }

  /** A `1` between white space and non-digit text is accepted as version 1. */
  lemma VersionOneThenText(s: ListState, ws: string, rest: string)
    requires forall i :: 0 <= i < |ws| ==> IsSpace(ws[i])
    requires rest == [] || !IsDigit(rest[0])
    ensures Apply(s, "bundle.list.version", ws + "1" + rest) == (s.(version := 1), 0)
  {
    AtoiOneThenText(ws, rest);
    VersionKey(s, ws + "1" + rest);
  }

  /** White space and text with no number is rejected as a version. */
  lemma VersionWithoutNumber(s: ListState, ws: string, rest: string)
    requires forall i :: 0 <= i < |ws| ==> IsSpace(ws[i])
    requires rest == [] || (!IsDigit(rest[0]) && !IsSpace(rest[0]) && rest[0] != '+' && rest[0] != '-')
    ensures Apply(s, "bundle.list.version", ws + rest) == (s, 1)
  {
    AtoiNonNumeric(ws, "", rest);
    assert ws + "" + rest == ws + rest;
    VersionKey(s, ws + rest);
  }

  /** `bundle.list.mode` is accepted exactly for "all" and "any", and then sets that mode. */
  lemma ModeKey(s: ListState, value: string)
    ensures Apply(s, "bundle.list.mode", value).1 == 0 <==> value == "all" || value == "any"
    ensures value == "all" ==> Apply(s, "bundle.list.mode", value).0 == s.(mode := All)
    ensures value == "any" ==> Apply(s, "bundle.list.mode", value).0 == s.(mode := Any)
  {
    ModeKeyParses();
  }

  /** The mode key is recognised as such. */
  lemma ModeKeyParses()
    ensures ParseKey("bundle.list.mode") == ListMode
  {
    assert HasPrefix("bundle.list.mode", BundlePrefix);
    assert "bundle.list.mode"[|BundlePrefix|..] == "list.mode";
  }

  /** Any other key under the reserved id `list` is rejected and changes nothing. */
  lemma ReservedListKey(s: ListState, attr: string, value: string)
    requires attr != "version" && attr != "mode"
    ensures Apply(s, AttrKey("list", attr), value) == (s, 1)
  {
    ParseReservedKey(attr);
  }

  /** `bundle.list.<attr>`, other than the version and mode keys, parses as the reserved id. */
  lemma ParseReservedKey(attr: string)
    requires attr != "version" && attr != "mode"
    ensures ParseKey(AttrKey("list", attr)) == ReservedList
  {
    assert AttrKey("list", attr) == BundlePrefix + ("list" + "." + attr);
    FirstDotAfter("list", attr);
    ReservedAttrIsNotListKey(attr);
  }

  /** `list.<attr>` is neither `list.version` nor `list.mode` unless `attr` is. */
  lemma ReservedAttrIsNotListKey(attr: string)
    requires attr != "version" && attr != "mode"
    ensures "list" + "." + attr != "list.version" && "list" + "." + attr != "list.mode"
  {
    DifferentAttr("list", attr, "version");
    DifferentAttr("list", attr, "mode");
    assert "list" + "." + "version" == "list.version";
    assert "list" + "." + "mode" == "list.mode";
  }

  /** Two keys of one dot-free id with different attributes differ. */
  lemma DifferentAttr(id: string, attr: string, other: string)
    requires '.' !in id && attr != other
    ensures id + "." + attr != id + "." + other
  {
    FirstDotAfter(id, attr);
    FirstDotAfter(id, other);
  }

  /** A key `bundle.<id>.<attr>` with a dot-free id other than `list` parses back to that id and attribute. */
  lemma ParseAttributeKey(id: string, attr: string)
    requires '.' !in id && id != "list"
    ensures ParseKey(AttrKey(id, attr)) == Attribute(id, attr)
  {
    var pkey := id + "." + attr;
    assert AttrKey(id, attr) == BundlePrefix + pkey;
    assert pkey != "list.version" && pkey != "list.mode" by {
      NotUnderList(id, attr, "version");
      NotUnderList(id, attr, "mode");
      assert "list" + "." + "version" == "list.version";
      assert "list" + "." + "mode" == "list.mode";
    }
    FirstDotAfter(id, attr);
  }

  /** A key whose id is not `list` never reads as one under the reserved id. */
  lemma NotUnderList(id: string, attr: string, rest: string)
    requires '.' !in id && id != "list"
    ensures id + "." + attr != "list" + "." + rest
  {
    FirstDotAfter(id, attr);
    FirstDotAfter("list", rest);
  }

  /** In `a.b` with a dot-free `a`, the first dot follows `a`, and the string splits back into `a` and `b`. */
  lemma FirstDotAfter(a: string, b: string)
    requires '.' !in a
    ensures IndexOf(a + "." + b, '.') == Some(|a|)
    ensures (a + "." + b)[..|a|] == a && (a + "." + b)[|a| + 1..] == b
  {
    var s := a + "." + b;
    assert s[..|a|] == a && s[|a|] == '.';
  }

  /**
   * `bundle.<id>.<attr>` is accepted; the record for `id` is reused if
   * present and created otherwise, whatever the attribute; only `uri` changes
   * it; every other record, the version and the mode stay as they were.
   */
  lemma AttributeKey(s: ListState, id: string, attr: string, value: string)
    requires '.' !in id && id != "list"
    ensures var (s', r) := Apply(s, AttrKey(id, attr), value);
      && r == 0
      && s'.version == s.version && s'.mode == s.mode
      && s'.bundles.Keys == s.bundles.Keys + {id}
      && (forall k :: k in s.bundles && k != id ==> s'.bundles[k] == s.bundles[k])
      && (id in s.bundles ==> s'.bundles[id].id == s.bundles[id].id && s'.bundles[id].file == s.bundles[id].file)
      && (id !in s.bundles ==> s'.bundles[id].id == id && s'.bundles[id].file == "")
      && s'.bundles[id].uri == (if attr == "uri" then Some(value) else if id in s.bundles then s.bundles[id].uri else None)
  {
    ParseAttributeKey(id, attr);
  }

  /** A later `uri` for the same id overwrites an earlier one, and the entry is not duplicated. */
  lemma UriLastWriteWins(s: ListState, id: string, first: string, second: string)
    requires '.' !in id && id != "list"
    ensures var key := AttrKey(id, "uri");
      var s' := Apply(Apply(s, key, first).0, key, second).0;
      && s'.bundles.Keys == s.bundles.Keys + {id}
      && s'.bundles[id].uri == Some(second)
  {
    var key := AttrKey(id, "uri");
    AttributeKey(s, id, "uri", first);
    AttributeKey(Apply(s, key, first).0, id, "uri", second);
  }

  /** `bundle..uri` is accepted and files a record under the empty id. */
  lemma EmptyIdAccepted(s: ListState, value: string)
    requires "" !in s.bundles
    ensures Apply(s, "bundle..uri", value) == (s.(bundles := s.bundles["" := RemoteBundleInfo("", Some(value), "")]), 0)
  {
    ParseAttributeKey("", "uri");
    assert AttrKey("", "uri") == "bundle..uri";
  }

  /** The key/value pairs `bundle.<ids[i]>.uri = uris[i]`. */
  function UriPairs(ids: seq<string>, uris: seq<string>): (kvs: seq<(string, string)>)
    requires |ids| == |uris|
    ensures |kvs| == |ids|
  {
    if ids == [] then []
    else
      var n := |ids| - 1;
      UriPairs(ids[..n], uris[..n]) + [(AttrKey(ids[n], "uri"), uris[n])]
  }

  /** The table that registering `ids[i]` with `uris[i]`, in order, should produce. */
  function Registered(ids: seq<string>, uris: seq<string>): (m: map<string, RemoteBundleInfo>)
    requires |ids| == |uris|
    ensures forall k :: k in m ==> m[k].id == k && m[k].file == ""
  {
    if ids == [] then map[]
    else
      var n := |ids| - 1;
      Registered(ids[..n], uris[..n])[ids[n] := RemoteBundleInfo(ids[n], Some(uris[n]), "")]
  }

  /**
   * Replaying `bundle.<ids[i]>.uri = uris[i]` on a list with no records
   * builds exactly the `Registered` table and leaves version and mode alone.
   */
  lemma {:induction false} ReplayRegisters(s0: ListState, ids: seq<string>, uris: seq<string>)
    requires s0.bundles == map[]
    requires |ids| == |uris|
    requires forall i :: 0 <= i < |ids| ==> '.' !in ids[i] && ids[i] != "list"
    ensures Replay(s0, UriPairs(ids, uris)) == s0.(bundles := Registered(ids, uris))
  {
    if ids != [] {
      var n := |ids| - 1;
      ReplayRegisters(s0, ids[..n], uris[..n]);
      ReplaySnoc(s0, UriPairs(ids[..n], uris[..n]), (AttrKey(ids[n], "uri"), uris[n]));
      RegisterUri(s0.(bundles := Registered(ids[..n], uris[..n])), ids[n], uris[n]);
    }
  }

  /** Replaying one more pair applies it to the list replayed so far. */
  lemma ReplaySnoc(s0: ListState, kvs: seq<(string, string)>, kv: (string, string))
    ensures Replay(s0, kvs + [kv]) == Apply(Replay(s0, kvs), kv.0, kv.1).0
  {
    assert (kvs + [kv])[..|kvs|] == kvs;
  }

  /** A `uri` key for `id` leaves a record holding just that id and URI, whether or not one existed. */
  lemma RegisterUri(s: ListState, id: string, uri: string)
    requires '.' !in id && id != "list"
    requires id in s.bundles ==> s.bundles[id].id == id && s.bundles[id].file == ""
    ensures Apply(s, AttrKey(id, "uri"), uri).0 == s.(bundles := s.bundles[id := RemoteBundleInfo(id, Some(uri), "")])
  {
    AttributeKey(s, id, "uri", uri);
  }

  /** With distinct ids, the table holds one record per id, carrying that id's URI. */
  lemma {:induction false} RegisteredDistinct(ids: seq<string>, uris: seq<string>)
    requires |ids| == |uris|
    requires forall i, j :: 0 <= i < j < |ids| ==> ids[i] != ids[j]
    ensures |Registered(ids, uris).Keys| == |ids|
    ensures forall k :: k in Registered(ids, uris) <==> k in ids
    ensures forall i :: 0 <= i < |ids| ==> Registered(ids, uris)[ids[i]] == RemoteBundleInfo(ids[i], Some(uris[i]), "")
  {
    if ids != [] {
      var n := |ids| - 1;
      RegisteredDistinct(ids[..n], uris[..n]);
      LastMember(ids);
      LastNotInFront(ids);
      RegisteredStep(Registered(ids[..n], uris[..n]), Registered(ids, uris), ids, uris);
    }
  }

  /** The members of a non-empty sequence are those of its front and its last element. */
  lemma LastMember<T>(xs: seq<T>)
    requires xs != []
    ensures forall x :: x in xs <==> x in xs[..|xs| - 1] || x == xs[|xs| - 1]
  {
    assert xs == xs[..|xs| - 1] + [xs[|xs| - 1]];
  }

  /** One more registration keeps the records of the earlier ids and adds the new one. */
  lemma RegisteredStep(before: map<string, RemoteBundleInfo>, after: map<string, RemoteBundleInfo>,
                       ids: seq<string>, uris: seq<string>)
    requires |ids| == |uris| > 0
    requires forall i :: 0 <= i < |ids| - 1 ==>
      ids[i] in before && before[ids[i]] == RemoteBundleInfo(ids[i], Some(uris[i]), "")
    requires ids[|ids| - 1] !in before
    requires after == before[ids[|ids| - 1] := RemoteBundleInfo(ids[|ids| - 1], Some(uris[|ids| - 1]), "")]
    ensures forall i :: 0 <= i < |ids| ==> ids[i] in after && after[ids[i]] == RemoteBundleInfo(ids[i], Some(uris[i]), "")
    ensures |after.Keys| == |before.Keys| + 1
  {
    assert after.Keys == before.Keys + {ids[|ids| - 1]};
  }

  /** With distinct elements, the last one does not occur in the front. */
  lemma LastNotInFront<T>(xs: seq<T>)
    requires xs != []
    requires forall i, j :: 0 <= i < j < |xs| ==> xs[i] != xs[j]
    ensures xs[|xs| - 1] !in xs[..|xs| - 1]
  {
  }

  /**
   * Registering N distinct ids on a list with no records gives exactly N
   * records, each under the id it was registered with and holding its URI;
   * version and mode are untouched.
   */
  lemma RegisterDistinctIds(s0: ListState, ids: seq<string>, uris: seq<string>)
    requires s0.bundles == map[]
    requires |ids| == |uris|
    requires forall i :: 0 <= i < |ids| ==> '.' !in ids[i] && ids[i] != "list"
    requires forall i, j :: 0 <= i < j < |ids| ==> ids[i] != ids[j]
    ensures Replay(s0, UriPairs(ids, uris)).version == s0.version
    ensures Replay(s0, UriPairs(ids, uris)).mode == s0.mode
    ensures |Replay(s0, UriPairs(ids, uris)).bundles.Keys| == |ids|
    ensures forall k :: k in Replay(s0, UriPairs(ids, uris)).bundles <==> k in ids
    ensures forall i :: 0 <= i < |ids| ==>
      Replay(s0, UriPairs(ids, uris)).bundles[ids[i]] == RemoteBundleInfo(ids[i], Some(uris[i]), "")
  {
    ReplayRegisters(s0, ids, uris);
    RegisteredDistinct(ids, uris);
  }

  /**
   * Manifest `version=1`, `mode=all`, `b1.uri=file:///tmp/bundle1` read into
   * a list with no records gives version 1, mode ALL and one record `b1` with that URI.
   */
  lemma ManifestExample(s: ListState)
    requires s.bundles == map[]
    ensures Replay(s, [("bundle.list.version", "1"), ("bundle.list.mode", "all"),
                       ("bundle.b1.uri", "file:///tmp/bundle1")])
         == ListState(1, All, map["b1" := RemoteBundleInfo("b1", Some("file:///tmp/bundle1"), "")])
  {
    var s1 := s.(version := 1);
    var s2 := s1.(mode := All);
    ReplayThree(s, ("bundle.list.version", "1"), ("bundle.list.mode", "all"),
                ("bundle.b1.uri", "file:///tmp/bundle1"));
    assert Apply(s, "bundle.list.version", "1").0 == s1 by {
      VersionOne(s);
    }
    assert Apply(s1, "bundle.list.mode", "all").0 == s2 by {
      ModeKey(s1, "all");
    }
    assert Apply(s2, "bundle.b1.uri", "file:///tmp/bundle1").0
        == s2.(bundles := map["b1" := RemoteBundleInfo("b1", Some("file:///tmp/bundle1"), "")]) by {
      B1UriKey();
      FirstBundle(s2, "b1", "file:///tmp/bundle1");
    }
  }

  /** The first `uri` key read into a list with no records creates exactly that record. */
  lemma FirstBundle(s: ListState, id: string, uri: string)
    requires s.bundles == map[]
    requires '.' !in id && id != "list"
    ensures Apply(s, AttrKey(id, "uri"), uri) == (s.(bundles := map[id := RemoteBundleInfo(id, Some(uri), "")]), 0)
  {
    ParseAttributeKey(id, "uri");
  }

  /** The `uri` key of bundle `b1`, spelled out. */
  lemma B1UriKey()
    ensures AttrKey("b1", "uri") == "bundle.b1.uri"
  {
  }

  /** Replaying three pairs applies them one after the other. */
  lemma ReplayThree(s: ListState, a: (string, string), b: (string, string), c: (string, string))
    ensures Replay(s, [a, b, c]) == Apply(Apply(Apply(s, a.0, a.1).0, b.0, b.1).0, c.0, c.1).0
  {
    var kvs := [a, b, c];
    assert kvs[..2] == [a, b] && [a, b][..1] == [a] && [a][..0] == [];
    assert Replay(s, [a]) == Apply(s, a.0, a.1).0;
    assert Replay(s, [a, b]) == Apply(Replay(s, [a]), b.0, b.1).0;
  }

  /** `version=1` is accepted. */
  lemma VersionOne(s: ListState)
    ensures Apply(s, "bundle.list.version", "1") == (s.(version := 1), 0)
  {
    AtoiOne();
    VersionKey(s, "1");
  }

  /** A manifest whose first line is `version=2` is rejected before any bundle is looked at. */
  lemma WrongVersionRejected(s: ListState)
    ensures Apply(s, "bundle.list.version", "2") == (s, 1)
  {
    AtoiTwo();
    VersionKey(s, "2");
  }
}
