/**
 * The bundle list: a version, a mode and a map from bundle id to the
 * bundle's record, filled in one configuration key/value pair at a time by
 * `bundle_list_update` (bundle-uri.c).
 */
module Registry {
  import opened Wrappers
  import opened CString
  import opened Status

  /** The two list modes the parser recognises. */
  datatype Mode = All | Any

  /** `struct remote_bundle_info`: the id, the advertised URI (NULL until a `uri` key), the scratch file name. */
  datatype RemoteBundleInfo = RemoteBundleInfo(id: string, uri: Option<string>, file: string)

  /** The value of a bundle list, on which the update rules are stated. */
  datatype ListState = ListState(version: int, mode: Mode, bundles: map<string, RemoteBundleInfo>)

  const BundlePrefix := "bundle."

  /** The state `init_bundle_list` leaves behind: version 1, mode ALL, no records. */
  function Initial(): (s: ListState)
    ensures s.version == 1 && s.mode == All && |s.bundles| == 0
    ensures WellFormed(s)
  {
    ListState(1, All, map[])
  }

  /** Every record is filed under its own id. */
  ghost predicate WellFormed(s: ListState) {
    forall k :: k in s.bundles ==> s.bundles[k].id == k
  }

  /** How `bundle_list_update` reads a key, before it looks at the value. */
  datatype Key =
    | NotBundle                               // no `bundle.` prefix
    | ListVersion                             // `bundle.list.version`
    | ListMode                                // `bundle.list.mode`
    | NoDot                                   // `bundle.<x>` with no further dot
    | ReservedList                            // `bundle.list.<anything else>`
    | Attribute(id: string, attr: string)     // `bundle.<id>.<attr>`

  /** The classification of `key`; an attribute key is split at its first dot after the prefix. */
  function ParseKey(key: string): (k: Key)
    ensures k == NotBundle <==> !HasPrefix(key, BundlePrefix)
    ensures k.Attribute? ==> key == BundlePrefix + (k.id + "." + k.attr) && '.' !in k.id && k.id != "list"
    ensures k == NoDot <==> HasPrefix(key, BundlePrefix) && '.' !in key[|BundlePrefix|..]
  {
    if !HasPrefix(key, BundlePrefix) then NotBundle
    else
      var pkey := key[|BundlePrefix|..];
      assert key == BundlePrefix + pkey;
      ParseBundleKey(pkey)
  }

  /** The classification of what follows `bundle.` in a key. */
  function ParseBundleKey(pkey: string): (k: Key)
    ensures k != NotBundle
    ensures k.Attribute? ==> pkey == k.id + "." + k.attr && '.' !in k.id && k.id != "list"
    ensures k == NoDot <==> '.' !in pkey
  {
    if pkey == "list.version" then
      assert pkey[4] == '.';
      ListVersion
    else if pkey == "list.mode" then
      assert pkey[4] == '.';
      ListMode
    else match IndexOf(pkey, '.')
      case None => NoDot
      case Some(d) =>
        if d == 4 && pkey[..4] == "list" then ReservedList
        else
          assert pkey == pkey[..d] + "." + pkey[d + 1..];
          Attribute(pkey[..d], pkey[d + 1..])
  }

  /** The record found under `id`, or the fresh one `bundle_list_update` would create. */
  function LookupOrCreate(bundles: map<string, RemoteBundleInfo>, id: string): (b: RemoteBundleInfo)
    ensures id in bundles ==> b == bundles[id]
    ensures id !in bundles ==> b.id == id && b.uri == None && b.file == ""
  {
    if id in bundles then bundles[id] else RemoteBundleInfo(id, None, "")
  }

  /**
   * `bundle_list_update(key, value, list)`: the new list and the status
   * (0 understood, 1 rejected). A rejected pair changes nothing.
   */
  function Apply(s: ListState, key: string, value: string): (res: (ListState, int))
    ensures res.1 == 0 || res.1 == 1
    ensures res.1 == 1 ==> res.0 == s
    ensures WellFormed(s) ==> WellFormed(res.0)
  {
    match ParseKey(key)
    case ListVersion =>
      var version := Atoi(value);
      if version != 1 then (s, 1) else (s.(version := version), 0)
    case ListMode =>
      if value == "all" then (s.(mode := All), 0)
      else if value == "any" then (s.(mode := Any), 0)
      else (s, 1)
    case Attribute(id, attr) =>
      var b := LookupOrCreate(s.bundles, id);
      var b' := if attr == "uri" then b.(uri := Some(value)) else b;
      (s.(bundles := s.bundles[id := b']), 0)
    case _ => (s, 1)
  }

  /** The list after a sequence of key/value pairs, applied in order. */
  function Replay(s: ListState, kvs: seq<(string, string)>): ListState
    decreases |kvs|
  {
    if kvs == [] then s
    else
      var last := kvs[|kvs| - 1];
      Apply(Replay(s, kvs[..|kvs| - 1]), last.0, last.1).0
  }

  /** `struct bundle_list`, updated in place. */
  class BundleList {
    var version: int
    var mode: Mode
    var bundles: map<string, RemoteBundleInfo>

    function State(): ListState
      reads this
    {
      ListState(version, mode, bundles)
    }

    ghost predicate Valid()
      reads this
    {
      WellFormed(State())
    }

    /** `init_bundle_list`: mode ALL, version 1, no bundles. */
    method Init()
      modifies this
      ensures version == 1 && mode == All && bundles == map[]
      ensures State() == Initial() && Valid()
    {
      mode := All;
      version := 1;
      bundles := map[];
    }

    /**
     * `bundle_list_update`: classify the key, then update the list as `Apply`
     * says. Since `Apply` keeps `WellFormed`, an update keeps `Valid`.
     */
    method Update(key: string, value: string) returns (r: int)
      requires Valid()
      modifies this
      ensures (State(), r) == Apply(old(State()), key, value)
      ensures Valid()
    {
      // `skip_prefix(key, "bundle.", &pkey)`, the test `HasPrefix` states.
      if !(|BundlePrefix| <= |key| && key[..|BundlePrefix|] == BundlePrefix) {
        return 1;
      }
      var pkey := key[|BundlePrefix|..];
      assert ParseKey(key) == ParseBundleKey(pkey);

      if pkey == "list.version" {
        var v := Atoi(value);
        if v != 1 {
          return 1;
        }
        version := v;
        return 0;
      }

      if pkey == "list.mode" {
        if value == "all" {
          mode := All;
        } else if value == "any" {
          mode := Any;
        } else {
          return 1;
        }
        return 0;
      }

      // All remaining keys must be `bundle.<id>.<attr>` with <id> other than "list".
      var dot := IndexOf(pkey, '.');
      if dot.None? {
        return 1;
      }
      if dot.value == 4 && pkey[..4] == "list" {
        return 1;
      }
      SetAttribute(pkey[..dot.value], pkey[dot.value + 1..], value);
      return 0;
    }

    /**
     * The tail of `bundle_list_update` for `bundle.<id>.<attr>`: find the
     * record for `id` or create it, then record `value` if `attr` is `uri`.
     * Other attributes are hints this client does not understand: ignored.
     */
    method SetAttribute(id: string, attr: string, value: string)
      requires Valid()
      modifies this
      ensures version == old(version) && mode == old(mode)
      ensures var b := LookupOrCreate(old(bundles), id);
        bundles == old(bundles)[id := if attr == "uri" then b.(uri := Some(value)) else b]
      ensures Valid()
    {
      // Find the bundle with this id, or create it.
      var bundle: RemoteBundleInfo;
      if id in bundles {
        bundle := bundles[id];
      } else {
        bundle := RemoteBundleInfo(id, None, "");
        bundles := bundles[id := bundle];
      }

      if attr == "uri" {
        bundles := bundles[id := bundle.(uri := Some(value))];
        assert bundles == old(bundles)[id := bundle.(uri := Some(value))];
        return;
      }
      assert bundles == bundles[id := bundle];
    }

    /**
     * `for_all_bundles_in_list`: call `visit` on each record, in the order
     * `order` in which the hash map happens to hold the ids, and stop at the
     * first nonzero result. `calls` is how many records were visited.
     */
    method ForAllBundles(order: seq<string>, visit: RemoteBundleInfo -> int) returns (r: int, calls: nat)
      requires forall i :: 0 <= i < |order| ==> order[i] in bundles
      requires forall k :: k in bundles ==> k in order
      requires forall i, j :: 0 <= i < j < |order| ==> order[i] != order[j]
      ensures r == FirstNonzero(Visits(bundles, order, visit))
      ensures calls <= |order|
      ensures r == 0 ==> calls == |order|
      ensures r != 0 ==> 0 < calls && visit(bundles[order[calls - 1]]) == r
      ensures forall j :: 0 <= j < calls - 1 ==> visit(bundles[order[j]]) == 0
    {
      calls := 0;
      while calls < |order|
        invariant calls <= |order|
        invariant forall j :: 0 <= j < calls ==> visit(bundles[order[j]]) == 0
      {
        var result := visit(bundles[order[calls]]);
        calls := calls + 1;
        if result != 0 {
          r := result;
          FirstNonzeroAt(Visits(bundles, order, visit), calls - 1);
          return;
        }
      }
      r := 0;
    }
  }

  /** The results a visitor gives, record by record, when the map holds its ids in `order`. */
  function Visits(bundles: map<string, RemoteBundleInfo>, order: seq<string>, visit: RemoteBundleInfo -> int): (rs: seq<int>)
    requires forall i :: 0 <= i < |order| ==> order[i] in bundles
    ensures |rs| == |order| && forall i :: 0 <= i < |order| ==> rs[i] == visit(bundles[order[i]])
  {
    seq(|order|, i requires 0 <= i < |order| && order[i] in bundles => visit(bundles[order[i]]))
  }

  /** If `rs[k]` is the first nonzero status, it is the result. */
  lemma FirstNonzeroAt(rs: seq<int>, k: nat)
    requires k < |rs| && rs[k] != 0
    requires forall j :: 0 <= j < k ==> rs[j] == 0
    ensures FirstNonzero(rs) == rs[k]
  {
    var r := FirstNonzero(rs);
    if r != 0 {
      var i :| 0 <= i < |rs| && rs[i] == r && forall j :: 0 <= j < i ==> rs[j] == 0;
      assert i == k;
    }
  }

  /** `clear_bundle_list`: drop every record; a NULL list is left alone. */
  method ClearBundleList(list: BundleList?)
    modifies list
    ensures list != null ==> list.bundles == map[]
    ensures list != null ==> list.version == old(list.version) && list.mode == old(list.mode)
    ensures list != null ==> list.Valid()
  {
    if list == null {
      return;
    }
    list.bundles := map[];
  }
}
