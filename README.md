# Bundle URIs in git: a Dafny model

This project models the core of git's `bundle-uri.c`. That file does two jobs.

- It maintains a *bundle list*. The list has a format version, a mode (`all` or `any`) and a table of bundle records keyed by id. It is filled from `bundle.*` configuration key/value pairs.
- It fetches one bundle from a URI into a scratch file and unbundles it. It then copies each branch the bundle carries (`refs/heads/<b>`) to `refs/bundles/<b>`. When everything succeeds, it writes the `log.excludedecoration` setting.

The model has these parts:

- `cstring.dfy` (module `CString`): the C string helpers the parser relies on: `skip_prefix` (`HasPrefix`), `strchr` (`IndexOf`) and `atoi` (`Atoi`, with `SignedDigits` for what follows the white space).
- `status.dfy` (module `Status`): the "first nonzero status wins" rule. Both the bundle iterator and the fetch pipeline use it.
- `registry.dfy` (module `Registry`):
  - the list as a value (`ListState`);
  - the key classifier (`ParseKey`) and the update rule (`Apply`);
  - `BundleList`, a class whose fields `init_bundle_list`, `bundle_list_update` and `clear_bundle_list` update in place. `Init` is proved against `Initial`, `Update` against `Apply`, `SetAttribute` against `LookupOrCreate`, `ForAllBundles` against `FirstNonzero` of `Visits`, and `ClearBundleList` by its own postconditions. Every mutator keeps the class invariant `Valid` (each record filed under its own id).
- `registry_facts.dfy` (module `RegistryFacts`): what the update rule promises, key family by key family, plus a whole-manifest example.
- `transport.dfy` (module `Transport`): the capability exchange with the `git-remote-https` helper.
- `dispatch.dfy` (module `Dispatch`): the choice between helper download and file copy in `copy_uri_to_file`.
- `unbundle.dfy` (module `Unbundle`): the branch-to-`refs/bundles/` remapping in `unbundle_from_file`.
- `fetch.dfy` (module `Fetch`): `fetch_bundle_uri` with its single cleanup exit, specified by `Trace`, the events a fetch produces given the statuses of its steps.

The outside world is turned into inputs:

- the helper's reply lines and exit status;
- the status of `copy_file`;
- the verdict of `is_bundle`;
- the header `read_bundle_header` reads;
- the status of `unbundle`;
- the ref store (a map from ref name to object id);
- the scratch name `odb_mkstemp` finds.

What the code writes outward comes back as results:

- the lines sent to the helper;
- the ref updates;
- a list of events for the fetch.

The model keeps these quirks of the code:

- An empty bundle id is accepted (`bundle..uri` files a record under `""`). See `RegistryFacts.EmptyIdAccepted`.
- The fetch writes the decoration value `refs/bundle/`, singular, exactly as the code has it. `Fetch.DecorationValueMissesBundleRefs` proves that this value is not a prefix of any `refs/bundles/` ref the fetch creates.
- Unbundle failures do not stop the ref remapping. The refs are written whatever `unbundle` returned, as the code does.

## Model

| member | source | states |
|---|---|---|
| CString.IndexOf | bundle-uri.c:111 | `strchr`: the index returned holds the character and no earlier index does; there is no index exactly when the character does not occur |
| CString.HasPrefix | bundle-uri.c:84 | `skip_prefix` succeeds exactly when the prefix fits and starts the string; the string is then the prefix followed by the rest handed back |
| CString.SkipSpaceDropsOnlySpace | bundle-uri.c:88 | the white space `atoi` skips is all white space, and what is left does not start with white space |
| CString.Atoi | bundle-uri.c:88 | `atoi` reads a nonzero value only from a string holding a digit |
| CString.AtoiSkipsSpace | bundle-uri.c:88 | leading white space does not change what `atoi` reads |
| CString.OneThenText | bundle-uri.c:88 | `1` followed by a non-digit reads as 1 |
| CString.AtoiOne | bundle-uri.c:88-89 | `"1"` reads as 1 |
| CString.AtoiTwo | bundle-uri.c:88-89 | `"2"` reads as 2 |
| CString.AtoiOneThenText | bundle-uri.c:88 | `atoi` skips leading white space and stops at the first non-digit, so `" 1abc"` reads as 1 |
| CString.AtoiNonNumeric | bundle-uri.c:88 | a value that does not start (after white space and an optional sign) with a digit reads as 0 |
| CString.SignThenText | bundle-uri.c:88 | an optional sign followed by neither a digit, a sign nor white space reads as 0 |
| CString.UnsignedText | bundle-uri.c:88 | text starting with neither a digit, a sign nor white space reads as 0 |
| CString.SignedText | bundle-uri.c:88 | a sign followed by a non-digit reads as 0 |
| Status.FirstNonzero | bundle-uri.c:60-67 | the combined status is 0 exactly when every status is 0; otherwise it is the first nonzero one |
| Status.FirstNonzeroOfThree | bundle-uri.c:284-291 | with three steps, the result is the first step's status if nonzero, else the second's if nonzero, else the third's |
| Registry.ParseKey | bundle-uri.c:84-116 | a key without `bundle.` is not a bundle key; an attribute key splits back into `bundle.<id>.<attr>`, where `<id>` has no dot and is not `list`; a bundle key with no second dot is rejected |
| Registry.ParseBundleKey | bundle-uri.c:87-116 | what follows `bundle.` is never classified as a non-bundle key; it has no dot exactly when it is rejected as dotless; an attribute key splits back into `<id>.<attr>`, where `<id>` has no dot and is not `list` |
| Registry.Initial | bundle-uri.c:24-33 | the initial list has version 1, mode `all`, no records, and files every record under its own id |
| Registry.LookupOrCreate | bundle-uri.c:125-133 | an existing record for the id is returned as it is; otherwise a new one carries that id, no URI and an empty file name |
| Registry.Apply | bundle-uri.c:76-148 | the status is 0 or 1; a rejected pair (status 1) leaves the list unchanged; every record stays filed under its own id |
| Registry.BundleList.Init | bundle-uri.c:24-33 | the list is reset to version 1, mode `all` and no bundles |
| Registry.BundleList.Update | bundle-uri.c:76-148 | the new fields and the status are exactly those `Apply` gives for the old fields, and `Valid` (every record filed under its own id) is kept |
| Registry.BundleList.SetAttribute | bundle-uri.c:118-147 | the record for the id is looked up or created with no URI; `uri` replaces its URI with the value; any other attribute leaves it as found; version and mode are unchanged; `Valid` is kept |
| Registry.BundleList.ForAllBundles | bundle-uri.c:53-68 | visits records in table order and stops at the first nonzero visitor result, which it returns; 0 means every record was visited and all returned 0 |
| Registry.ClearBundleList | bundle-uri.c:44-51 | a NULL list is left alone; otherwise every record is dropped, version and mode are kept, and the list is `Valid` |
| RegistryFacts.MalformedKeysRejected | bundle-uri.c:84-113 | a key without `bundle.`, or with nothing dotted after it, is rejected with 1 and changes nothing |
| RegistryFacts.VersionKey | bundle-uri.c:87-94 | `bundle.list.version` is accepted exactly when `atoi(value)` is 1, and then sets the version to 1 |
| RegistryFacts.VersionKeyParses | bundle-uri.c:84-87 | `bundle.list.version` is classified as the version key |
| RegistryFacts.VersionQuirks | bundle-uri.c:88-89 | because of `atoi`, a `1` after white space and before non-digit text (`" 1"`, `"1abc"`) is accepted as version 1, and text with no number is rejected |
| RegistryFacts.VersionOneThenText | bundle-uri.c:88-93 | a version value of white space, `1` and non-digit text is accepted and sets version 1 |
| RegistryFacts.VersionWithoutNumber | bundle-uri.c:88-90 | a version value of white space and text with no number is rejected and changes nothing |
| RegistryFacts.WrongVersionRejected | bundle-uri.c:87-90 | version `2` is rejected and leaves the list unchanged |
| RegistryFacts.ModeKey | bundle-uri.c:96-104 | `bundle.list.mode` is accepted exactly for `all` and `any`, which set the mode; any other value is rejected |
| RegistryFacts.ModeKeyParses | bundle-uri.c:84-96 | `bundle.list.mode` is classified as the mode key |
| RegistryFacts.ReservedListKey | bundle-uri.c:114-116 | any other `bundle.list.<attr>` key is rejected: `list` cannot be a bundle id |
| RegistryFacts.ParseReservedKey | bundle-uri.c:111-116 | `bundle.list.<attr>`, other than the version and mode keys, is classified under the reserved id `list` |
| RegistryFacts.FirstDotAfter | bundle-uri.c:111-119 | in `<id>.<attr>` with a dot-free id, the first dot is right after the id, and the text splits back into id and attribute |
| RegistryFacts.ParseAttributeKey | bundle-uri.c:111-119 | `bundle.<id>.<attr>` with a dot-free id other than `list` parses to that id and attribute, even when the attribute itself holds dots |
| RegistryFacts.AttributeKey | bundle-uri.c:118-147 | an attribute key is accepted; its id joins the table; an existing record is reused and a new one starts with no URI; `uri` sets the URI; other attributes change nothing more; version, mode and all other records are unchanged |
| RegistryFacts.UriLastWriteWins | bundle-uri.c:136-139 | two `uri` values for one id leave the second one |
| RegistryFacts.EmptyIdAccepted | bundle-uri.c:111-133 | `bundle..uri` is accepted and files a record under the empty id |
| RegistryFacts.ReplayRegisters | bundle-uri.c:118-139 | replaying one `uri` key per id on a list with no records builds the table that files each id's latest URI under it, leaving version and mode alone |
| RegistryFacts.RegisterDistinctIds | bundle-uri.c:118-139 | one `uri` key per distinct id, replayed on a list with no records, yields exactly those ids, each with its own URI and an empty file name; version and mode are untouched |
| RegistryFacts.ManifestExample | bundle-uri.c:87-139 | a manifest of a version key, a mode key and the `uri` of bundle `b1`, replayed on an empty table, gives version 1, mode `all` and the one record `b1` with its URI |
| Transport.AdvertisesGet | bundle-uri.c:194-199 | the helper offers `get` exactly when a line equal to `get` comes before the first blank line |
| Transport.GetRequest | bundle-uri.c:207 | the request line is `get `, the URI, a space and the file name, in that order |
| Transport.GetRequestInjective | bundle-uri.c:207 | for URIs without spaces, the request line determines both the URI and the file name |
| Transport.ScanCapabilities | bundle-uri.c:194-199 | the read loop, which stops at a blank line or end of output, sets its flag exactly when `get` was advertised |
| Transport.DownloadResult | bundle-uri.c:202-216 | the download returns 0 exactly when the helper exits 0 and advertised `get`; a helper failure gives 1 and a missing `get` gives -1 |
| Transport.DownloadHttpsUriToFile | bundle-uri.c:191-216 | `capabilities` is always sent first; the `get <uri> <file>` request and its blank line are sent exactly when `get` was advertised; the result is `DownloadResult` |
| Transport.NoGetNoRequest | bundle-uri.c:202-205 | a helper that never prints `get` makes the download fail |
| Transport.BlankLineEndsCapabilities | bundle-uri.c:194-196 | lines after the first blank line have no effect on the capability check |
| Dispatch.SelectStrategy | bundle-uri.c:219-228 | `https:` and `http:` URIs go to the helper unchanged; `file://` URIs are copied from the rest of the URI; everything else is copied from the URI itself |
| Dispatch.CopyResult | bundle-uri.c:222-230 | the copy branch returns 0 or 1, and 0 exactly when the copy succeeded; the helper branch returns 0 exactly when the helper exited 0 having advertised `get` |
| Dispatch.CopyUriToFile | bundle-uri.c:219-231 | exactly one strategy runs, the one `SelectStrategy` picks; a copy reads from the chosen path into the scratch file; the helper is sent `capabilities`, then the `get` request and a blank line exactly when `get` was advertised, and nothing else; the result is `CopyResult` |
| Dispatch.FileUriIsCopied | bundle-uri.c:226-230 | `file://<path>` is copied from `<path>` |
| Dispatch.PlainPathIsCopied | bundle-uri.c:226-227 | a URI with no recognised scheme is copied from itself |
| Dispatch.WebUriUsesHelper | bundle-uri.c:222-224 | every `https:` or `http:` URI is handed to the helper as it is |
| Dispatch.FileUriAndPathAgree | bundle-uri.c:219-231 | `file:///tmp/x` and `/tmp/x` give the same local copy |
| Unbundle.BundleRefName | bundle-uri.c:252-265 | a name under `refs/heads/` maps to the same branch under `refs/bundles/`, and nothing else maps at all |
| Unbundle.ReadRef | bundle-uri.c:267 | `read_ref` finds a value exactly when the ref exists, and then it is the ref's value |
| Unbundle.BundleRefNameInjective | bundle-uri.c:261-265 | two distinct branches never map onto the same bundle ref |
| Unbundle.Heads | bundle-uri.c:255-262 | the header entries that are remapped all lie under `refs/heads/`, and there are no more of them than header entries |
| Unbundle.HeadsAreTheBranches | bundle-uri.c:261-262 | an entry is remapped exactly when its name lies under `refs/heads/` |
| Unbundle.Remap | bundle-uri.c:255-272 | no more updates than header entries; each has reason `fetched bundle` and a name under `refs/bundles/` |
| Unbundle.RemapUnfold | bundle-uri.c:255-272 | a non-branch entry is skipped; a branch entry writes its bundle ref, expecting what `read_ref` finds, and the later entries see the store with that write |
| Unbundle.UnbundleResult | bundle-uri.c:243-246 | the status is 0 exactly when the header was read and `unbundle` returned 0; an unreadable header gives 1 |
| Unbundle.UnbundleFromFile | bundle-uri.c:233-276 | an unreadable header returns 1 with no ref written; otherwise every branch is written to its `refs/bundles/` name in header order, even when `unbundle` failed, and `unbundle`'s status is returned |
| Unbundle.RemapFollowsHeads | bundle-uri.c:255-272 | one update per branch, in order, with reason `fetched bundle`, the `refs/bundles/` name and the header's object id |
| Unbundle.RemapExpectsPriorValue | bundle-uri.c:267-271 | for distinct branches, each update names as old value exactly what the ref held before, or none if it did not exist |
| Unbundle.RemapReadsEarlierUpdates | bundle-uri.c:264-271 | for any header, each update expects the value its bundle ref has after the earlier updates, which is what `read_ref` finds just before that `update_ref` |
| Unbundle.ReadsEarlierCons | bundle-uri.c:264-271 | an update that reads its store, followed by updates that read the store it leaves, all read the store before them |
| Unbundle.AfterUpdatesCons | bundle-uri.c:268-271 | applying one update and then the rest is applying the rest to the store the first one left |
| Unbundle.NoBranchesNoUpdates | bundle-uri.c:261-262 | a header with no `refs/heads/` entry writes no ref |
| Unbundle.MainBranchExample | bundle-uri.c:252-272 | `refs/heads/main` becomes `refs/bundles/main` with the same object id |
| Fetch.FetchBundleUri | bundle-uri.c:278-303 | no scratch name means the process dies having done nothing; otherwise the result is the first failing step's status; the retrieval is the strategy `SelectStrategy` picks, copying into the scratch file, or sending the helper `capabilities` and then, exactly when `get` was advertised, the request to `get` into the scratch file and a blank line, and nothing else; the events are `Trace` of the step statuses (so, by `TraceFacts`, later steps run only after earlier ones succeeded, on the scratch file, and the unlink comes last); refs change exactly as the unbundle step's updates say, and only when it ran |
| Fetch.StepResults | bundle-uri.c:283-291 | retrieval gives 0 exactly when the helper exited 0 having advertised `get`, or the copy succeeded; the check exactly when the file is a bundle; unbundling exactly when the header was read and `unbundle` returned 0 |
| Fetch.TraceShape | bundle-uri.c:283-300 | the four ways a fetch can end each give their events: stopping after retrieval, after the check, after unbundling, or on full success with the decoration write |
| Fetch.TraceFacts | bundle-uri.c:283-300 | every trace starts with the scratch name and the retrieval and ends with the one unlink; the bundle is checked exactly when retrieval succeeded, unbundled exactly when the check succeeded too, and the decoration is written exactly when the combined status is 0 |
| Fetch.DecorationValueMissesBundleRefs | bundle-uri.c:293-297 | the decoration value `refs/bundle/` is not a prefix of any `refs/bundles/<branch>` ref |

## Left out

- Starting the helper process, its pipes, and the `start_command`/`fdopen` failure paths (bundle-uri.c:172-189) are not modelled. The helper is assumed to start; its reply lines and its `finish_command` status are inputs.
- `find_temp_filename` (bundle-uri.c:150-162) is an input: the name it finds, or none when `odb_mkstemp` fails. `die` becomes `died`, with nothing else happening.
- `copy_file`, `is_bundle`, `read_bundle_header`, `unbundle` and `read_ref` are not part of this model. Their answers are inputs; `read_ref` reads the ref-store map.
- `update_ref` is assumed to succeed and to write the ref. Its failure reporting (`UPDATE_REFS_MSG_ON_ERR`) is not modelled.
- Flags and messages are not recorded: the `REF_SKIP_OID_VERIFICATION` flag of `update_ref` (bundle-uri.c:270, which lets the refs be written even after `unbundle` failed), the `CONFIG_FLAGS_FIXED_VALUE | CONFIG_FLAGS_MULTI_REPLACE` flags of the configuration write (bundle-uri.c:296-297), and the `error()` message for a helper without `get` (bundle-uri.c:203), of which only the -1 status is kept.
- Registry.BundleList.ForAllBundles: the hash map's iteration order is not modelled. It is a parameter `order` that lists each id once.
- Registry.BundleList.ForAllBundles: the visitor is a pure function of the record. Side effects of visitors and their `data` argument are not modelled.
- `compare_bundles` (bundle-uri.c:11-22) is modelled as the equality of map keys.
- Freeing memory (`clear_remote_bundle_info`, `strbuf_release`, `bundle_header_release`) has no counterpart.
- CString.Atoi: overflow of C's `int` is not modelled. Digits accumulate in an unbounded integer, so only the value 1 is ever accepted, as in the code for values that fit.
- Strings are sequences of characters. C's NUL termination, and keys or values holding a NUL byte, are not modelled.
- The fetch's configuration write (`git_config_set_multivar_gently`) is recorded as an event with its key, value and value pattern. Its own failure is ignored, as in the code.
- A NULL configuration value is not modelled: values are always strings. In the code, a NULL value for `bundle.list.version` (`atoi`, bundle-uri.c:88), `bundle.list.mode` (`strcmp`, bundle-uri.c:97) or `bundle.<id>.uri` (`xstrdup`, bundle-uri.c:138) would crash, while `bundle.<id>.<other attribute>` with NULL returns 0 and still creates the record.
- `strbuf_getline` (bundle-uri.c:194) removes the line feed and a carriage return just before it. The helper's reply lines (`Env.helperReplies`, the `replies` of `Transport`) are the lines after that removal, and end-of-output is the end of the sequence.
- Fetch.FetchBundleUri: the shared `cleanup:` label (bundle-uri.c:299-302) is written as one exit per failing step, each ending its events with the same unlink.
