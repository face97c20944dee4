# A verified model of a JSON `$ref` resolver

This project models the resolution engine of a JSON Schema / OpenAPI `$ref`
resolver. The engine has six parts:

- a **JSON Pointer codec** (RFC 6901): `~0`/`~1` escaping in section 3, decoding
  in section 4, and the `#`-prefixed URI-fragment form in section 6;
- the **path helpers** `startsWith` and `trimStart`;
- a **TTL cache** for looked-up authorities, with lazy expiry and hit/miss counters;
- the **crawler**, which walks a document and hands every `$ref` it meets to
  `_resolveRef`, in document order;
  - local references go into a pointer graph, together with the "stem"
    edges that later veto circular substitutions;
  - a reference to its own place or to an ancestor of it is refused;
  - remote references are enqueued behind a depth guard;
- the **runner**, which works on one document;
  - `resolve` locates the requested scope, merges the awaited remote
    results, substitutes local pointers in dependency order, and extracts the
    result;
  - `lookupAndResolveAuthority` decides what a remote lookup yields: cycle
    short-circuit, depth cap, child errors reconciled, parse hook;
- the **reference-graph tree expansion** (`nodeChildren`, `nodeTree`, `serialize`).

Modules and files:

| file | module | models |
|---|---|---|
| `wrappers.dfy` | `Wrappers` | `Option`, `Result` |
| `strings.dfy` | `Strings` | the JavaScript string built-ins the code relies on (`indexOf`, `split`, `join`, `trim`, `parseInt`, number-to-string) |
| `utils.dfy` | `JsonPointer` | `src/utils.ts` |
| `json.dfy` | `Json` | a JSON value datatype, JavaScript truthiness, a simplified path get/set, and `src/json.ts` |
| `cache.dfy` | `TtlCache` | `src/cache.ts` |
| `refgraph.dfy` | `RefGraphs` | `src/refGraph.ts` |
| `runner.dfy` | `Runner` | `src/runner.ts` |
| `crawler.dfy` | `Crawler` | `src/crawler.ts` |

Form of the model:

- Code that changes state is written as methods:
  - the cache, a runner and a crawler are classes whose methods update their
    fields;
  - the crawler's `parentPath` and `pointerStack` are shared stacks, pushed
    and popped in place;
  - `replace`, `startsWith`, `trimStart`, `nodeChildren` and the loops of
    `resolve` and `lookupAndResolveAuthority` are loops.
- The methods of the codec, the graph expansion and the runner are proved
  equal to specification functions, and the properties are lemmas about those
  functions. The cache's methods instead state their result and their whole
  new state (entries and counters) directly in their ensures, and the
  scenario methods `SetThenGet` and `StandardTtlScenario` chain those
  contracts.
- The crawler's walk is specified by `Crawler.FoundIn`, the list of
  references in document order, and by `Effects`, the fold of `_resolveRef`'s
  effect over that list:
  - with no scope pointer, `computeGraph` is proved to have exactly that effect;
  - with a scope pointer, a followed local target is crawled again, and the
    walk is only proved to keep the crawler's invariant and to grow every graph.
- What the asynchronous shell supplies is given as input:
  - the awaited remote lookup results;
  - the order in which the pointer graph is processed, or the failure to
    compute one;
  - the graph's transitive dependants and stems;
  - a child runner's resolution;
  - the parse hook's outcome.

## Model

| member | source | states |
|---|---|---|
| Strings.ParseInt | src/json.ts:40-41 | `parseInt` is NaN (`None`) exactly when the string does not start with a decimal digit |
| JsonPointer.Replace | src/utils.ts:1-21 | the replace-all loop's result equals `ReplaceAll`, which replaces each leftmost remaining occurrence of the (non-empty) pattern |
| JsonPointer.ReplaceAllIsScan | src/utils.ts:1-21 | replace-all is a single left-to-right scan that replaces non-overlapping occurrences and copies every other character |
| JsonPointer.ReplaceAllWithoutOccurrence | src/utils.ts:9-18 | a string with no occurrence of the pattern comes back unchanged |
| JsonPointer.EncodeFragmentSegment | src/utils.ts:57-63 | the encoded segment is the escaped segment (`~` to `~0`, then `/` to `~1`); it holds no `/`, and each `~` in it is followed by `0` or `1` |
| JsonPointer.EscapedIsWellEscaped | src/utils.ts:57-63 | an escaped segment has no `/`, and each `~` in it is followed by `0` or `1` |
| JsonPointer.EncodeTildes | src/utils.ts:59 | the first replace pass turns every `~` into `~0` and changes nothing else |
| JsonPointer.EncodeSlashes | src/utils.ts:59 | the second pass, run on the first pass's output, turns every `/` into `~1` |
| JsonPointer.DecodeSlashes | src/utils.ts:29 | decoding `~1` first turns an escaped segment back into its first-pass form |
| JsonPointer.DecodeTildes | src/utils.ts:29 | decoding `~0` after that restores the original segment |
| JsonPointer.DecodeEncodedSegment | src/utils.ts:23-63 | segment decoding inverts segment encoding, because `~1` is decoded before `~0` |
| JsonPointer.EncodeFragmentSegments | src/utils.ts:65-67 | segments are encoded one by one, keeping their number and order |
| JsonPointer.DecodeFragmentSegments | src/utils.ts:23-33 | the array-filling loop decodes each segment in place (`decodeURIComponent` taken as the identity) |
| JsonPointer.JsonPointerToPath | src/utils.ts:35-55 | decoding fails exactly when the pointer is empty, does not start with `#`, or has a second character that is not `/`; the first two give the "must begin with a hash" error; on success there is one segment per `/` |
| JsonPointer.PathToJSONPointer | src/utils.ts:65-79 | the pointer starts with `#`; it is `#` exactly for the empty path; otherwise it starts with `#/` |
| JsonPointer.AddToJSONPointer | src/utils.ts:89-91 | the result is the pointer, then `/`, then the encoded part |
| JsonPointer.UriToJSONPointer | src/utils.ts:93-95 | an empty fragment gives `''`; any other gives `#` followed by the fragment |
| JsonPointer.UriIsJSONPointer | src/utils.ts:97-99 | a reference is a local pointer exactly when its text begins with `#/`; such a reference is `#` followed by its own fragment |
| JsonPointer.DecodeRootPointers | src/utils.ts:46-54 | `#` decodes to `[]` and `#/` decodes to `['']` |
| JsonPointer.EncodeRootPaths | src/utils.ts:74-78 | `[]` encodes to `#` and `['']` encodes to `#/` |
| JsonPointer.PointerRoundTrip | src/utils.ts:23-79 | decoding the pointer of a `%`-free path gives the path back |
| JsonPointer.AddToPathPointer | src/utils.ts:85-91 | adding a part to a path's pointer gives the pointer of the extended path |
| JsonPointer.LocalReferenceDecodes | src/utils.ts:97-99 | a reference that starts with `#/` always decodes, to at least one segment |
| JsonPointer.FragmentIsLocalPointer | src/utils.ts:93-99 | a fragment that starts with `/` gives a local pointer, which decodes to its decoded `/`-separated segments |
| Json.GetValue | src/json.ts:24-26 | getting at the empty path yields nothing; getting at a longer path yields something only from an object or array |
| Json.SetValue | src/json.ts:28-30 | setting into a non-container, or at the empty path, changes nothing; setting keeps a value a container or a non-container |
| Json.GetAfterSet | src/json.ts:24-30 | after a set at a path the setter can reach, getting at that path yields the value that was set |
| Json.StartsWith | src/json.ts:32-62 | the early-exit loop computes `IsPrefixOf`: arrays by element, comparing by integer value when either element parses, else by string equality; strings by `startsWith`; an array or string source with a `val` of the other kind gives true, and a source that is neither gives false |
| Json.LongerIsNoPrefix | src/json.ts:35 | an array `val` longer than `source` is never a prefix |
| Json.PrefixBasics | src/json.ts:33-61 | the empty array is a prefix of every array, and every array and string is a prefix of itself |
| Json.NumericElementsByValue | src/json.ts:40-47 | `"01"` matches `"1"`, so `["a","01","b"]` starts with `["a","1"]` |
| Json.ElementMatchCases | src/json.ts:40-50 | a numeric element never matches a non-numeric one; two non-numeric elements match exactly when they are equal |
| Json.TextPrefix | src/json.ts:53-56 | string `startsWith` holds exactly when the source is the value followed by some rest |
| Json.CommonPrefixLength | src/json.ts:76-83 | the count is at most both lengths, the elements before it agree, and the elements at it differ when both exist |
| Json.TrimStart | src/json.ts:69-84 | the count-then-slice loop returns `target` without its longest common prefix with `elems`, so `target` itself when `elems` is empty |
| Json.CommonPrefixIsLongest | src/json.ts:76-83 | any length at which the agreement stops is the common-prefix length |
| Json.TrimStartExamples | src/json.ts:64-68 | `[1,2,3]` against `[1,2]` drops two elements, and against `[999,2]` drops none |
| Json.TrimLeadingChars | src/json.ts:70-72 | string `trimStart` drops exactly the leading characters in the set, leaving a suffix that starts with none of them |
| TtlCache.Cache.constructor | src/cache.ts:27-29 | a new cache keeps the given TTL, holds no entries and has zero counters |
| TtlCache.Cache.Get | src/cache.ts:35-52 | the result is a hit exactly when the key is present and fresh (no TTL, a TTL of 0, or younger than the TTL); a hit returns the stored value; each call moves exactly one counter by one |
| TtlCache.Cache.Set | src/cache.ts:54-63 | only this key's entry changes, to the value and the current time; the counters do not move |
| TtlCache.Cache.Has | src/cache.ts:65-67 | a key is present exactly when `set` has been called with it, expired or not |
| TtlCache.Cache.Stats | src/cache.ts:31-33 | the stats are the two counters |
| TtlCache.SetThenGet | src/cache.ts:39-63 | with no TTL or a TTL of 0, a get after a set returns the value; once the TTL has elapsed it misses while `has` still holds |
| TtlCache.StandardTtlScenario | src/cache.ts:35-67 | with a TTL of 1000: a miss at 0, a hit at 500, a second miss at 1100 while the key is still present |
| RefGraphs.ChildrenOf | src/refGraph.ts:35-51 | one child per outgoing edge, in edge order, each with the edge target's id and that node's data |
| RefGraphs.NodeChildren | src/refGraph.ts:35-51 | a node with no outgoing-edge entry has no children; otherwise one child per edge, in order, with the target's id and data |
| RefGraphs.NodeChildrenIsChildrenOf | src/refGraph.ts:40-50 | any list with one such child per edge, in order, is `ChildrenOf` |
| RefGraphs.NodeTreeOf | src/refGraph.ts:53-64 | the recursive loop builds the node's tree (acyclic graphs only) |
| RefGraphs.TreeOfChildren | src/refGraph.ts:53-64 | the tree keeps the given node; its children are keyed by exactly the child ids, each mapped to the child's own tree; a node without an edge entry gets no children |
| RefGraphs.Serialize | src/refGraph.ts:66-80 | the recursive loop builds `SerializeOf` of the given nodes |
| RefGraphs.SerializeEntries | src/refGraph.ts:66-80 | the serialized object's keys are exactly the given ids, each mapped to its own subtree |
| RefGraphs.SerializeIsTreeShape | src/refGraph.ts:53-80 | serializing a node gives the shape of its `nodeTree`: a leaf becomes `{}` and any other node the object of its children's serializations |
| RefGraphs.SubtreeBound | src/refGraph.ts:66-80 | a serialization does not depend on the bound used to prove that the recursion ends |
| Runner.RemainingParts | src/runner.ts:14-29 | the remaining child segments are a suffix of the child's segments |
| Runner.RemainingIsCommonPrefixTrimmed | src/runner.ts:14-29 | the loop drops the longest common prefix of the child's segments and the root's non-empty segments |
| Runner.RemoveRootPath | src/runner.ts:14-29 | the shift loop returns the remaining child segments joined by `/` |
| Runner.ResolvePaths | src/runner.ts:31-36 | the array-slot overwrite computes `MergedPath` |
| Runner.ResolvePathsMerge | src/runner.ts:31-36 | the last `/`-segment of the root is replaced by the child, and a root without `/` gives the child (the merge of section 5.2.3 of RFC 3986, without dot-segment removal) |
| Runner.ComputeRef | src/runner.ts:241-249 | under a `$ref` key the value itself is the reference when truthy; otherwise the reference is the truthy `$ref` member of an object or array value; a result is always truthy |
| Runner.RefHolders | src/runner.ts:241-249 | `{"$ref": s, ...}` yields `s`, a `$ref` key yields its string, a bare string is no reference, and `""` is none either |
| Runner.ScopePointer | src/runner.ts:104-105 | a scope is taken exactly when the trimmed pointer is not `''`, `#` or `#/` |
| Runner.Locate | src/runner.ts:103-108 | the whole document when there is no scope; otherwise the decoded path and the value at it, or the decoding error |
| Runner.WholeDocumentScope | src/runner.ts:104-108 | `''`, `#` and `#/` (after trimming) select the whole document |
| Runner.MalformedScopeRejects | src/runner.ts:105-106 | a scope pointer that does not start with `#` makes `resolve` fail with the missing-hash error |
| Runner.MissingScopeReported | src/runner.ts:110-121 | a falsy scope target gives exactly one `POINTER_MISSING` error at the scope path and leaves the source as it was |
| Runner.MergeErrors | src/runner.ts:137-167 | merging appends each lookup's own error and then its result's errors, in lookup order |
| Runner.MergeWithoutResults | src/runner.ts:144-150 | lookups without a truthy result leave the source as it was |
| Runner.MergePlacement | src/runner.ts:152-166 | a result lands at the lookup's target path, or else at the scope path; an empty path replaces the whole document |
| Runner.LookupErrorsFirst | src/runner.ts:137-226 | the remote lookups' errors come first in `resolve`'s errors, in order, ahead of any from the local pass |
| Runner.NoLocalPass | src/runner.ts:177-182 | with `resolvePointers` off, or with no processing order (a cycle), the result is the merged document and the merged errors |
| Runner.VetoedIff | src/runner.ts:195-203 | when every stem decodes, a dependant is vetoed exactly when some stem's path is a prefix of the dependant's path |
| Runner.VetoCheck | src/runner.ts:195-203 | the stem loop with its early exit computes `Vetoed` |
| Runner.VetoedDependantSkipped | src/runner.ts:206 | a vetoed dependant changes neither the document nor the errors |
| Runner.DependantSubstituted | src/runner.ts:208-209 | a non-vetoed dependant of a pointer with a truthy value gets that value at its path, and no error is added |
| Runner.FalsyValueReported | src/runner.ts:210-219 | when the pointer's value is falsy nothing is written, and one `POINTER_MISSING` error is added at the dependant's path |
| Runner.SubstitutionKeepsErrors | src/runner.ts:177-226 | the substitution pass only appends errors |
| Runner.PointerKeepsErrors | src/runner.ts:186-221 | the step for one pointer only appends errors |
| Runner.DependantsKeepErrors | src/runner.ts:192-220 | the loop over one pointer's dependants only appends errors |
| Runner.SubstitutePointer | src/runner.ts:186-221 | the dependants loop computes `SubstitutePointerSpec`; a step that throws ends it |
| Runner.ResolveRunner.constructor | src/runner.ts:58-70 | a root runner (depth 0) caches itself under its authority key; any other runner leaves the cache alone |
| Runner.ResolveRunner.MergeLookups | src/runner.ts:137-167 | the merge loop computes `MergeAll` from the current source |
| Runner.ResolveRunner.SubstituteLocal | src/runner.ts:177-226 | the loop over the processing order computes `SubstituteAll` |
| Runner.ResolveRunner.Resolve | src/runner.ts:96-235 | `resolve` runs locate, missing-scope check, merge, non-object return, local pass and extraction; its result and the runner's new source are those of `ResolveSpec` |
| Runner.ResolveRunner.PassAuthorityOn | src/runner.ts:363-368 | a child runner of a non-root runner gets this runner's authority pushed on its stack |
| Runner.ResolveRunner.AtMaxAuthorityDepth | src/runner.ts:293-295 | the runner is at its maximum depth exactly when its authority stack holds 100 or more entries |
| Runner.ResolveRunner.LookupAndResolveAuthority | src/runner.ts:322-457 | the lookup result is `LookupSpec`: cycle short-circuit, depth cap, lookup failure, then the child's outcome; the child's stack grows by this runner's authority exactly when the lookup reached it and this runner is not the root; the child's `source` may change, as its own `resolve` rewrites it |
| Runner.EarlyOutcome | src/runner.ts:336-380 | the lookup stops before the child runner exactly when the authority is on the stack, the runner is at its maximum depth, or the lookup failed; a stopped lookup keeps the target path and pointer stack it was given |
| Runner.ChildOutcome | src/runner.ts:382-455 | whatever the child's resolution and the parse hook give, the lookup result keeps the target path and pointer stack it was given |
| Runner.ReconcileErrors | src/runner.ts:388-409 | the loop over the child's errors computes `Reconcile` |
| Runner.ResolveChild | src/runner.ts:385-451 | the child's outcome: a resolve failure becomes `RESOLVE_POINTER`; otherwise the reconciled result goes through the parse hook |
| Runner.LookupTargetPath | src/runner.ts:328-333 | the target path is `[]` exactly when the resolving pointer is the parent pointer, and otherwise the parent path |
| Runner.CycleShortCircuit | src/runner.ts:336-343 | an authority already on the stack gives back the original value, with no errors and no error entry |
| Runner.DepthCapStops | src/runner.ts:348-357 | at 100 authorities the lookup yields `RESOLVE_AUTHORITY` with the depth message at the parent path, and no result |
| Runner.ParseRollback | src/runner.ts:412-441 | a throwing parse hook rolls the result back to the original value and adds `PARSE_AUTHORITY` at the parent path |
| Runner.ReconcileWithoutMatches | src/runner.ts:388-409 | errors that are not `POINTER_MISSING` for the requested fragment leave the child's result as it is |
| Runner.ReconcileExactFragment | src/runner.ts:388-409 | a `POINTER_MISSING` at exactly the requested fragment puts the original value in place of a truthy result |
| Crawler.PathStack.Push | src/crawler.ts:68 | the item is appended |
| Crawler.PathStack.Pop | src/crawler.ts:86 | the last item is dropped |
| Crawler.FragmentOf | src/crawler.ts:78 | the fragment of a reference that starts with `#` is the rest of it |
| Crawler.LocalTarget | src/crawler.ts:95-98 | a local reference's target pointer is the reference itself, and it decodes to a non-empty path |
| Crawler.ReferencesParent | src/crawler.ts:104-111 | the loop decides whether the target path is a prefix of the parent path, including equality |
| Crawler.StemDepsFrom | src/crawler.ts:119-136 | no stem dependency is the parent pointer or the target pointer, and there is at most one per remaining parent segment |
| Crawler.NoStemsInsideTarget | src/crawler.ts:119-136 | a parent path that agrees with the target at every position adds no stem edge |
| Crawler.StemDepsExample | src/crawler.ts:119-136 | a reference at `#/definitions/a/items` to `#/definitions/b` has one stem dependency, `#/definitions/a` |
| Crawler.ResolveCrawler.constructor | src/crawler.ts:23-26 | a new crawler has empty graphs and no enqueued lookups, and keeps its runner and scope pointer |
| Crawler.FoundPlaces | src/crawler.ts:28-89 | started at the pointer of its path, the walk hands every reference over with the pointer of the place it was found at |
| Crawler.EntriesPlaces | src/crawler.ts:55-87 | the same for the first `n` own keys of an object or array |
| Crawler.EntryAtPlaces | src/crawler.ts:55-87 | the same for own key `i`: an object member under its key, an array element under its index |
| Crawler.EntryPlaces | src/crawler.ts:58-85 | the same for one own property, whose pointer is its parent's pointer extended by its key |
| Crawler.ResolveCrawler.EffectsAppend | src/crawler.ts:55-87 | handing two lists of finds over one after the other has the effect of handing over their concatenation |
| Crawler.ResolveCrawler.EffectsResolvers | src/crawler.ts:183-185 | the lookups enqueued by a list of finds are the old ones followed by one per remote find, in order, when remote references are followed and the runner is below its maximum URI depth |
| Crawler.ResolveCrawler.EffectsPointerEdges | src/crawler.ts:94-158 | the pointer edges added by a list of finds are exactly the edges from each followed local find's pointer to its target |
| Crawler.ResolveCrawler.AddStemEdges | src/crawler.ts:119-136 | the stem loop adds exactly the `StemDeps` nodes, and one edge from each of them to the target pointer |
| Crawler.ResolveCrawler.AddToRunnerGraph | src/crawler.ts:146-155 | the reference joins the runner's graph; unless it is the root, the root joins it too, with an edge from the root to the reference |
| Crawler.ResolveCrawler.AddPointerEdge | src/crawler.ts:138-158 | both pointers join the pointer graph with the edge between them; every pointer edge still ends at a local pointer and is recorded at a place that is not at or below its target |
| Crawler.ResolveCrawler.AddLocalEdges | src/crawler.ts:113-158 | an accepted local reference has exactly `LocalEffect`: the target's stem node and stem edges, both pointers and the pointer edge, and the runner's node and root edge for the target; the crawler's invariant is kept |
| Crawler.ResolveCrawler.ResolveLocal | src/crawler.ts:96-169 | a reference to its own place or above changes nothing; any other adds both pointers, their edge and its stem edges; without a scope its effect is exactly `LocalEffect` |
| Crawler.ResolveCrawler.ResolveRemote | src/crawler.ts:171-186 | the effect is exactly `RefEffect` of the find: the string of the URI `computeRef` built for the reference (`RunnerView.remoteUri`) joins the runner's graph, and a lookup of that URI is enqueued exactly when remote references are followed and the runner is not at its maximum URI depth |
| Crawler.ResolveCrawler.ResolveRef | src/crawler.ts:91-187 | with inline references off, a local reference changes nothing; a remote reference, or any reference when no scope is set, has exactly `RefEffect`; the stack comes back as it was and every graph only grows |
| Crawler.ResolveCrawler.ComputeGraph | src/crawler.ts:28-89 | with no scope, the effect is exactly `Effects` of the walk's finds `FoundIn`, in order; in every case the stacks come back as they were, the crawler's invariant holds (edges join nodes, pointer and stem edges end at local pointers, every enqueued lookup is of a node of the runner's graph, every pointer edge is recorded at a place that is not at or below its target), every graph only grows, a remote reference is not walked into, and a non-object non-reference adds nothing |
| Crawler.ResolveCrawler.WalkEntries | src/crawler.ts:55-87 | the loop over the own keys has, with no scope, exactly the effect of the finds of all of them, in key order |
| Crawler.ResolveCrawler.WalkEntry | src/crawler.ts:55-87 | one turn of that loop extends the effect so far by the finds of one more own key |
| Crawler.ResolveCrawler.CrawlEntryAt | src/crawler.ts:55-87 | own key `i` has, with no scope, exactly the effect of its finds `EntryAt` |
| Crawler.ResolveCrawler.CrawlEntry | src/crawler.ts:58-86 | one own property, with its key pushed on `parentPath` while it is handled, has, with no scope, exactly the effect of its finds `EntryFound`; both stacks come back as they were and the crawler's invariant is kept |

## Left out

- Asynchrony. `Promise.all`, `await` and the `fast-memoize` coalescing around the authority lookup are not modelled. Awaited results are inputs.
- Readers and I/O. `reader.read` and the file and HTTP readers are not modelled. A lookup's outcome is given as the child runner or the error text it produced.
- URI library calls. `URI.parse`, `isFile`, `fsPath`, `with`, `toString(true)`, `toJSONPointer` and `computeAuthorityCacheKey` are foreign, as is the URI branch of `computeRef` (src/runner.ts:251-288). Their results are fields of `Runner.Ref`: the reference text, its fragment, its authority key and its pointer. In the crawler, the string of the URI `computeRef` builds for a remote reference (resolved against the runner's authority, then passed through `transformRef`) is the foreign function `RunnerView.remoteUri` applied to the `$ref` text.
- `Crawler.FragmentOf`: it takes the fragment to be what follows the first `#`, in place of the URI parser's reading.
- immer `produce`. Documents are persistent values, so reference identity (`toBe`) cannot be stated; value equality is used instead. Sharing inside a draft is not modelled either (next three lines).
- `Runner.SubstitutePointer`: inside the immer draft, `setValue` stores the target's draft object itself at each dependant (src/runner.ts:190-209), so a later substitution inside the target also shows at the dependant. The model copies the value, so that later substitution does not show. Example:
  - document `{"b": {"$ref": "#/a"}, "a": {"y": {"$ref": "#/c"}}, "c": "x"}`;
  - order `#/a`, `#/c`, with `#/b` depending on `#/a` and `#/a/y` on `#/c`;
  - the source ends with `b` = `{"y": "x"}`, and the model with `b` = `{"y": {"$ref": "#/c"}}`.
  The "should support deep pointer chain" case of src/__tests__/resolver.spec.ts relies on this sharing.
- `Runner.ResolveRunner.SubstituteLocal`: equal to `SubstituteAll`, which folds `SubstitutePointerSpec`, the specification of `Runner.SubstitutePointer`, and so has the same value-copy semantics.
- `Runner.ResolveRunner.Resolve`: its local pass is `SubstituteAll`, with the same value-copy semantics.
- lodash `get`/`set`. They are replaced by `Json.GetValue` and `Json.SetValue`:
  - keys are strings;
  - an array index must be a canonical decimal;
  - a missing intermediate container is an object, or an array when the next key is an index;
  - `get` at the empty path gives nothing, and `set` at the empty path changes nothing;
  - prototype properties, `length`, array holes and `__proto__` guards are not modelled.
- `Json.GetValue`: lodash `get` also reads through strings, so `get('abc', ['0'])` is `'a'` and `get('abc', ['length'])` is `3`; the model yields nothing below a string, a number, a boolean or `null`.
- The pointer-graph library. `overallOrder`, `dependantsOf` and `dependenciesOf` are inputs:
  - the order is given as `Option`, with `None` for a cycle;
  - a pointer missing from the dependants or stems map stands for the library throwing on an unknown node.
- The crawler and runner revisions differ. `src/crawler.ts` reads `dereferenceInline`, `baseUri`, `graph`, `root`, `atMaxUriDepth` and `lookupAndResolveUri`, and `src/runner.ts` has none of them. The crawler talks to the abstract `Crawler.RunnerView` instead. `Runner.ResolveRunner.Resolve` takes the crawl's outputs as inputs rather than calling the crawler.
- `Crawler.ResolveCrawler.ResolveLocal`:
  - it decodes the target with `JsonPointer.JsonPointerToPath` in place of the `pointerToPath` of the external JSON library;
  - the scoped crawl of a target (src/crawler.ts:162-169) has no revisit guard and need not end (for example on `{a:{$ref:"#/b"}, b:{$ref:"#/a"}}` with a scope set), so it is bounded by `fuel`, and once the fuel runs out a target is not crawled further.
- `Runner.ResolveRunner.LookupAndResolveAuthority`: the child's own `resolve` (src/runner.ts:385) is the input `childResolved`. That call rewrites the child's document (src/runner.ts:158,178), and the child may be a cached runner or the root runner itself. Its effect on the child's `source` is not modelled; the frame only leaves `source` free to change, so no caller can rely on the child's document after the call.
- `Crawler.ResolveCrawler.ResolveRemote`: the enqueued lookup is recorded as its options. The lookup itself is `Runner.ResolveRunner.LookupAndResolveAuthority`. The options hold copies of `parentPath` and `pointerStack` where the source shares the live arrays.
- `Crawler.ResolveCrawler.ComputeGraph`: its effect is stated exactly (as `Effects` of `FoundIn`) only when no scope pointer is set. With one, each followed local target is crawled again under the remaining `fuel`, and only the crawler's invariant and the growth of every graph are proved.
- `Crawler.ResolveCrawler.ComputeGraph`: a `$ref` whose value is not a string is recognised as a reference and not walked, but what `URI.parse` would make of it is not modelled, so it adds nothing to any graph.
- JavaScript key enumeration order. Object members are walked in their stored order. Duplicate keys in a JSON object are not excluded, and a lookup finds the first of them.
- `decodeURIComponent` is the identity, and the round trip is stated for `%`-free segments only.
- `Strings.ParseInt`: it models `parseInt` as the leading decimal digits. Signs, leading whitespace, hexadecimal and floating point are not modelled, and neither is `NaN` beyond "no leading digit".
- Numbers are integers. Floating point and `NaN` are not modelled.
- `TtlCache.Cache.Has`: the entries are a `{}` literal (src/cache.ts:20-25), so `key in this._data` is also true for names inherited from `Object.prototype` such as `constructor`; the model's entries are its own keys only.
- `TtlCache.Cache.Get`: for the same reason, with no TTL `get('constructor')` counts a hit and returns `undefined`, and `set('__proto__', …)` replaces the entries' prototype instead of adding an entry; neither is modelled.
- The clock is the `now` parameter of the cache methods. The module-level `resolveRunnerCount` counter and debug logging are not modelled.
- `Runner.ResolveChild`: an exception thrown inside reconciliation is not modelled; only a failed child resolution becomes `RESOLVE_POINTER`. The parse hook's arguments are not modelled, only its outcome. `transformRef` is not modelled.
- Thin wrappers: `src/path.ts`, `src/uri.ts`, `src/resolver.ts`, and `stringify`/`parse` in `src/json.ts`.
- `RefGraphs`: cyclic graphs are excluded, because the source has no visited set and would not end on them. A rank map witnesses acyclicity.
