/**
 * The crawler: a depth-first walk over a JSON document that finds every
 * `$ref`, records local references in a pointer graph (with "stem" edges that
 * later veto circular substitutions), refuses local references to an ancestor
 * of their own place, and enqueues remote references for lookup. The runner
 * it reads from and writes to is the small `RunnerView` class; the graphs
 * are sets of nodes and edges.
 */
module Crawler {
  import opened Wrappers
  import opened Strings
  import opened JsonPointer
  import opened Json
  import opened Runner

  /** An array the walk shares by reference and pushes to and pops from in place. */
  class PathStack {
    var items: seq<string>

    constructor (items: seq<string>)
      ensures this.items == items
    {
      this.items := items;
    }

    method Push(x: string)
      modifies this
      ensures items == old(items) + [x]
    {
      items := items + [x];
    }

    method Pop()
      requires |items| > 0
      modifies this
      ensures items == old(items)[..|old(items)| - 1]
    {
      items := items[..|items| - 1];
    }
  }

  /** What the crawler uses of its runner: options, the document, and the runner's reference graph. */
  class RunnerView {
    const dereferenceInline: bool
    const dereferenceRemote: bool
    const baseUri: string
    const root: string
    const source: Json
    /** The runner's `atMaxUriDepth()`, fixed for the duration of a crawl. */
    const atMaxUriDepth: bool
    /**
     * The text of the URI `computeRef` builds from a remote reference's
     * `$ref` text (`ref.toString()`): resolved against the runner's
     * authority and passed through `transformRef`, both foreign.
     */
    const remoteUri: string -> string
    var graphNodes: set<string>
    var graphEdges: set<(string, string)>

    constructor (dereferenceInline: bool, dereferenceRemote: bool, baseUri: string, root: string, source: Json,
                 atMaxUriDepth: bool, remoteUri: string -> string)
      ensures this.dereferenceInline == dereferenceInline && this.dereferenceRemote == dereferenceRemote
      ensures this.baseUri == baseUri && this.root == root && this.source == source
      ensures this.atMaxUriDepth == atMaxUriDepth && this.remoteUri == remoteUri
      ensures graphNodes == {} && graphEdges == {}
    {
      this.dereferenceInline := dereferenceInline;
      this.dereferenceRemote := dereferenceRemote;
      this.baseUri := baseUri;
      this.root := root;
      this.source := source;
      this.atMaxUriDepth := atMaxUriDepth;
      this.remoteUri := remoteUri;
      graphNodes := {};
      graphEdges := {};
    }
  }

  /** The options of one enqueued remote lookup, with `parentPath` as it was when it was enqueued. */
  datatype RefHandlerOpts = RefHandlerOpts(
    ref: string,
    val: Json,
    pointerStack: seq<string>,
    cacheKey: string,
    resolvingPointer: Option<string>,
    parentPath: Path,
    parentPointer: string)

  /** The fragment of a reference: what follows its first `#`, or `''`. */
  function FragmentOf(ref: string): (r: string)
    ensures |r| <= |ref|
    ensures |ref| > 0 && ref[0] == '#' ==> r == ref[1..]
    decreases |ref|
  {
    if |ref| == 0 then ""
    else if ref[0] == '#' then ref[1..]
    else FragmentOf(ref[1..])
  }

  /** A local reference names its own target pointer. */
  lemma LocalTarget(ref: string)
    requires UriIsJSONPointer(ref)
    ensures UriToJSONPointer(FragmentOf(ref)) == ref
    ensures JsonPointerToPath(ref).Success? && |JsonPointerToPath(ref).value| >= 1
  {
    assert ref[0] == ref[..2][0] == '#';
    var f := FragmentOf(ref);
    assert f == ref[1..] && |f| > 0;
    var p := UriToJSONPointer(f);
    assert |p| == |ref| && p[0] == ref[0];
    assert forall k :: 1 <= k < |p| ==> p[k] == p[1..][k - 1] == ref[k];
    LocalReferenceDecodes(ref);
  }

  /** The path a local reference points to. */
  function TargetPath(ref: string): Path
    requires UriIsJSONPointer(ref)
  {
    LocalTarget(ref);
    JsonPointerToPath(ref).value
  }

  /** `targetPath` is a prefix of `parentPath`: the reference points at its own place or above it. */
  predicate IsPathPrefix(targetPath: Path, parentPath: Path)
  {
    |targetPath| <= |parentPath| && targetPath == parentPath[..|targetPath|]
  }

  /** The `referencesParent` loop over the target path. */
  method ReferencesParent(parentPath: Path, targetPath: Path) returns (referencesParent: bool)
    ensures referencesParent <==> IsPathPrefix(targetPath, parentPath)
  {
    var i := 0;
    while i < |targetPath|
      invariant 0 <= i <= |targetPath|
      invariant i <= |parentPath|
      invariant forall k :: 0 <= k < i ==> parentPath[k] == targetPath[k]
    {
      if i >= |parentPath| || parentPath[i] != targetPath[i] {
        return false;
      }
      i := i + 1;
    }
    assert targetPath == parentPath[..|targetPath|];
    return true;
  }

  /**
   * The stem dependencies from position `i` on: a part that agrees with the
   * target path extends `stem`, any other part extends `tail`, and each
   * `stem + tail` so formed is a dependency unless it is the parent or the
   * target pointer itself.
   */
  function StemDepsFrom(parentPath: Path, targetPath: Path, parentPointer: string, targetPointer: string,
                        i: nat, stem: string, tail: string): (r: seq<string>)
    requires i <= |parentPath|
    ensures forall k :: 0 <= k < |r| ==> r[k] != parentPointer && r[k] != targetPointer
    ensures |r| <= |parentPath| - i
    decreases |parentPath| - i
  {
    if i == |parentPath| then []
    else
      var part := parentPath[i];
      if i < |targetPath| && part == targetPath[i] then
        StemDepsFrom(parentPath, targetPath, parentPointer, targetPointer, i + 1, stem + "/" + part, tail)
      else
        var tail' := tail + "/" + part;
        var dep := stem + tail';
        (if dep != parentPointer && dep != targetPointer then [dep] else [])
        + StemDepsFrom(parentPath, targetPath, parentPointer, targetPointer, i + 1, stem, tail')
  }

  /** The nodes that a list of stem dependencies adds. */
  function DepNodes(deps: seq<string>): set<string>
  {
    set k | 0 <= k < |deps| :: deps[k]
  }

  /** The edges that a list of stem dependencies adds, each into `target`. */
  function DepEdges(deps: seq<string>, target: string): set<(string, string)>
  {
    set k | 0 <= k < |deps| :: (deps[k], target)
  }

  function StemDeps(parentPath: Path, targetPath: Path, parentPointer: string, targetPointer: string): seq<string>
  {
    StemDepsFrom(parentPath, targetPath, parentPointer, targetPointer, 0, "#", "")
  }

  /** Where the parent place agrees with the target at every position, no stem edge is added. */
  lemma {:induction false} NoStemsInsideTarget(parentPath: Path, targetPath: Path, parentPointer: string,
                                               targetPointer: string, i: nat, stem: string, tail: string)
    requires |parentPath| <= |targetPath|
    requires i <= |parentPath|
    requires forall k :: i <= k < |parentPath| ==> parentPath[k] == targetPath[k]
    ensures StemDepsFrom(parentPath, targetPath, parentPointer, targetPointer, i, stem, tail) == []
    decreases |parentPath| - i
  {
    if i < |parentPath| {
      NoStemsInsideTarget(parentPath, targetPath, parentPointer, targetPointer, i + 1, stem + "/" + parentPath[i], tail);
    }
  }

  /**
   * A reference at `#/definitions/a/items` to `#/definitions/b`: the shared
   * `definitions` is stem, `a` starts the tail, and `#/definitions/a` is the
   * one dependency (the next one is the parent pointer itself).
   */
  lemma StemDepsExample()
    ensures StemDeps(["definitions", "a", "items"], ["definitions", "b"], "#/definitions/a/items", "#/definitions/b")
         == ["#/definitions/a"]
  {
    var pp: Path := ["definitions", "a", "items"];
    var tp: Path := ["definitions", "b"];
    var p, t := "#/definitions/a/items", "#/definitions/b";
    assert "#" + "/" + "definitions" == "#/definitions";
    assert "" + "/" + "a" == "/a" && "#/definitions" + "/a" == "#/definitions/a";
    assert "/a" + "/" + "items" == "/a/items" && "#/definitions" + "/a/items" == p;
    assert StemDepsFrom(pp, tp, p, t, 3, "#/definitions", "/a/items") == [];
    assert StemDepsFrom(pp, tp, p, t, 2, "#/definitions", "/a") == [];
    assert StemDepsFrom(pp, tp, p, t, 1, "#/definitions", "") == ["#/definitions/a"];
  }

  /** Every edge joins two nodes of its graph and ends at a local pointer. */
  predicate LocalEdges(nodes: set<string>, edges: set<(string, string)>)
  {
    forall e :: e in edges ==> e.0 in nodes && e.1 in nodes && UriIsJSONPointer(e.1)
  }

  /** Concatenation is associative. */
  lemma ConcatAssoc<T>(a: seq<T>, b: seq<T>, c: seq<T>)
    ensures (a + b) + c == a + (b + c)
  {
  }

  /** Every enqueued lookup is of a node of the runner's graph: `setNode` comes before the push. */
  predicate LookupsInGraph(resolvers: seq<RefHandlerOpts>, nodes: set<string>)
  {
    forall i :: 0 <= i < |resolvers| ==> resolvers[i].ref in nodes
  }

  /** Every edge of the runner's graph leaves its root for one of its nodes. */
  predicate RootEdges(root: string, nodes: set<string>, edges: set<(string, string)>)
  {
    forall e :: e in edges ==> e.0 == root && e.1 in nodes
  }

  /**
   * Each pointer edge is mapped to the place of a reference that recorded
   * it, and that place is neither the edge's target nor below it.
   */
  predicate EdgePlaces(edges: set<(string, string)>, places: map<(string, string), Path>)
  {
    && places.Keys == edges
    && forall e :: e in places ==> UriIsJSONPointer(e.1) && !IsPathPrefix(TargetPath(e.1), places[e])
  }

  /**
   * The runner's graph after graphlib's `setNode(t)` and, unless `t` is the
   * root, `setEdge(root, t)`, which adds the root as a node if it is missing.
   */
  function RefNodes(nodes: set<string>, root: string, t: string): set<string>
  {
    nodes + {t} + (if root != t then {root} else {})
  }

  function RefEdges(edges: set<(string, string)>, root: string, t: string): set<(string, string)>
  {
    edges + (if root != t then {(root, t)} else {})
  }

  // ----- what the walk finds -----

  /**
   * A reference the walk hands to `_resolveRef`: its text, the value that
   * holds it, the place of that value and its pointer, and the cache key.
   */
  datatype Found = Found(ref: string, val: Json, parentPath: Path, parentPointer: string, cacheKey: string)

  /** The number of own keys of an object or array. */
  function Width(v: Json): nat
  {
    match v
    case JObj(ms) => |ms|
    case JArr(es) => |es|
    case _ => 0
  }

  /**
   * The references `computeGraph` finds in `target` at `path`, in the order
   * it finds them: a value that is a reference is one find and is not
   * looked into; an object or array is walked over its own keys in order.
   */
  function FoundIn(target: Json, path: Path, parentPointer: string): seq<Found>
    decreases target, Width(target) + 1
  {
    var pointer := if parentPointer == "" then "#" else parentPointer;
    var ref := ComputeRef(None, Some(target));
    if ref.Some? then
      if ref.value.JStr? then [Found(ref.value.s, target, path, pointer, pointer)] else []
    else if IsObjectType(target) then EntriesFound(target, Width(target), path, pointer)
    else []
  }

  /** The finds under the first `n` own keys of `target`. */
  function EntriesFound(target: Json, n: nat, path: Path, pointer: string): seq<Found>
    requires n <= Width(target)
    decreases target, n
  {
    if n == 0 then [] else EntriesFound(target, n - 1, path, pointer) + EntryAt(target, n - 1, path, pointer)
  }

  /** The finds under own key `i` of `target`: an object's `i`-th member, or an array's `i`-th element under its index. */
  function EntryAt(target: Json, i: nat, path: Path, pointer: string): seq<Found>
    requires i < Width(target)
    decreases target, i
  {
    match target
    case JObj(ms) => EntryFound(ms[i].key, ms[i].value, path, pointer)
    case JArr(es) => EntryFound(NatToString(i), es[i], path, pointer)
  }

  /**
   * The finds under one own key: a reference member is one find at the
   * member's pointer, keyed by its own fragment; an object or array is walked.
   */
  function EntryFound(key: string, val: Json, path: Path, pointer: string): seq<Found>
    decreases val, Width(val) + 2
  {
    var current := AddToJSONPointer(pointer, key);
    var ref := ComputeRef(Some(key), Some(val));
    if ref.Some? then
      if ref.value.JStr? then [Found(ref.value.s, val, path + [key], current, UriToJSONPointer(FragmentOf(ref.value.s)))]
      else []
    else if IsObjectType(val) then FoundIn(val, path + [key], current)
    else []
  }

  /** Every find's pointer is the pointer of its place. */
  predicate PlacesAgree(fs: seq<Found>)
  {
    forall k :: 0 <= k < |fs| ==> fs[k].parentPointer == PathToJSONPointer(fs[k].parentPath)
  }

  /** Started at the pointer of its place, the walk keeps pointers and places in step. */
  lemma {:induction false} FoundPlaces(target: Json, path: Path)
    ensures PlacesAgree(FoundIn(target, path, PathToJSONPointer(path)))
    decreases target, Width(target) + 1
  {
    var ptr := PathToJSONPointer(path);
    assert ptr != "";
    if ComputeRef(None, Some(target)).None? && IsObjectType(target) {
      EntriesPlaces(target, Width(target), path);
    }
  }

  lemma {:induction false} EntriesPlaces(target: Json, n: nat, path: Path)
    requires n <= Width(target)
    ensures PlacesAgree(EntriesFound(target, n, path, PathToJSONPointer(path)))
    decreases target, n
  {
    if n > 0 {
      var ptr := PathToJSONPointer(path);
      EntriesPlaces(target, n - 1, path);
      EntryAtPlaces(target, n - 1, path);
      EntriesPlacesStep(target, n, path, ptr);
    }
  }

  lemma EntriesPlacesStep(target: Json, n: nat, path: Path, ptr: string)
    requires 0 < n <= Width(target)
    requires PlacesAgree(EntriesFound(target, n - 1, path, ptr)) && PlacesAgree(EntryAt(target, n - 1, path, ptr))
    ensures PlacesAgree(EntriesFound(target, n, path, ptr))
  {
    var before, at := EntriesFound(target, n - 1, path, ptr), EntryAt(target, n - 1, path, ptr);
    PlacesAgreeConcat(before, at);
    assert EntriesFound(target, n, path, ptr) == before + at;
  }

  lemma {:induction false} EntryAtPlaces(target: Json, i: nat, path: Path)
    requires i < Width(target)
    ensures PlacesAgree(EntryAt(target, i, path, PathToJSONPointer(path)))
    decreases target, i
  {
    match target {
      case JObj(ms) => EntryPlaces(ms[i].key, ms[i].value, path);
      case JArr(es) => EntryPlaces(NatToString(i), es[i], path);
    }
  }

  lemma PlacesAgreeConcat(a: seq<Found>, b: seq<Found>)
    requires PlacesAgree(a) && PlacesAgree(b)
    ensures PlacesAgree(a + b)
  {
    forall k | 0 <= k < |a + b|
      ensures (a + b)[k].parentPointer == PathToJSONPointer((a + b)[k].parentPath)
    {
      if k >= |a| {
        assert (a + b)[k] == b[k - |a|];
      }
    }
  }

  lemma {:induction false} EntryPlaces(key: string, val: Json, path: Path)
    ensures PlacesAgree(EntryFound(key, val, path, PathToJSONPointer(path)))
    decreases val, Width(val) + 2
  {
    AddToPathPointer(path, key);
    if ComputeRef(Some(key), Some(val)).None? && IsObjectType(val) {
      FoundPlaces(val, path + [key]);
    }
  }

  /** What a crawl changes: the pointer graph, the stem graph, the runner's graph and the enqueued lookups. */
  datatype CrawlState = CrawlState(
    pointerNodes: set<string>,
    pointerEdges: set<(string, string)>,
    stemNodes: set<string>,
    stemEdges: set<(string, string)>,
    graphNodes: set<string>,
    graphEdges: set<(string, string)>,
    resolvers: seq<RefHandlerOpts>)

  /** Every graph of `b` contains that of `a`, and the lookups of `a` begin those of `b`. */
  predicate Grows(a: CrawlState, b: CrawlState)
  {
    && a.pointerNodes <= b.pointerNodes && a.pointerEdges <= b.pointerEdges
    && a.stemNodes <= b.stemNodes && a.stemEdges <= b.stemEdges
    && a.graphNodes <= b.graphNodes && a.graphEdges <= b.graphEdges
    && |a.resolvers| <= |b.resolvers| && b.resolvers[..|a.resolvers|] == a.resolvers
  }

  lemma GrowsTrans(a: CrawlState, b: CrawlState, c: CrawlState)
    requires Grows(a, b) && Grows(b, c)
    ensures Grows(a, c)
  {
    assert c.resolvers[..|a.resolvers|] == c.resolvers[..|b.resolvers|][..|a.resolvers|];
  }

  /** The crawler of one `resolve`: the two pointer graphs and the enqueued remote lookups. */
  class ResolveCrawler {
    /** The pointer `resolve` was called with; when set, local targets are crawled too. */
    const jsonPointer: Option<string>
    const runner: RunnerView
    var pointerNodes: set<string>
    var pointerEdges: set<(string, string)>
    var stemNodes: set<string>
    var stemEdges: set<(string, string)>
    var resolvers: seq<RefHandlerOpts>
    /** For every pointer edge, the place of the reference that recorded it. */
    ghost var edgePlaces: map<(string, string), Path>

    /**
     * Edges join nodes; pointer and stem edges end at local pointers; every
     * enqueued lookup is for a remote reference; the runner's graph only has
     * edges from its root; and no pointer edge came from a reference to its
     * own place or an ancestor of it.
     */
    ghost predicate Valid()
      reads this, runner
    {
      && LocalEdges(pointerNodes, pointerEdges)
      && LocalEdges(stemNodes, stemEdges)
      && LookupsInGraph(resolvers, runner.graphNodes)
      && RootEdges(runner.root, runner.graphNodes, runner.graphEdges)
      && EdgePlaces(pointerEdges, edgePlaces)
    }

    constructor (runner: RunnerView, jsonPointer: Option<string>)
      requires RootEdges(runner.root, runner.graphNodes, runner.graphEdges)
      ensures Valid()
      ensures this.runner == runner && this.jsonPointer == jsonPointer
      ensures pointerNodes == {} && pointerEdges == {} && stemNodes == {} && stemEdges == {} && resolvers == []
    {
      this.runner := runner;
      this.jsonPointer := jsonPointer;
      pointerNodes := {};
      pointerEdges := {};
      stemNodes := {};
      stemEdges := {};
      resolvers := [];
      edgePlaces := map[];
    }

    /** `this.jsonPointer` is truthy: a scope is being resolved, and local targets are crawled too. */
    predicate Scoped()
    {
      jsonPointer.Some? && jsonPointer.value != ""
    }

    function State(): CrawlState
      reads this, runner
    {
      CrawlState(pointerNodes, pointerEdges, stemNodes, stemEdges, runner.graphNodes, runner.graphEdges, resolvers)
    }

    /**
     * The graph updates of a followed local reference from `parentPath`
     * (pointer `parentPointer`) to `targetPath` (pointer `targetPointer`):
     * the target's stem node and its stem edges, both pointer nodes and the
     * edge between them, and the runner's node for the target.
     */
    function LocalEffect(st: CrawlState, parentPath: Path, targetPath: Path, parentPointer: string,
                         targetPointer: string): CrawlState
    {
      var deps := StemDeps(parentPath, targetPath, parentPointer, targetPointer);
      st.(pointerNodes := st.pointerNodes + {parentPointer, targetPointer},
          pointerEdges := st.pointerEdges + {(parentPointer, targetPointer)},
          stemNodes := st.stemNodes + {targetPointer} + DepNodes(deps),
          stemEdges := st.stemEdges + DepEdges(deps, targetPointer),
          graphNodes := RefNodes(st.graphNodes, runner.root, runner.baseUri + targetPointer),
          graphEdges := RefEdges(st.graphEdges, runner.root, runner.baseUri + targetPointer))
    }

    /** The lookup `_resolveRef` enqueues for a remote find, of the URI built for it. */
    function Lookup(f: Found, pointerStack: seq<string>): RefHandlerOpts
    {
      RefHandlerOpts(runner.remoteUri(f.ref), f.val, pointerStack, f.cacheKey, jsonPointer, f.parentPath, f.parentPointer)
    }

    /** Remote lookups are enqueued: remote references are followed and the URI depth is not reached. */
    predicate Enqueues()
    {
      runner.dereferenceRemote && !runner.atMaxUriDepth
    }

    /** A local find whose target is not its own place or above, with inline references followed. */
    predicate Followed(f: Found)
    {
      runner.dereferenceInline && UriIsJSONPointer(f.ref) && !IsPathPrefix(TargetPath(f.ref), f.parentPath)
    }

    /**
     * What `_resolveRef` does with one find when no scope is being resolved:
     * a followed local reference adds its edges, a refused or unfollowed one
     * nothing; the URI built for a remote one joins the runner's graph and
     * may be enqueued.
     */
    function RefEffect(st: CrawlState, f: Found, pointerStack: seq<string>): CrawlState
    {
      if UriIsJSONPointer(f.ref) then
        if Followed(f) then LocalEffect(st, f.parentPath, TargetPath(f.ref), f.parentPointer, f.ref) else st
      else
        st.(graphNodes := RefNodes(st.graphNodes, runner.root, runner.remoteUri(f.ref)),
            graphEdges := RefEdges(st.graphEdges, runner.root, runner.remoteUri(f.ref)),
            resolvers := st.resolvers + (if Enqueues() then [Lookup(f, pointerStack)] else []))
    }

    /** The finds handed to `_resolveRef` one after another. */
    function Effects(st: CrawlState, fs: seq<Found>, pointerStack: seq<string>): CrawlState
      decreases |fs|
    {
      if |fs| == 0 then st else Effects(RefEffect(st, fs[0], pointerStack), fs[1..], pointerStack)
    }

    /** The remote finds, in order, as the lookups enqueued for them. */
    function RemoteLookups(fs: seq<Found>, pointerStack: seq<string>): seq<RefHandlerOpts>
      decreases |fs|
    {
      if |fs| == 0 then []
      else
        (if !UriIsJSONPointer(fs[0].ref) && Enqueues() then [Lookup(fs[0], pointerStack)] else [])
        + RemoteLookups(fs[1..], pointerStack)
    }

    /** The pointer edges of the followed finds. */
    function FollowedEdges(fs: seq<Found>): set<(string, string)>
    {
      set k | 0 <= k < |fs| && Followed(fs[k]) :: (fs[k].parentPointer, fs[k].ref)
    }

    /** Handing finds over in two batches is handing them over at once. */
    lemma {:induction false} EffectsAppend(st: CrawlState, a: seq<Found>, b: seq<Found>, pointerStack: seq<string>)
      ensures Effects(st, a + b, pointerStack) == Effects(Effects(st, a, pointerStack), b, pointerStack)
      decreases |a|
    {
      if |a| == 0 {
        assert a + b == b;
      } else {
        assert (a + b)[0] == a[0];
        assert (a + b)[1..] == a[1..] + b;
        EffectsAppend(RefEffect(st, a[0], pointerStack), a[1..], b, pointerStack);
      }
    }

    /**
     * One step of the entries loop: growth is transitive, and without a
     * scope the effects of `done` and then of `at` are the effects of `done + at`.
     */
    lemma EntriesStep(st: CrawlState, mid: CrawlState, post: CrawlState, done: seq<Found>, at: seq<Found>,
                      pointerStack: seq<string>, scoped: bool)
      requires Grows(st, mid) && Grows(mid, post)
      requires !scoped ==> mid == Effects(st, done, pointerStack) && post == Effects(mid, at, pointerStack)
      ensures Grows(st, post)
      ensures !scoped ==> post == Effects(st, done + at, pointerStack)
    {
      GrowsTrans(st, mid, post);
      if !scoped {
        EffectsAppend(st, done, at, pointerStack);
      }
    }

    /** The lookups a crawl enqueues are exactly those of its remote finds, in the order found. */
    lemma {:induction false} EffectsResolvers(st: CrawlState, fs: seq<Found>, pointerStack: seq<string>)
      ensures Effects(st, fs, pointerStack).resolvers == st.resolvers + RemoteLookups(fs, pointerStack)
      decreases |fs|
    {
      if |fs| > 0 {
        var next := RefEffect(st, fs[0], pointerStack);
        EffectsResolvers(next, fs[1..], pointerStack);
        RefEffectResolvers(st, fs[0], pointerStack);
        var here := if !UriIsJSONPointer(fs[0].ref) && Enqueues() then [Lookup(fs[0], pointerStack)] else [];
        var rest := RemoteLookups(fs[1..], pointerStack);
        assert RemoteLookups(fs, pointerStack) == here + rest;
        assert next.resolvers == st.resolvers + here;
        ConcatAssoc(st.resolvers, here, rest);
      }
    }

    /** One find enqueues its lookup exactly when it is remote and lookups are enqueued. */
    lemma RefEffectResolvers(st: CrawlState, f: Found, pointerStack: seq<string>)
      ensures RefEffect(st, f, pointerStack).resolvers
           == st.resolvers + (if !UriIsJSONPointer(f.ref) && Enqueues() then [Lookup(f, pointerStack)] else [])
    {
    }

    /**
     * The pointer edges a crawl adds are exactly those of its followed local
     * finds: from the find's pointer to its target.
     */
    lemma {:induction false} EffectsPointerEdges(st: CrawlState, fs: seq<Found>, pointerStack: seq<string>)
      ensures Effects(st, fs, pointerStack).pointerEdges == st.pointerEdges + FollowedEdges(fs)
      decreases |fs|
    {
      if |fs| > 0 {
        var next := RefEffect(st, fs[0], pointerStack);
        EffectsPointerEdges(next, fs[1..], pointerStack);
        assert next.pointerEdges == st.pointerEdges + (if Followed(fs[0]) then {(fs[0].parentPointer, fs[0].ref)} else {});
        FollowedEdgesCons(fs);
      }
    }

    lemma FollowedEdgesCons(fs: seq<Found>)
      requires |fs| > 0
      ensures FollowedEdges(fs)
           == (if Followed(fs[0]) then {(fs[0].parentPointer, fs[0].ref)} else {}) + FollowedEdges(fs[1..])
    {
      var rest := fs[1..];
      forall e | e in FollowedEdges(rest) ensures e in FollowedEdges(fs) {
        var k :| 0 <= k < |rest| && Followed(rest[k]) && e == (rest[k].parentPointer, rest[k].ref);
        assert fs[k + 1] == rest[k];
      }
      forall e | e in FollowedEdges(fs)
        ensures e in (if Followed(fs[0]) then {(fs[0].parentPointer, fs[0].ref)} else {}) + FollowedEdges(rest)
      {
        var k :| 0 <= k < |fs| && Followed(fs[k]) && e == (fs[k].parentPointer, fs[k].ref);
        if k > 0 {
          assert rest[k - 1] == fs[k];
        }
      }
    }

    /** The stem loop of `_resolveRef`: one node and one edge to the target per stem dependency. */
    method AddStemEdges(parentPath: Path, targetPath: Path, parentPointer: string, targetPointer: string)
      requires LocalEdges(stemNodes, stemEdges) && targetPointer in stemNodes && UriIsJSONPointer(targetPointer)
      modifies this`stemNodes, this`stemEdges
      ensures LocalEdges(stemNodes, stemEdges)
      ensures var deps := StemDeps(parentPath, targetPath, parentPointer, targetPointer);
        && stemNodes == old(stemNodes) + DepNodes(deps)
        && stemEdges == old(stemEdges) + DepEdges(deps, targetPointer)
    {
      ghost var all := StemDeps(parentPath, targetPath, parentPointer, targetPointer);
      ghost var done: seq<string> := [];
      var stem := "#";
      var tail := "";
      var i := 0;
      while i < |parentPath|
        invariant 0 <= i <= |parentPath|
        invariant all == done + StemDepsFrom(parentPath, targetPath, parentPointer, targetPointer, i, stem, tail)
        invariant stemNodes == old(stemNodes) + DepNodes(done)
        invariant stemEdges == old(stemEdges) + DepEdges(done, targetPointer)
        invariant LocalEdges(stemNodes, stemEdges) && targetPointer in stemNodes
      {
        var part := parentPath[i];
        ghost var rest := StemDepsFrom(parentPath, targetPath, parentPointer, targetPointer, i, stem, tail);
        if i < |targetPath| && part == targetPath[i] {
          stem := stem + "/" + part;
        } else {
          tail := tail + "/" + part;
          var dep := stem + tail;
          ghost var next := StemDepsFrom(parentPath, targetPath, parentPointer, targetPointer, i + 1, stem, tail);
          if dep != parentPointer && dep != targetPointer {
            assert rest == [dep] + next;
            assert done + rest == (done + [dep]) + next;
            StemEdgeKeepsLocal(stemNodes, stemEdges, dep, targetPointer);
            stemNodes := stemNodes + {dep};
            stemEdges := stemEdges + {(dep, targetPointer)};
            SetOfSnoc(done, dep, targetPointer);
            done := done + [dep];
          } else {
            assert rest == next;
          }
        }
        i := i + 1;
      }
      assert all == done;
    }

    /**
     * A reference joins the runner's graph, with an edge from the root (and
     * so the root as a node) unless it is the root.
     */
    method AddToRunnerGraph(targetRef: string)
      requires RootEdges(runner.root, runner.graphNodes, runner.graphEdges)
      modifies runner`graphNodes, runner`graphEdges
      ensures RootEdges(runner.root, runner.graphNodes, runner.graphEdges)
      ensures runner.graphNodes == RefNodes(old(runner.graphNodes), runner.root, targetRef)
      ensures runner.graphEdges == RefEdges(old(runner.graphEdges), runner.root, targetRef)
    {
      runner.graphNodes := runner.graphNodes + {targetRef};
      if runner.root != targetRef {
        runner.graphNodes := runner.graphNodes + {runner.root};
        runner.graphEdges := runner.graphEdges + {(runner.root, targetRef)};
      }
    }

    /** The graph updates of a followed local reference, as `LocalEffect` states them. */
    method AddLocalEdges(parentPath: Path, targetPath: Path, parentPointer: string, targetPointer: string)
      requires Valid()
      requires UriIsJSONPointer(targetPointer) && targetPath == TargetPath(targetPointer)
      requires !IsPathPrefix(targetPath, parentPath)
      modifies this`pointerNodes, this`pointerEdges, this`stemNodes, this`stemEdges, this`edgePlaces
      modifies runner`graphNodes, runner`graphEdges
      ensures Valid()
      ensures State() == LocalEffect(old(State()), parentPath, targetPath, parentPointer, targetPointer)
    {
      stemNodes := stemNodes + {targetPointer};
      AddStemEdges(parentPath, targetPath, parentPointer, targetPointer);
      AddPointerEdge(parentPath, parentPointer, targetPointer);
      AddToRunnerGraph(runner.baseUri + targetPointer);
    }

    /** The pointer graph's part of a followed local reference: both pointers and the edge between them. */
    method AddPointerEdge(parentPath: Path, parentPointer: string, targetPointer: string)
      requires LocalEdges(pointerNodes, pointerEdges) && EdgePlaces(pointerEdges, edgePlaces)
      requires UriIsJSONPointer(targetPointer) && !IsPathPrefix(TargetPath(targetPointer), parentPath)
      modifies this`pointerNodes, this`pointerEdges, this`edgePlaces
      ensures LocalEdges(pointerNodes, pointerEdges) && EdgePlaces(pointerEdges, edgePlaces)
      ensures pointerNodes == old(pointerNodes) + {parentPointer, targetPointer}
      ensures pointerEdges == old(pointerEdges) + {(parentPointer, targetPointer)}
    {
      PointerEdgeKeepsLocal(pointerNodes, pointerEdges, parentPointer, targetPointer);
      EdgePlaceAdded(pointerEdges, edgePlaces, (parentPointer, targetPointer), parentPath);
      pointerNodes := pointerNodes + {parentPointer, targetPointer};
      pointerEdges := pointerEdges + {(parentPointer, targetPointer)};
      edgePlaces := edgePlaces[(parentPointer, targetPointer) := parentPath];
    }

    /**
     * The remote branch of `_resolveRef`: the URI `computeRef` built for the
     * reference joins the runner's graph, and a lookup of that URI is
     * enqueued when remote references are followed and the runner is not at
     * its maximum URI depth.
     */
    method ResolveRemote(ref: string, val: Json, parentPath: Path, parentPointer: string, pointerStack: seq<string>,
                         cacheKey: string)
      requires Valid() && !UriIsJSONPointer(ref)
      modifies this`resolvers, runner`graphNodes, runner`graphEdges
      ensures Valid()
      ensures State() == RefEffect(old(State()), Found(ref, val, parentPath, parentPointer, cacheKey), pointerStack)
      ensures runner.remoteUri(ref) in runner.graphNodes
    {
      var remoteRef := runner.remoteUri(ref);
      AddToRunnerGraph(remoteRef);
      if runner.dereferenceRemote && !runner.atMaxUriDepth {
        resolvers := resolvers + [RefHandlerOpts(remoteRef, val, pointerStack, cacheKey, jsonPointer, parentPath, parentPointer)];
      }
    }

    /**
     * The local branch of `_resolveRef` when inline references are
     * followed: a reference to its own place or above is refused; any other
     * adds its edges and, when a scope is being resolved, its target is
     * crawled too, with one unit less `fuel`.
     */
    method ResolveLocal(ref: string, val: Json, parentPath: Path, parentPointer: string, pointerStack: PathStack,
                        fuel: nat)
      requires Valid() && UriIsJSONPointer(ref) && runner.dereferenceInline
      modifies this, runner, pointerStack
      ensures Valid()
      ensures pointerStack.items == old(pointerStack.items)
      ensures Grows(old(State()), State())
      // a local reference to its own place or above changes nothing
      ensures IsPathPrefix(TargetPath(ref), parentPath) ==> State() == old(State())
      // any other adds both pointers, the edge between them, and its stem edges
      ensures var targetPath := TargetPath(ref);
        var deps := StemDeps(parentPath, targetPath, parentPointer, ref);
        !IsPathPrefix(targetPath, parentPath) ==>
        && {parentPointer, ref} <= pointerNodes && (parentPointer, ref) in pointerEdges
        && ref in stemNodes && (forall k :: 0 <= k < |deps| ==> (deps[k], ref) in stemEdges)
      // and, when no scope is being resolved, nothing else
      ensures !IsPathPrefix(TargetPath(ref), parentPath) && !Scoped() ==>
        State() == LocalEffect(old(State()), parentPath, TargetPath(ref), parentPointer, ref)
      decreases fuel, val, 0
    {
      LocalTarget(ref);
      var targetPointer := UriToJSONPointer(FragmentOf(ref));
      var targetPath := JsonPointerToPath(targetPointer).value;
      var referencesParent := ReferencesParent(parentPath, targetPath);
      if referencesParent {
        return;
      }
      AddLocalEdges(parentPath, targetPath, parentPointer, targetPointer);
      if Scoped() {
        pointerStack.Push(targetPointer);
        var target := GetValue(runner.source, targetPath);
        if fuel > 0 && target.Some? {
          var scoped := new PathStack(targetPath);
          ComputeGraph(target.value, scoped, targetPointer, pointerStack, fuel - 1);
        }
        pointerStack.Pop();
      }
    }

    /**
     * `_resolveRef` for the reference text `ref` found at `parentPath`
     * (pointer `parentPointer`): a local reference is followed only when
     * inline references are; a remote one never adds a pointer edge. With
     * no scope, its effect is `RefEffect`.
     */
    method ResolveRef(ref: string, val: Json, parentPath: Path, parentPointer: string, pointerStack: PathStack,
                      cacheKey: string, fuel: nat)
      requires Valid()
      modifies this, runner, pointerStack
      ensures Valid()
      ensures pointerStack.items == old(pointerStack.items)
      ensures Grows(old(State()), State())
      ensures UriIsJSONPointer(ref) && !runner.dereferenceInline ==> State() == old(State())
      ensures !UriIsJSONPointer(ref) || !Scoped() ==>
        State() == RefEffect(old(State()), Found(ref, val, parentPath, parentPointer, cacheKey), old(pointerStack.items))
      decreases fuel, val, 1
    {
      if UriIsJSONPointer(ref) {
        if runner.dereferenceInline {
          ResolveLocal(ref, val, parentPath, parentPointer, pointerStack, fuel);
        }
      } else {
        ResolveRemote(ref, val, parentPath, parentPointer, pointerStack.items, cacheKey);
      }
    }

    /**
     * `computeGraph`: a value that is a reference is handed to `ResolveRef`
     * and not walked; any other object or array is walked over its own
     * keys, each under the pointer `addToJSONPointer` builds, with the key
     * pushed on `parentPath` for the duration. With no scope, its effect is
     * that of the finds `FoundIn` lists.
     */
    method ComputeGraph(target: Json, parentPath: PathStack, parentPointer: string, pointerStack: PathStack, fuel: nat)
      requires Valid() && parentPath != pointerStack
      modifies this, runner, parentPath, pointerStack
      ensures Valid()
      ensures parentPath.items == old(parentPath.items) && pointerStack.items == old(pointerStack.items)
      ensures Grows(old(State()), State())
      // a remote reference is not walked: nothing inside it reaches the pointer graphs
      ensures ComputeRef(None, Some(target)).Some? && ComputeRef(None, Some(target)).value.JStr?
              && !UriIsJSONPointer(ComputeRef(None, Some(target)).value.s) ==>
        && pointerNodes == old(pointerNodes) && pointerEdges == old(pointerEdges)
        && stemNodes == old(stemNodes) && stemEdges == old(stemEdges)
        && |resolvers| <= |old(resolvers)| + 1
      // values that are neither references nor objects contribute nothing
      ensures ComputeRef(None, Some(target)).None? && !IsObjectType(target) ==> State() == old(State())
      // with no scope, exactly the finds of the walk, in order
      ensures !Scoped() ==>
        State() == Effects(old(State()), FoundIn(target, old(parentPath.items), parentPointer), old(pointerStack.items))
      decreases fuel, target, 4
    {
      var pointer := if parentPointer == "" then "#" else parentPointer;
      var ref := ComputeRef(None, Some(target));
      if ref.Some? {
        if ref.value.JStr? {
          ResolveRef(ref.value.s, target, parentPath.items, pointer, pointerStack, pointer, fuel);
        }
        return;
      }
      if !IsObjectType(target) {
        return;
      }
      WalkEntries(target, parentPath, pointer, pointerStack, fuel);
    }

    /** The loop of `computeGraph` over the own keys of an object or array. */
    method WalkEntries(target: Json, parentPath: PathStack, pointer: string, pointerStack: PathStack, fuel: nat)
      requires Valid() && parentPath != pointerStack
      modifies this, runner, parentPath, pointerStack
      ensures Valid()
      ensures parentPath.items == old(parentPath.items) && pointerStack.items == old(pointerStack.items)
      ensures Grows(old(State()), State())
      ensures !Scoped() ==>
        State() == Effects(old(State()), EntriesFound(target, Width(target), old(parentPath.items), pointer),
                           old(pointerStack.items))
      decreases fuel, target, 3
    {
      ghost var st := State();
      ghost var done: seq<Found> := [];
      var n := Width(target);
      var i := 0;
      while i < n
        invariant 0 <= i <= n
        invariant Valid()
        invariant parentPath.items == old(parentPath.items) && pointerStack.items == old(pointerStack.items)
        invariant done == EntriesFound(target, i, parentPath.items, pointer)
        invariant Grows(st, State())
        invariant !Scoped() ==> State() == Effects(st, done, pointerStack.items)
      {
        WalkEntry(target, i, parentPath, pointer, pointerStack, fuel, st, done);
        done := done + EntryAt(target, i, parentPath.items, pointer);
        i := i + 1;
      }
    }

    /** One turn of the entries loop: own key `i` is crawled, and the effects so far grow by its finds. */
    method WalkEntry(target: Json, i: nat, parentPath: PathStack, pointer: string, pointerStack: PathStack, fuel: nat,
                     ghost st: CrawlState, ghost done: seq<Found>)
      requires Valid() && parentPath != pointerStack && i < Width(target)
      requires Grows(st, State()) && (!Scoped() ==> State() == Effects(st, done, pointerStack.items))
      modifies this, runner, parentPath, pointerStack
      ensures Valid()
      ensures parentPath.items == old(parentPath.items) && pointerStack.items == old(pointerStack.items)
      ensures Grows(st, State())
      ensures !Scoped() ==>
        State() == Effects(st, done + EntryAt(target, i, old(parentPath.items), pointer), old(pointerStack.items))
      decreases fuel, target, 2
    {
      ghost var mid := State();
      CrawlEntryAt(target, i, parentPath, pointer, pointerStack, fuel);
      EntriesStep(st, mid, State(), done, EntryAt(target, i, parentPath.items, pointer), pointerStack.items, Scoped());
    }

    /** Own key `i` of an object or array: an object's member under its key, an array's element under its index. */
    method CrawlEntryAt(target: Json, i: nat, parentPath: PathStack, pointer: string, pointerStack: PathStack, fuel: nat)
      requires Valid() && parentPath != pointerStack && i < Width(target)
      modifies this, runner, parentPath, pointerStack
      ensures Valid()
      ensures parentPath.items == old(parentPath.items) && pointerStack.items == old(pointerStack.items)
      ensures Grows(old(State()), State())
      ensures !Scoped() ==>
        State() == Effects(old(State()), EntryAt(target, i, old(parentPath.items), pointer), old(pointerStack.items))
      decreases fuel, target, 1
    {
      match target {
        case JObj(ms) =>
          CrawlEntry(ms[i].key, ms[i].value, parentPath, pointer, pointerStack, fuel);
        case JArr(es) =>
          CrawlEntry(NatToString(i), es[i], parentPath, pointer, pointerStack, fuel);
      }
    }

    /**
     * One own property of a walked value: a reference is resolved at the
     * property's pointer, an object or array is walked. With no scope, its
     * effect is that of the finds `EntryFound` lists.
     */
    method CrawlEntry(key: string, val: Json, parentPath: PathStack, parentPointer: string, pointerStack: PathStack,
                      fuel: nat)
      requires Valid() && parentPath != pointerStack
      modifies this, runner, parentPath, pointerStack
      ensures Valid()
      ensures parentPath.items == old(parentPath.items) && pointerStack.items == old(pointerStack.items)
      ensures Grows(old(State()), State())
      ensures !Scoped() ==>
        State() == Effects(old(State()), EntryFound(key, val, old(parentPath.items), parentPointer), old(pointerStack.items))
      decreases fuel, val, 5
    {
      var currentPointer := AddToJSONPointer(parentPointer, key);
      var ref := ComputeRef(Some(key), Some(val));
      parentPath.Push(key);
      if ref.Some? {
        if ref.value.JStr? {
          var cacheKey := UriToJSONPointer(FragmentOf(ref.value.s));
          ResolveRef(ref.value.s, val, parentPath.items, currentPointer, pointerStack, cacheKey, fuel);
        }
      } else if IsObjectType(val) {
        ComputeGraph(val, parentPath, currentPointer, pointerStack, fuel);
      }
      parentPath.Pop();
    }
  }

  /** Adding one dependency to the list adds its node and its edge to the sets. */
  lemma SetOfSnoc(done: seq<string>, dep: string, target: string)
    ensures DepNodes(done + [dep]) == DepNodes(done) + {dep}
    ensures DepEdges(done + [dep], target) == DepEdges(done, target) + {(dep, target)}
  {
    var d := done + [dep];
    assert d[|done|] == dep;
    forall k | 0 <= k < |done| ensures d[k] == done[k] {}
  }

  /** A stem edge into a local pointer that is already a node keeps the stem graph closed. */
  lemma StemEdgeKeepsLocal(nodes: set<string>, edges: set<(string, string)>, dep: string, target: string)
    requires LocalEdges(nodes, edges) && target in nodes && UriIsJSONPointer(target)
    ensures LocalEdges(nodes + {dep}, edges + {(dep, target)}) && target in nodes + {dep}
  {
  }

  /** A pointer edge into a local pointer, with both ends added as nodes, keeps the pointer graph closed. */
  lemma PointerEdgeKeepsLocal(nodes: set<string>, edges: set<(string, string)>, parent: string, target: string)
    requires LocalEdges(nodes, edges) && UriIsJSONPointer(target)
    ensures LocalEdges(nodes + {parent, target}, edges + {(parent, target)})
  {
  }

  /** Recording an edge at a place that is not at or below its target keeps every edge's place. */
  lemma EdgePlaceAdded(edges: set<(string, string)>, places: map<(string, string), Path>, e: (string, string), place: Path)
    requires EdgePlaces(edges, places)
    requires UriIsJSONPointer(e.1) && !IsPathPrefix(TargetPath(e.1), place)
    ensures EdgePlaces(edges + {e}, places[e := place])
  {
  }
}
