/**
 * The resolution runner: the two path-merge helpers used when relative
 * references are rebased, the extraction of a `$ref` from a value, and the
 * synchronous pipeline of `resolve` (locate the scoped subtree, merge the
 * results of remote lookups, substitute local pointers, extract the result),
 * together with the decision logic of a remote lookup. Everything the
 * pipeline awaits, and the graphs the crawl builds, are inputs here.
 */
module Runner {
  import opened Wrappers
  import opened Strings
  import opened JsonPointer
  import opened Json
  import opened TtlCache

  // ----- path merge helpers -----

  /** The non-empty segments, in order. */
  function NonEmpty(parts: seq<string>): (r: seq<string>)
    ensures |r| <= |parts|
    ensures forall i :: 0 <= i < |r| ==> r[i] != ""
    decreases |parts|
  {
    if |parts| == 0 then []
    else (if parts[0] == "" then [] else [parts[0]]) + NonEmpty(parts[1..])
  }

  /** The child segments left once the loop of `_removeRootPath` has consumed the matching ones. */
  function RemainingParts(rootParts: seq<string>, childParts: seq<string>): (r: seq<string>)
    ensures |r| <= |childParts| && r == childParts[|childParts| - |r|..]
    decreases |rootParts|
  {
    if |rootParts| == 0 then childParts
    else if rootParts[0] == "" then RemainingParts(rootParts[1..], childParts)
    else if |childParts| == 0 then childParts
    else if rootParts[0] == childParts[0] then RemainingParts(rootParts[1..], childParts[1..])
    else childParts
  }

  /**
   * `_removeRootPath` drops exactly the longest common prefix of the child's
   * segments and the root's non-empty segments.
   */
  lemma {:induction false} RemainingIsCommonPrefixTrimmed(rootParts: seq<string>, childParts: seq<string>)
    ensures RemainingParts(rootParts, childParts) == childParts[CommonPrefixLength(childParts, NonEmpty(rootParts))..]
    decreases |rootParts|
  {
    var ne := NonEmpty(rootParts);
    if |rootParts| == 0 {
    } else if rootParts[0] == "" {
      assert ne == NonEmpty(rootParts[1..]);
      RemainingIsCommonPrefixTrimmed(rootParts[1..], childParts);
    } else if |childParts| == 0 {
    } else if rootParts[0] == childParts[0] {
      var rest := NonEmpty(rootParts[1..]);
      assert ne == [rootParts[0]] + rest;
      RemainingIsCommonPrefixTrimmed(rootParts[1..], childParts[1..]);
      var k := CommonPrefixLength(childParts[1..], rest);
      assert ne[1..] == rest;
      CommonPrefixIsLongest(childParts, ne, k + 1);
      assert childParts[1..][k..] == childParts[k + 1..];
    } else {
      assert ne[0] == rootParts[0];
      CommonPrefixIsLongest(childParts, ne, 0);
    }
  }

  /** `_removeRootPath(root, child)`: strip the leading segments `child` shares with `root`. */
  method RemoveRootPath(root: string, child: string) returns (r: string)
    ensures r == Join(RemainingParts(Split(root, '/'), Split(child, '/')), '/')
  {
    var rootPathParts := Split(root, '/');
    var childPathParts := Split(child, '/');
    ghost var original := childPathParts;
    var i := 0;
    while i < |rootPathParts|
      invariant 0 <= i <= |rootPathParts|
      invariant RemainingParts(rootPathParts, original) == RemainingParts(rootPathParts[i..], childPathParts)
    {
      var rootPathPart := rootPathParts[i];
      assert rootPathParts[i..][1..] == rootPathParts[i + 1..];
      if rootPathPart == "" {
        i := i + 1;
        continue;
      }
      if |childPathParts| == 0 {
        break;
      }
      if rootPathPart == childPathParts[0] {
        childPathParts := childPathParts[1..];
      } else {
        break;
      }
      i := i + 1;
    }
    r := Join(childPathParts, '/');
  }

  /** The path `_resolvePaths(root, child)` builds: `root`'s last `/`-segment replaced by `child`. */
  function MergedPath(root: string, child: string): string
  {
    var parts := Split(root, '/');
    Join(parts[|parts| - 1 := child], '/')
  }

  /** `_resolvePaths`: split `root`, overwrite the last slot of the array, join. */
  method ResolvePaths(root: string, child: string) returns (r: string)
    ensures r == MergedPath(root, child)
  {
    var parts := Split(root, '/');
    var filePath := new string[|parts|](i requires 0 <= i < |parts| => parts[i]);
    filePath[filePath.Length - 1] := child;
    assert filePath[..] == parts[|parts| - 1 := child];
    r := Join(filePath[..], '/');
  }

  /**
   * The path merge of section 5.2.3 of RFC 3986, without dot-segment removal:
   * everything up to and including the last `/` of `root` is kept and `child`
   * follows it; a `root` without `/` gives `child` alone.
   */
  lemma ResolvePathsMerge(prefix: string, last: string, child: string)
    requires '/' !in last
    ensures MergedPath(prefix + "/" + last, child) == prefix + "/" + child
    ensures MergedPath(last, child) == child
  {
    SplitAtSeparator(prefix, last, '/');
    SplitWithoutSeparator(last, '/');
    var front := Split(prefix, '/');
    assert (front + [last])[|front| := child] == front + [child];
    JoinSnoc(front, child, '/');
    JoinSplit(prefix, '/');
  }

  // ----- results and errors -----

  datatype ErrorCode = PointerMissing | ResolveAuthority | ResolvePointer | ParseAuthority

  /** One error of a resolution, with where it arose and through which authorities. */
  datatype ResolveError = ResolveError(
    code: ErrorCode,
    message: string,
    path: Path,
    authority: string,
    authorityStack: seq<string>,
    pointerStack: seq<string>)

  /** What `resolve` returns, without the runner itself. `None` is `undefined`. */
  datatype ResolveResult = ResolveResult(result: Option<Json>, errors: seq<ResolveError>)

  /** The outcome of one remote lookup: where its result belongs, and what came back. */
  datatype LookupResult = LookupResult(
    pointerStack: seq<string>,
    targetPath: Path,
    resolved: Option<ResolveResult>,
    error: Option<ResolveError>)

  /**
   * A parsed reference, as the URI library delivers it: its text, its
   * fragment (without `#`), its cache key (the text without the fragment)
   * and its JSON Pointer.
   */
  datatype Ref = Ref(text: string, fragment: string, authorityKey: string, jsonPointer: string)

  /** `String(e)` for the errors that decoding a pointer throws. */
  function PointerErrorText(e: PointerError): string
  {
    match e
    case MissingHash => "ReferenceError: Invalid JSON Pointer syntax; URI fragment idetifiers must begin with a hash."
    case InvalidSyntax => "ReferenceError: Invalid JSON Pointer syntax."
  }

  // ----- computeRef -----

  /**
   * The `$ref` extraction of `computeRef`: under the key `$ref` the value
   * itself, otherwise the `$ref` member of an object; only a truthy one counts.
   */
  function ComputeRef(key: Option<string>, val: Option<Json>): (r: Option<Json>)
    ensures r.Some? ==> Truthy(r)
    ensures key == Some("$ref") ==> (r.Some? <==> Truthy(val)) && (r.Some? ==> r == val)
    ensures key != Some("$ref") ==>
      (r.Some? <==> val.Some? && IsContainer(val.value) && Truthy(Child(val.value, "$ref")))
    ensures key != Some("$ref") && r.Some? ==> r == Child(val.value, "$ref")
  {
    var ref :=
      if key == Some("$ref") then val
      else if Truthy(val) && IsObjectType(val.value) && Truthy(Child(val.value, "$ref")) then Child(val.value, "$ref")
      else None;
    if Truthy(ref) then ref else None
  }

  /** A `{"$ref": s}` object is a reference to `s`, and so is `s` itself under the key `$ref`. */
  lemma RefHolders(s: string, other: seq<Member>)
    requires |s| > 0
    ensures ComputeRef(None, Some(JObj([Member("$ref", JStr(s))] + other))) == Some(JStr(s))
    ensures ComputeRef(Some("$ref"), Some(JStr(s))) == Some(JStr(s))
    ensures ComputeRef(None, Some(JStr(s))) == None
    ensures ComputeRef(Some("$ref"), Some(JStr(""))) == None
  {
    var ms := [Member("$ref", JStr(s))] + other;
    assert ms[0].key == "$ref";
  }

  // ----- resolve: locate -----

  /** The scope of the trimmed pointer: `None` for `undefined`, `''`, `#` and `#/`, which select the whole document. */
  function ScopePointer(jsonPointer: Option<string>): (r: Option<string>)
    ensures r.Some? ==> jsonPointer.Some? && r.value == Trim(jsonPointer.value)
    ensures r.Some? <==> jsonPointer.Some? && Trim(jsonPointer.value) != "" && Trim(jsonPointer.value) != "#" && Trim(jsonPointer.value) != "#/"
  {
    if jsonPointer.None? then None
    else
      var p := Trim(jsonPointer.value);
      if p == "" || p == "#" || p == "#/" then None else Some(p)
  }

  /** Where `resolve` looks: an optional scope path and the value found there. */
  datatype Located = Located(scope: Option<Path>, target: Option<Json>)

  /**
   * The first step of `resolve`: the whole document, or the value at the
   * decoded scope path; a scope that is not a pointer makes `resolve` reject.
   */
  function Locate(source: Json, jsonPointer: Option<string>): (r: Result<Located, PointerError>)
    ensures ScopePointer(jsonPointer).None? ==> r == Success(Located(None, Some(source)))
    ensures ScopePointer(jsonPointer).Some? && JsonPointerToPath(ScopePointer(jsonPointer).value).Failure? ==>
      r == Failure(JsonPointerToPath(ScopePointer(jsonPointer).value).error)
    ensures ScopePointer(jsonPointer).Some? && JsonPointerToPath(ScopePointer(jsonPointer).value).Success? ==>
      r.Success? && r.value.scope == Some(JsonPointerToPath(ScopePointer(jsonPointer).value).value)
      && r.value.target == GetValue(source, JsonPointerToPath(ScopePointer(jsonPointer).value).value)
  {
    var p := ScopePointer(jsonPointer);
    if p.None? then Success(Located(None, Some(source)))
    else
      match JsonPointerToPath(p.value)
      case Failure(e) => Failure(e)
      case Success(path) => Success(Located(Some(path), GetValue(source, path)))
  }

  /** The text of the trimmed pointer in messages: `undefined` when there is none. */
  function PointerText(jsonPointer: Option<string>): string
  {
    if jsonPointer.None? then "undefined" else Trim(jsonPointer.value)
  }

  /** The authority a runner reports in its errors, and the authorities it was reached through. */
  datatype Context = Context(authority: string, authorityStack: seq<string>)

  /** The one error of a scope that does not exist. */
  function MissingScope(ctx: Context, jsonPointer: Option<string>, scope: Option<Path>): ResolveError
  {
    ResolveError(PointerMissing, "'" + PointerText(jsonPointer) + "' does not exist @ '" + ctx.authority + "'",
                 scope.GetOr([]), ctx.authority, ctx.authorityStack, [])
  }

  // ----- resolve: merge the remote results -----

  /** The document and the errors so far. */
  datatype Draft = Draft(source: Json, errors: seq<ResolveError>)

  /**
   * One remote result merged: its error and its errors recorded, and a truthy
   * result written at its target path, or else at the scope path, replacing
   * the document when that path is empty.
   */
  function MergeLookup(d: Draft, scope: Path, l: LookupResult): Draft
  {
    var errs := d.errors + (if l.error.Some? then [l.error.value] else []);
    if l.resolved.None? then Draft(d.source, errs)
    else
      var errs2 := errs + l.resolved.value.errors;
      var result := l.resolved.value.result;
      if !Truthy(result) then Draft(d.source, errs2)
      else
        var path := if |l.targetPath| > 0 then l.targetPath else scope;
        Draft(if |path| == 0 then result.value else SetValue(d.source, path, result.value), errs2)
  }

  /** The remote results merged in order. */
  function MergeAll(d: Draft, scope: Path, ls: seq<LookupResult>): Draft
    decreases |ls|
  {
    if |ls| == 0 then d else MergeAll(MergeLookup(d, scope, ls[0]), scope, ls[1..])
  }

  /** The errors one lookup contributes: its own error, then its resolution's errors. */
  function LookupErrors(l: LookupResult): seq<ResolveError>
  {
    (if l.error.Some? then [l.error.value] else [])
    + (if l.resolved.Some? then l.resolved.value.errors else [])
  }

  function AllLookupErrors(ls: seq<LookupResult>): seq<ResolveError>
    decreases |ls|
  {
    if |ls| == 0 then [] else LookupErrors(ls[0]) + AllLookupErrors(ls[1..])
  }

  /** Merging appends every lookup's errors, in order, whatever their results. */
  lemma {:induction false} MergeErrors(d: Draft, scope: Path, ls: seq<LookupResult>)
    ensures MergeAll(d, scope, ls).errors == d.errors + AllLookupErrors(ls)
    decreases |ls|
  {
    if |ls| > 0 {
      var d1 := MergeLookup(d, scope, ls[0]);
      assert d1.errors == d.errors + LookupErrors(ls[0]);
      MergeErrors(d1, scope, ls[1..]);
      assert d.errors + LookupErrors(ls[0]) + AllLookupErrors(ls[1..]) == d.errors + (LookupErrors(ls[0]) + AllLookupErrors(ls[1..]));
    }
  }

  /** A lookup that brought back no truthy result. */
  predicate NoResult(l: LookupResult)
  {
    l.resolved.None? || !Truthy(l.resolved.value.result)
  }

  /** Lookups without a result leave the document untouched. */
  lemma {:induction false} MergeWithoutResults(d: Draft, scope: Path, ls: seq<LookupResult>)
    requires forall i :: 0 <= i < |ls| ==> NoResult(ls[i])
    ensures MergeAll(d, scope, ls).source == d.source
    decreases |ls|
  {
    if |ls| > 0 {
      MergeWithoutResults(MergeLookup(d, scope, ls[0]), scope, ls[1..]);
    }
  }

  /**
   * Where one result lands: at the lookup's own target path when it has one,
   * else at the scope path; an empty path replaces the document.
   */
  lemma MergePlacement(d: Draft, scope: Path, l: LookupResult)
    requires !NoResult(l)
    ensures var path := if |l.targetPath| > 0 then l.targetPath else scope;
      && (|path| == 0 ==> MergeLookup(d, scope, l).source == l.resolved.value.result.value)
      && (|path| > 0 && IsContainer(d.source) && Settable(d.source, path) ==>
            GetValue(MergeLookup(d, scope, l).source, path) == l.resolved.value.result)
  {
    var path := if |l.targetPath| > 0 then l.targetPath else scope;
    if |path| > 0 && IsContainer(d.source) && Settable(d.source, path) {
      GetAfterSet(d.source, path, l.resolved.value.result.value);
    }
  }

  // ----- resolve: substitute local pointers -----

  /** The substitution pass so far; `thrown` once a step threw, which ends the pass. */
  datatype Pass = Pass(draft: Json, errors: seq<ResolveError>, thrown: bool)

  /**
   * The circular-stem veto: the dependant's path starts with the path of one
   * of the stems, tried in order. `None` when a stem met before the first
   * match is not a pointer, which throws.
   */
  function Vetoed(dependantPath: Path, stems: seq<string>): Option<bool>
    decreases |stems|
  {
    if |stems| == 0 then Some(false)
    else match JsonPointerToPath(stems[0])
      case Failure(_) => None
      case Success(stemPath) =>
        if IsPrefixOf(Elems(dependantPath), Elems(stemPath)) then Some(true) else Vetoed(dependantPath, stems[1..])
  }

  /** When every stem is a pointer, the veto is: some stem's path is a prefix of the dependant's. */
  lemma {:induction false} VetoedIff(dependantPath: Path, stems: seq<string>)
    requires forall j :: 0 <= j < |stems| ==> JsonPointerToPath(stems[j]).Success?
    ensures Vetoed(dependantPath, stems) ==
      Some(exists j :: 0 <= j < |stems| && IsPrefixOf(Elems(dependantPath), Elems(JsonPointerToPath(stems[j]).value)))
    decreases |stems|
  {
    if |stems| > 0 {
      VetoedIff(dependantPath, stems[1..]);
      if exists j :: 1 <= j < |stems| && IsPrefixOf(Elems(dependantPath), Elems(JsonPointerToPath(stems[j]).value)) {
        var j :| 1 <= j < |stems| && IsPrefixOf(Elems(dependantPath), Elems(JsonPointerToPath(stems[j]).value));
        assert stems[1..][j - 1] == stems[j];
      }
      if exists j :: 0 <= j < |stems[1..]| && IsPrefixOf(Elems(dependantPath), Elems(JsonPointerToPath(stems[1..][j]).value)) {
        var j :| 0 <= j < |stems[1..]| && IsPrefixOf(Elems(dependantPath), Elems(JsonPointerToPath(stems[1..][j]).value));
        assert stems[1..][j] == stems[j + 1];
      }
    }
  }

  /** `'<pointer>' does not exist`, recorded at a dependant's path. */
  function MissingPointer(ctx: Context, pointer: string, path: Path): ResolveError
  {
    ResolveError(PointerMissing, "'" + pointer + "' does not exist", path, ctx.authority, ctx.authorityStack, [])
  }

  /**
   * One dependant of `pointer`, whose value is `val`: skipped when vetoed,
   * otherwise set to `val` when that is truthy, or recorded as missing.
   * `stems` is `None` when `pointer` is not in the stem graph.
   */
  function SubstituteDependant(ctx: Context, p: Pass, pointer: string, val: Option<Json>,
                               stems: Option<seq<string>>, dependant: string): Pass
  {
    match JsonPointerToPath(dependant)
    case Failure(_) => p.(thrown := true)
    case Success(dependantPath) =>
      if stems.None? then p.(thrown := true)
      else match Vetoed(dependantPath, stems.value)
        case None => p.(thrown := true)
        case Some(circular) =>
          if circular then p
          else if Truthy(val) then p.(draft := SetValue(p.draft, dependantPath, val.value))
          else p.(errors := p.errors + [MissingPointer(ctx, pointer, dependantPath)])
  }

  function SubstituteDependants(ctx: Context, p: Pass, pointer: string, val: Option<Json>,
                                stems: Option<seq<string>>, deps: seq<string>): Pass
    decreases |deps|
  {
    if |deps| == 0 || p.thrown then p
    else SubstituteDependants(ctx, SubstituteDependant(ctx, p, pointer, val, stems, deps[0]), pointer, val, stems, deps[1..])
  }

  /**
   * The dependants of one pointer of the processing order, all given the
   * value found at the pointer before the first of them is written.
   */
  function SubstitutePointerSpec(ctx: Context, p: Pass, pointer: string,
                                 dependants: map<string, seq<string>>, stems: map<string, seq<string>>): Pass
  {
    if pointer !in dependants then p.(thrown := true)
    else if |dependants[pointer]| == 0 then p
    else match JsonPointerToPath(pointer)
      case Failure(_) => p.(thrown := true)
      case Success(pointerPath) =>
        SubstituteDependants(ctx, p, pointer, GetValue(p.draft, pointerPath),
                             if pointer in stems then Some(stems[pointer]) else None, dependants[pointer])
  }

  function SubstituteAll(ctx: Context, p: Pass, order: seq<string>,
                         dependants: map<string, seq<string>>, stems: map<string, seq<string>>): Pass
    decreases |order|
  {
    if |order| == 0 || p.thrown then p
    else SubstituteAll(ctx, SubstitutePointerSpec(ctx, p, order[0], dependants, stems), order[1..], dependants, stems)
  }

  /** A vetoed dependant is left as it is. */
  lemma VetoedDependantSkipped(ctx: Context, p: Pass, pointer: string, val: Option<Json>, stems: seq<string>, dependant: string)
    requires JsonPointerToPath(dependant).Success?
    requires Vetoed(JsonPointerToPath(dependant).value, stems) == Some(true)
    ensures SubstituteDependant(ctx, p, pointer, val, Some(stems), dependant) == p
  {
  }

  /** A dependant that is not vetoed reads the pointer's value afterwards, when that value is truthy. */
  lemma DependantSubstituted(ctx: Context, p: Pass, pointer: string, val: Option<Json>, stems: seq<string>, dependant: string)
    requires JsonPointerToPath(dependant).Success?
    requires Vetoed(JsonPointerToPath(dependant).value, stems) == Some(false)
    requires Truthy(val)
    requires IsContainer(p.draft) && |JsonPointerToPath(dependant).value| > 0 && Settable(p.draft, JsonPointerToPath(dependant).value)
    ensures var q := SubstituteDependant(ctx, p, pointer, val, Some(stems), dependant);
      GetValue(q.draft, JsonPointerToPath(dependant).value) == val && q.errors == p.errors && q.thrown == p.thrown
  {
    GetAfterSet(p.draft, JsonPointerToPath(dependant).value, val.value);
  }

  /**
   * A falsy pointer value is never written: the dependant gets one
   * `POINTER_MISSING` error at its path instead.
   */
  lemma FalsyValueReported(ctx: Context, p: Pass, pointer: string, val: Option<Json>, stems: seq<string>, dependant: string)
    requires JsonPointerToPath(dependant).Success?
    requires Vetoed(JsonPointerToPath(dependant).value, stems) == Some(false)
    requires !Truthy(val)
    ensures var q := SubstituteDependant(ctx, p, pointer, val, Some(stems), dependant);
      && q.draft == p.draft
      && q.errors == p.errors + [ResolveError(PointerMissing, "'" + pointer + "' does not exist",
                                              JsonPointerToPath(dependant).value, ctx.authority, ctx.authorityStack, [])]
  {
  }

  /** The substitution pass only ever appends errors. */
  lemma {:induction false} SubstitutionKeepsErrors(ctx: Context, p: Pass, order: seq<string>,
                                                   dependants: map<string, seq<string>>, stems: map<string, seq<string>>)
    ensures var q := SubstituteAll(ctx, p, order, dependants, stems);
      |p.errors| <= |q.errors| && q.errors[..|p.errors|] == p.errors
    decreases |order|
  {
    if |order| > 0 && !p.thrown {
      var q := SubstitutePointerSpec(ctx, p, order[0], dependants, stems);
      PointerKeepsErrors(ctx, p, order[0], dependants, stems);
      SubstitutionKeepsErrors(ctx, q, order[1..], dependants, stems);
      var r := SubstituteAll(ctx, q, order[1..], dependants, stems);
      assert r.errors[..|q.errors|][..|p.errors|] == r.errors[..|p.errors|];
    }
  }

  lemma PointerKeepsErrors(ctx: Context, p: Pass, pointer: string,
                           dependants: map<string, seq<string>>, stems: map<string, seq<string>>)
    ensures var q := SubstitutePointerSpec(ctx, p, pointer, dependants, stems);
      |p.errors| <= |q.errors| && q.errors[..|p.errors|] == p.errors
  {
    if pointer in dependants && |dependants[pointer]| > 0 && JsonPointerToPath(pointer).Success? {
      DependantsKeepErrors(ctx, p, pointer, GetValue(p.draft, JsonPointerToPath(pointer).value),
                           if pointer in stems then Some(stems[pointer]) else None, dependants[pointer]);
    }
  }

  lemma {:induction false} DependantsKeepErrors(ctx: Context, p: Pass, pointer: string, val: Option<Json>,
                                                stems: Option<seq<string>>, deps: seq<string>)
    ensures var q := SubstituteDependants(ctx, p, pointer, val, stems, deps);
      |p.errors| <= |q.errors| && q.errors[..|p.errors|] == p.errors
    decreases |deps|
  {
    if |deps| > 0 && !p.thrown {
      var q := SubstituteDependant(ctx, p, pointer, val, stems, deps[0]);
      assert |p.errors| <= |q.errors| && q.errors[..|p.errors|] == p.errors;
      DependantsKeepErrors(ctx, q, pointer, val, stems, deps[1..]);
      var r := SubstituteDependants(ctx, q, pointer, val, stems, deps[1..]);
      assert r.errors[..|q.errors|][..|p.errors|] == r.errors[..|p.errors|];
    }
  }

  /** `startsWith` over the stems of a pointer, stopping at the first match. */
  method VetoCheck(dependantPath: Path, stems: seq<string>) returns (r: Option<bool>)
    ensures r == Vetoed(dependantPath, stems)
  {
    var j := 0;
    while j < |stems|
      invariant 0 <= j <= |stems|
      invariant Vetoed(dependantPath, stems) == Vetoed(dependantPath, stems[j..])
    {
      assert stems[j..][1..] == stems[j + 1..];
      var stemPath := JsonPointerToPath(stems[j]);
      if stemPath.Failure? {
        return None;
      }
      var circular := StartsWith(Elems(dependantPath), Elems(stemPath.value));
      if circular {
        return Some(true);
      }
      j := j + 1;
    }
    return Some(false);
  }

  /** The loop over the dependants of one pointer of the processing order. */
  method SubstitutePointer(ctx: Context, p: Pass, pointer: string,
                           dependants: map<string, seq<string>>, stems: map<string, seq<string>>) returns (q: Pass)
    requires !p.thrown
    ensures q == SubstitutePointerSpec(ctx, p, pointer, dependants, stems)
  {
    if pointer !in dependants {
      return p.(thrown := true);
    }
    var deps := dependants[pointer];
    if |deps| == 0 {
      return p;
    }
    var pointerPath := JsonPointerToPath(pointer);
    if pointerPath.Failure? {
      return p.(thrown := true);
    }
    var val := GetValue(p.draft, pointerPath.value);
    ghost var stemsOf := if pointer in stems then Some(stems[pointer]) else None;
    q := p;
    var j := 0;
    while j < |deps| && !q.thrown
      invariant 0 <= j <= |deps|
      invariant SubstituteDependants(ctx, p, pointer, val, stemsOf, deps)
             == SubstituteDependants(ctx, q, pointer, val, stemsOf, deps[j..])
    {
      assert deps[j..][1..] == deps[j + 1..];
      var dependantPath := JsonPointerToPath(deps[j]);
      if dependantPath.Failure? || pointer !in stems {
        q := q.(thrown := true);
      } else {
        var circular := VetoCheck(dependantPath.value, stems[pointer]);
        if circular.None? {
          q := q.(thrown := true);
        } else if !circular.value {
          if Truthy(val) {
            q := q.(draft := SetValue(q.draft, dependantPath.value, val.value));
          } else {
            q := q.(errors := q.errors + [MissingPointer(ctx, pointer, dependantPath.value)]);
          }
        }
      }
      j := j + 1;
    }
  }

  // ----- resolve: the whole pipeline -----

  /** What `resolve` returns and the document the runner holds afterwards. */
  datatype Resolution = Resolution(result: ResolveResult, source: Json)

  /** The local pass: nothing without a processing order (a cycle), otherwise every pointer in order. */
  function Substitution(ctx: Context, d: Draft, order: Option<seq<string>>,
                        dependants: map<string, seq<string>>, stems: map<string, seq<string>>): Pass
  {
    if order.None? then Pass(d.source, d.errors, false)
    else SubstituteAll(ctx, Pass(d.source, d.errors, false), order.value, dependants, stems)
  }

  /**
   * `resolve(jsonPointer)`: locate the scope, merge the remote results into
   * the document, substitute local pointers in an object document, and
   * return what is then at the scope. `Failure` is a rejected promise.
   */
  function ResolveSpec(ctx: Context, resolvePointers: bool, source: Json, jsonPointer: Option<string>,
                       lookups: seq<LookupResult>, order: Option<seq<string>>,
                       dependants: map<string, seq<string>>, stems: map<string, seq<string>>): Result<Resolution, PointerError>
  {
    match Locate(source, jsonPointer)
    case Failure(e) => Failure(e)
    case Success(loc) =>
      if !Truthy(loc.target) then
        Success(Resolution(ResolveResult(loc.target, [MissingScope(ctx, jsonPointer, loc.scope)]), source))
      else
        var merged := MergeAll(Draft(source, []), loc.scope.GetOr([]), lookups);
        if !IsObjectType(merged.source) then
          Success(Resolution(ResolveResult(Some(merged.source), merged.errors), merged.source))
        else
          var pass := if resolvePointers then Substitution(ctx, merged, order, dependants, stems)
                      else Pass(merged.source, merged.errors, false);
          var result := if loc.scope.Some? then GetValue(pass.draft, loc.scope.value) else Some(pass.draft);
          Success(Resolution(ResolveResult(result, pass.errors), pass.draft))
  }

  /** A trimmed pointer of `''`, `#` or `#/`, or none at all, resolves the whole document. */
  lemma WholeDocumentScope(source: Json, jsonPointer: Option<string>)
    requires jsonPointer.None? || Trim(jsonPointer.value) in {"", "#", "#/"}
    ensures Locate(source, jsonPointer) == Success(Located(None, Some(source)))
  {
  }

  /** A scope that is not a JSON Pointer in fragment form makes `resolve` reject. */
  lemma MalformedScopeRejects(ctx: Context, resolvePointers: bool, source: Json, jsonPointer: string,
                              lookups: seq<LookupResult>, order: Option<seq<string>>,
                              dependants: map<string, seq<string>>, stems: map<string, seq<string>>)
    requires Trim(jsonPointer) !in {"", "#", "#/"}
    requires Trim(jsonPointer)[0] != '#'
    ensures ResolveSpec(ctx, resolvePointers, source, Some(jsonPointer), lookups, order, dependants, stems)
         == Failure(MissingHash)
  {
  }

  /**
   * A scope with nothing truthy at it gives exactly one `POINTER_MISSING`
   * error, at the scope path, and leaves the document as it was.
   */
  lemma MissingScopeReported(ctx: Context, resolvePointers: bool, source: Json, jsonPointer: Option<string>,
                             lookups: seq<LookupResult>, order: Option<seq<string>>,
                             dependants: map<string, seq<string>>, stems: map<string, seq<string>>)
    requires Locate(source, jsonPointer).Success? && !Truthy(Locate(source, jsonPointer).value.target)
    ensures var r := ResolveSpec(ctx, resolvePointers, source, jsonPointer, lookups, order, dependants, stems);
      && r.Success? && r.value.source == source
      && |r.value.result.errors| == 1
      && r.value.result.errors[0].code == PointerMissing
      && r.value.result.errors[0].path == Locate(source, jsonPointer).value.scope.GetOr([])
  {
  }

  /** The errors of the remote lookups come first, in order, ahead of those of the local pass. */
  lemma LookupErrorsFirst(ctx: Context, resolvePointers: bool, source: Json, jsonPointer: Option<string>,
                          lookups: seq<LookupResult>, order: Option<seq<string>>,
                          dependants: map<string, seq<string>>, stems: map<string, seq<string>>)
    requires Locate(source, jsonPointer).Success? && Truthy(Locate(source, jsonPointer).value.target)
    ensures var r := ResolveSpec(ctx, resolvePointers, source, jsonPointer, lookups, order, dependants, stems);
      && r.Success?
      && |AllLookupErrors(lookups)| <= |r.value.result.errors|
      && r.value.result.errors[..|AllLookupErrors(lookups)|] == AllLookupErrors(lookups)
  {
    var loc := Locate(source, jsonPointer).value;
    var merged := MergeAll(Draft(source, []), loc.scope.GetOr([]), lookups);
    MergeErrors(Draft(source, []), loc.scope.GetOr([]), lookups);
    assert merged.errors == AllLookupErrors(lookups);
    if IsObjectType(merged.source) && resolvePointers && order.Some? {
      SubstitutionKeepsErrors(ctx, Pass(merged.source, merged.errors, false), order.value, dependants, stems);
    }
  }

  /**
   * No local substitution happens when `resolvePointers` is off or when the
   * processing order could not be computed: the document is the merged one.
   */
  lemma NoLocalPass(ctx: Context, resolvePointers: bool, source: Json, jsonPointer: Option<string>,
                    lookups: seq<LookupResult>, order: Option<seq<string>>,
                    dependants: map<string, seq<string>>, stems: map<string, seq<string>>)
    requires Locate(source, jsonPointer).Success? && Truthy(Locate(source, jsonPointer).value.target)
    requires !resolvePointers || order.None?
    ensures var r := ResolveSpec(ctx, resolvePointers, source, jsonPointer, lookups, order, dependants, stems);
      var merged := MergeAll(Draft(source, []), Locate(source, jsonPointer).value.scope.GetOr([]), lookups);
      r.Success? && r.value.source == merged.source && r.value.result.errors == merged.errors
  {
  }

  /** What `Resolve` returns, given the outcome of the pipeline. */
  function Outcome(r: Result<Resolution, PointerError>): Result<ResolveResult, PointerError>
  {
    match r
    case Failure(e) => Failure(e)
    case Success(res) => Success(res.result)
  }

  /** The largest number of authorities a lookup may be reached through. */
  const MaxAuthorityDepth: nat := 100

  /** One runner: a document, where it came from, and the authorities that led to it. */
  class ResolveRunner {
    const depth: nat
    /** The runner's authority, as `toString(true)` renders it. */
    const authority: string
    const resolvePointers: bool
    var authorityStack: seq<string>
    var source: Json

    /**
     * A runner at depth 0 puts itself in the authority cache under its own
     * authority's key, so that the authority is not looked up again.
     */
    constructor (source: Json, depth: nat, authority: string, authorityStack: seq<string>, resolvePointers: bool,
                 cache: Cache<ResolveRunner>, authorityKey: string, now: int)
      requires cache.Valid()
      modifies cache`data, cache`written
      ensures this.source == source && this.depth == depth && this.authority == authority
      ensures this.authorityStack == authorityStack && this.resolvePointers == resolvePointers
      ensures cache.Valid()
      ensures depth == 0 ==> cache.data == old(cache.data)[authorityKey := Entry(now, this)]
      ensures depth != 0 ==> cache.data == old(cache.data)
    {
      this.depth := depth;
      this.source := source;
      this.authority := authority;
      this.authorityStack := authorityStack;
      this.resolvePointers := resolvePointers;
      new;
      if depth == 0 {
        cache.Set(authorityKey, this, now);
      }
    }

    /** `atMaxAuthorityDepth`: the lookup chain has reached its cap. */
    function AtMaxAuthorityDepth(): (r: bool)
      reads this
      ensures r <==> |authorityStack| >= MaxAuthorityDepth
    {
      |authorityStack| >= MaxAuthorityDepth
    }

    /** The merge loop of `resolve`: each remote result folded into the document in turn. */
    method MergeLookups(scopePath: Path, lookups: seq<LookupResult>) returns (errors: seq<ResolveError>)
      modifies this`source
      ensures Draft(source, errors) == MergeAll(Draft(old(source), []), scopePath, lookups)
    {
      ghost var merged := MergeAll(Draft(source, []), scopePath, lookups);
      errors := [];
      var i := 0;
      while i < |lookups|
        invariant 0 <= i <= |lookups|
        invariant merged == MergeAll(Draft(source, errors), scopePath, lookups[i..])
      {
        assert lookups[i..][1..] == lookups[i + 1..];
        var l := lookups[i];
        ghost var before := Draft(source, errors);
        if l.error.Some? {
          errors := errors + [l.error.value];
        }
        if l.resolved.Some? {
          errors := errors + l.resolved.value.errors;
          var result := l.resolved.value.result;
          if Truthy(result) {
            var path := if |l.targetPath| > 0 then l.targetPath else scopePath;
            if |path| == 0 {
              source := result.value;
            } else {
              source := SetValue(source, path, result.value);
            }
          }
        }
        assert Draft(source, errors) == MergeLookup(before, scopePath, l);
        i := i + 1;
      }
    }

    /**
     * The local pass of `resolve` over the processing order; a step that
     * throws ends it, keeping what was written and reported before.
     */
    method SubstituteLocal(ctx: Context, errors: seq<ResolveError>, order: seq<string>,
                           dependants: map<string, seq<string>>, stems: map<string, seq<string>>)
      returns (errs: seq<ResolveError>)
      modifies this`source
      ensures var pass := SubstituteAll(ctx, Pass(old(source), errors, false), order, dependants, stems);
        source == pass.draft && errs == pass.errors
    {
      ghost var spec := SubstituteAll(ctx, Pass(source, errors, false), order, dependants, stems);
      var pass := Pass(source, errors, false);
      var k := 0;
      while k < |order| && !pass.thrown
        invariant 0 <= k <= |order|
        invariant spec == SubstituteAll(ctx, pass, order[k..], dependants, stems)
      {
        assert order[k..][1..] == order[k + 1..];
        pass := SubstitutePointer(ctx, pass, order[k], dependants, stems);
        k := k + 1;
      }
      source := pass.draft;
      errs := pass.errors;
    }

    /**
     * `resolve`, given what its crawl and its awaited lookups produced: the
     * lookup results in order, the processing order of the pointer graph
     * (`None` when it has a cycle), the transitive dependants of each
     * pointer and the stems each pointer depends on.
     */
    method Resolve(jsonPointer: Option<string>, lookups: seq<LookupResult>, order: Option<seq<string>>,
                   dependants: map<string, seq<string>>, stems: map<string, seq<string>>)
      returns (r: Result<ResolveResult, PointerError>)
      modifies this`source
      ensures var spec := ResolveSpec(Context(authority, authorityStack), resolvePointers, old(source), jsonPointer,
                                      lookups, order, dependants, stems);
        && r == Outcome(spec)
        && source == (if spec.Success? then spec.value.source else old(source))
    {
      var ctx := Context(authority, authorityStack);
      var located := Locate(source, jsonPointer);
      if located.Failure? {
        return Failure(located.error);
      }
      var scope := located.value.scope;
      var target := located.value.target;
      if !Truthy(target) {
        var missing := ResolveError(PointerMissing, "'" + PointerText(jsonPointer) + "' does not exist @ '" + authority + "'",
                                    if scope.Some? then scope.value else [], authority, authorityStack, []);
        return Success(ResolveResult(target, [missing]));
      }
      var scopePath := if scope.Some? then scope.value else [];
      var errors := MergeLookups(scopePath, lookups);
      if !IsObjectType(source) {
        return Success(ResolveResult(Some(source), errors));
      }
      if resolvePointers && order.Some? {
        errors := SubstituteLocal(ctx, errors, order.value, dependants, stems);
      }
      var result := if scope.Some? then GetValue(source, scope.value) else Some(source);
      return Success(ResolveResult(result, errors));
    }

    /** A child runner past the root inherits this runner's authority on its stack. */
    method PassAuthorityOn(child: ResolveRunner)
      modifies child`authorityStack
      ensures child.authorityStack == old(child.authorityStack) + (if |authority| > 0 && depth != 0 then [authority] else [])
    {
      if |authority| > 0 && depth != 0 {
        child.authorityStack := child.authorityStack + [authority];
      }
    }

    /**
     * The decision logic of `lookupAndResolveAuthority` for a remote `ref`
     * found at `parentPath`, holding `val`. What the awaited steps produced is
     * given: the looked-up child runner or the lookup's error text, the
     * outcome of `resolve` on the child, and that of the parse hook.
     */
    method LookupAndResolveAuthority(ref: Ref, val: Json, resolvingPointer: Option<string>, parentPointer: string,
                                     parentPath: Path, pointerStack: seq<string>, lookup: Result<ResolveRunner, string>,
                                     childResolved: Result<ResolveResult, PointerError>, parse: ParseHook)
      returns (r: LookupResult)
      modifies (if lookup.Success? then {lookup.value} else {})`authorityStack,
               (if lookup.Success? then {lookup.value} else {})`source
      ensures r == LookupSpec(Context(authority, old(authorityStack)), authorityStack, ref, val, resolvingPointer,
                              parentPointer, parentPath, pointerStack, LookupFailure(lookup), childResolved, parse)
      ensures lookup.Success? ==>
        lookup.value.authorityStack == old(lookup.value.authorityStack) + Inherited(old(authorityStack), ref, authority, depth)
    {
      var targetPath := if resolvingPointer == Some(parentPointer) then [] else parentPath;
      r := LookupResult(pointerStack, targetPath, None, None);
      var atMaxDepth := AtMaxAuthorityDepth();
      var early := EarlyOutcome(Context(authority, authorityStack), atMaxDepth, ref, val, r, parentPath, pointerStack,
                                LookupFailure(lookup));
      if early.Some? {
        return early.value;
      }
      PassAuthorityOn(lookup.value);
      var stackAfter := authorityStack;
      r := ResolveChild(r, ref, val, parentPath, pointerStack, stackAfter, childResolved, parse);
    }
  }

  // ----- lookupAndResolveAuthority -----

  /**
   * What a looked-up child runner gets pushed on its authority stack: the
   * parent's authority, when the lookup got past the cycle and depth checks
   * and the parent is not the root runner.
   */
  function Inherited(stack: seq<string>, ref: Ref, authority: string, depth: nat): seq<string>
  {
    if ref.authorityKey !in stack && |stack| < MaxAuthorityDepth && |authority| > 0 && depth != 0 then [authority] else []
  }

  /** What the parse hook did: there is none, it returned a result, or it threw. */
  datatype ParseHook = NoParser | Parsed(result: Option<Json>) | ParseFailed(message: string)

  /** The error text of a failed lookup, `None` when the lookup gave a runner. */
  function LookupFailure(lookup: Result<ResolveRunner, string>): Option<string>
  {
    if lookup.Failure? then Some(lookup.error) else None
  }

  /** `String(e)` for the error thrown at the depth cap. */
  function DepthMessage(depth: nat): string
  {
    "Error: Max authority depth (" + NatToString(depth) + ") reached. Halting, this is probably a circular loop."
  }

  /** `s.slice(1)`. */
  function Drop1(s: string): string
  {
    if |s| == 0 then s else s[1..]
  }

  /**
   * The reconciliation of one error of the child's resolution: a
   * `POINTER_MISSING` for exactly the requested fragment puts the original
   * value back, at the error's path below the fragment, or in place of the
   * whole result when that path is empty.
   */
  function ReconcileStep(result: Option<Json>, error: ResolveError, fragment: string, val: Json): Option<Json>
  {
    if error.code == PointerMissing && Join(error.path, '/') == Drop1(fragment) then
      var fragmentParts := Split(TrimLeadingChars(fragment, "/"), '/');
      var inResult := if |fragment| > 0 then error.path[CommonPrefixLength(error.path, fragmentParts)..] else error.path;
      if |inResult| > 0 then (if result.Some? then Some(SetValue(result.value, inResult, val)) else result)
      else if Truthy(result) then Some(val)
      else result
    else result
  }

  function Reconcile(result: Option<Json>, errors: seq<ResolveError>, fragment: string, val: Json): Option<Json>
    decreases |errors|
  {
    if |errors| == 0 then result else Reconcile(ReconcileStep(result, errors[0], fragment, val), errors[1..], fragment, val)
  }

  /** The reconciliation loop over the child's errors. */
  method ReconcileErrors(childResult: Option<Json>, errors: seq<ResolveError>, fragment: string, val: Json)
    returns (result: Option<Json>)
    ensures result == Reconcile(childResult, errors, fragment, val)
  {
    result := childResult;
    var i := 0;
    while i < |errors|
      invariant 0 <= i <= |errors|
      invariant Reconcile(childResult, errors, fragment, val) == Reconcile(result, errors[i..], fragment, val)
    {
      assert errors[i..][1..] == errors[i + 1..];
      var error := errors[i];
      if error.code == PointerMissing && Join(error.path, '/') == Drop1(fragment) {
        var errorPathInResult := error.path;
        if |fragment| > 0 {
          errorPathInResult := TrimStart(error.path, Split(TrimLeadingChars(fragment, "/"), '/'));
        }
        if |errorPathInResult| > 0 {
          if result.Some? {
            result := Some(SetValue(result.value, errorPathInResult, val));
          }
        } else if Truthy(result) {
          result := Some(val);
        }
      }
      i := i + 1;
    }
  }

  /**
   * `lookupAndResolveAuthority`: a cycle on the authority stack gives back
   * `val`; the depth cap and a failed lookup give `RESOLVE_AUTHORITY`; a
   * child that rejects gives `RESOLVE_POINTER`; otherwise the child's
   * result, reconciled with its errors for the fragment and then parsed, a
   * failed parse rolling back to `val` with `PARSE_AUTHORITY`. `stackAfter`
   * is the runner's stack once the child's was extended (they may be one).
   */
  function LookupSpec(ctx: Context, stackAfter: seq<string>, ref: Ref, val: Json, resolvingPointer: Option<string>,
                      parentPointer: string, parentPath: Path, pointerStack: seq<string>,
                      lookupFailure: Option<string>, childResolved: Result<ResolveResult, PointerError>,
                      parse: ParseHook): LookupResult
  {
    var targetPath := if resolvingPointer == Some(parentPointer) then [] else parentPath;
    var base := LookupResult(pointerStack, targetPath, None, None);
    match EarlyOutcome(ctx, |ctx.authorityStack| >= MaxAuthorityDepth, ref, val, base, parentPath, pointerStack,
                       lookupFailure)
    case Some(early) => early
    case None => ChildOutcome(base, ref, val, parentPath, pointerStack, stackAfter, childResolved, parse)
  }

  /**
   * The outcomes decided before the child runner is used: the cycle, the
   * depth cap (`atMaxDepth`, the runner's `atMaxAuthorityDepth()`) and a
   * failed lookup; `None` when the lookup got a runner.
   */
  function EarlyOutcome(ctx: Context, atMaxDepth: bool, ref: Ref, val: Json, base: LookupResult, parentPath: Path,
                        pointerStack: seq<string>, lookupFailure: Option<string>): (r: Option<LookupResult>)
    ensures r.Some? ==> r.value.targetPath == base.targetPath && r.value.pointerStack == base.pointerStack
    ensures r.None? <==> ref.authorityKey !in ctx.authorityStack && !atMaxDepth && lookupFailure.None?
  {
    if ref.authorityKey in ctx.authorityStack then
      Some(base.(resolved := Some(ResolveResult(Some(val), []))))
    else if atMaxDepth then
      Some(base.(error := Some(ResolveError(ResolveAuthority, DepthMessage(|ctx.authorityStack|), parentPath, ref.text,
                                            ctx.authorityStack, pointerStack))))
    else if lookupFailure.Some? then
      Some(base.(error := Some(ResolveError(ResolveAuthority, lookupFailure.value, parentPath, ref.text,
                                            ctx.authorityStack, pointerStack))))
    else None
  }

  /**
   * The part of the lookup after the child runner exists: its rejection, or
   * its result reconciled with its errors and passed through the parse hook.
   */
  function ChildOutcome(base: LookupResult, ref: Ref, val: Json, parentPath: Path, pointerStack: seq<string>,
                        stack: seq<string>, childResolved: Result<ResolveResult, PointerError>, parse: ParseHook): (r: LookupResult)
    ensures r.targetPath == base.targetPath && r.pointerStack == base.pointerStack
  {
    match childResolved
    case Failure(e) =>
      base.(error := Some(ResolveError(ResolvePointer, "Error resolving pointer @ " + ref.jsonPointer + ": " + PointerErrorText(e),
                                       parentPath, ref.text, stack, pointerStack)))
    case Success(res) =>
      var reconciled := Reconcile(res.result, res.errors, ref.fragment, val);
      match parse
      case NoParser => base.(resolved := Some(ResolveResult(reconciled, res.errors)))
      case Parsed(x) => base.(resolved := Some(ResolveResult(x, res.errors)))
      case ParseFailed(m) =>
        base.(resolved := Some(ResolveResult(Some(val), res.errors)),
              error := Some(ResolveError(ParseAuthority, "Error parsing lookup result for '" + ref.text + "': " + m,
                                         parentPath, ref.text, stack, pointerStack)))
  }

  /** Resolving through the child runner: the pointer outcome, the reconciliation loop, the parse hook. */
  method ResolveChild(base: LookupResult, ref: Ref, val: Json, parentPath: Path, pointerStack: seq<string>,
                      stack: seq<string>, childResolved: Result<ResolveResult, PointerError>, parse: ParseHook)
    returns (r: LookupResult)
    ensures r == ChildOutcome(base, ref, val, parentPath, pointerStack, stack, childResolved, parse)
  {
    r := base;
    if childResolved.Failure? {
      var message := "Error resolving pointer @ " + ref.jsonPointer + ": " + PointerErrorText(childResolved.error);
      return r.(error := Some(ResolveError(ResolvePointer, message, parentPath, ref.text, stack, pointerStack)));
    }
    var resolved := childResolved.value;
    var result := ReconcileErrors(resolved.result, resolved.errors, ref.fragment, val);
    match parse {
      case NoParser =>
      case Parsed(parsed) =>
        result := parsed;
      case ParseFailed(message) =>
        result := Some(val);
        var text := "Error parsing lookup result for '" + ref.text + "': " + message;
        r := r.(error := Some(ResolveError(ParseAuthority, text, parentPath, ref.text, stack, pointerStack)));
    }
    r := r.(resolved := Some(ResolveResult(result, resolved.errors)));
  }

  /** The target path is empty exactly when the pointer being resolved is the reference's own place (or that place is the root). */
  lemma LookupTargetPath(ctx: Context, stackAfter: seq<string>, ref: Ref, val: Json, resolvingPointer: Option<string>,
                         parentPointer: string, parentPath: Path, pointerStack: seq<string>,
                         lookupFailure: Option<string>, childResolved: Result<ResolveResult, PointerError>, parse: ParseHook)
    ensures var r := LookupSpec(ctx, stackAfter, ref, val, resolvingPointer, parentPointer, parentPath, pointerStack,
                                lookupFailure, childResolved, parse);
      && (resolvingPointer == Some(parentPointer) ==> r.targetPath == [])
      && (resolvingPointer != Some(parentPointer) ==> r.targetPath == parentPath)
      && r.pointerStack == pointerStack
  {
  }

  /** An authority already on the stack is not looked up again: the original value comes back, with no error. */
  lemma CycleShortCircuit(ctx: Context, stackAfter: seq<string>, ref: Ref, val: Json, resolvingPointer: Option<string>,
                          parentPointer: string, parentPath: Path, pointerStack: seq<string>,
                          lookupFailure: Option<string>, childResolved: Result<ResolveResult, PointerError>, parse: ParseHook)
    requires ref.authorityKey in ctx.authorityStack
    ensures var r := LookupSpec(ctx, stackAfter, ref, val, resolvingPointer, parentPointer, parentPath, pointerStack,
                                lookupFailure, childResolved, parse);
      r.resolved == Some(ResolveResult(Some(val), [])) && r.error.None?
  {
  }

  /** At 100 authorities the chain stops with `RESOLVE_AUTHORITY` at the reference's place, whatever the lookup would give. */
  lemma DepthCapStops(ctx: Context, stackAfter: seq<string>, ref: Ref, val: Json, resolvingPointer: Option<string>,
                      parentPointer: string, parentPath: Path, pointerStack: seq<string>,
                      lookupFailure: Option<string>, childResolved: Result<ResolveResult, PointerError>, parse: ParseHook)
    requires ref.authorityKey !in ctx.authorityStack && |ctx.authorityStack| >= MaxAuthorityDepth
    ensures var r := LookupSpec(ctx, stackAfter, ref, val, resolvingPointer, parentPointer, parentPath, pointerStack,
                                lookupFailure, childResolved, parse);
      && r.resolved.None? && r.error.Some?
      && r.error.value.code == ResolveAuthority && r.error.value.path == parentPath
      && r.error.value.message == DepthMessage(|ctx.authorityStack|)
  {
  }

  /** A parse hook that throws rolls the result back to the original value and reports `PARSE_AUTHORITY`. */
  lemma ParseRollback(ctx: Context, stackAfter: seq<string>, ref: Ref, val: Json, resolvingPointer: Option<string>,
                      parentPointer: string, parentPath: Path, pointerStack: seq<string>,
                      res: ResolveResult, message: string)
    requires ref.authorityKey !in ctx.authorityStack && |ctx.authorityStack| < MaxAuthorityDepth
    ensures var r := LookupSpec(ctx, stackAfter, ref, val, resolvingPointer, parentPointer, parentPath, pointerStack,
                                None, Success(res), ParseFailed(message));
      && r.resolved == Some(ResolveResult(Some(val), res.errors))
      && r.error.Some? && r.error.value.code == ParseAuthority && r.error.value.path == parentPath
  {
  }

  /** Errors that are not `POINTER_MISSING` for the requested fragment leave the child's result as it is. */
  lemma {:induction false} ReconcileWithoutMatches(result: Option<Json>, errors: seq<ResolveError>, fragment: string, val: Json)
    requires forall i :: 0 <= i < |errors| ==>
      errors[i].code != PointerMissing || Join(errors[i].path, '/') != Drop1(fragment)
    ensures Reconcile(result, errors, fragment, val) == result
    decreases |errors|
  {
    if |errors| > 0 {
      ReconcileWithoutMatches(result, errors[1..], fragment, val);
    }
  }

  /**
   * A `POINTER_MISSING` for exactly the requested fragment `/a/b/...` puts
   * the original value back in place of a truthy result.
   */
  lemma ReconcileExactFragment(result: Option<Json>, error: ResolveError, path: Path, val: Json)
    requires |path| > 0 && path[0] != ""
    requires forall i :: 0 <= i < |path| ==> '/' !in path[i]
    requires error.code == PointerMissing && error.path == path
    ensures ReconcileStep(result, error, "/" + Join(path, '/'), val) == (if Truthy(result) then Some(val) else result)
  {
    var joined := Join(path, '/');
    var fragment := "/" + joined;
    assert Drop1(fragment) == joined;
    assert joined[0] == path[0][0];
    var trimmed := TrimLeadingChars(fragment, "/");
    assert trimmed == joined;
    SplitJoin(path, '/');
    CommonPrefixIsLongest(path, path, |path|);
  }
}
