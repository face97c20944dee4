/**
 * The JSON Pointer codec of the resolver (RFC 6901): escaping of segments
 * (`~` as `~0`, `/` as `~1`, section 3 of RFC 6901), decoding with `~1`
 * handled before `~0` (section 4), and the `#`-prefixed URI fragment form
 * (section 6). Segments are not percent-decoded here: `decodeURIComponent`
 * is the identity on the `%`-free segments the round trip is stated for.
 */
module JsonPointer {
  import opened Wrappers
  import opened Strings

  /** A decoded JSON Pointer: its unescaped reference tokens. */
  type Path = seq<string>

  /** Why a string is not a JSON Pointer in URI fragment form. */
  datatype PointerError =
    | MissingHash   // empty, or does not begin with '#'
    | InvalidSyntax // '#' not followed by '/'

  // ----- replace-all -----

  /**
   * What the hand-rolled `replace` computes: the text before the first
   * occurrence of `find`, then `repl`, then the same on what follows.
   */
  function ReplaceAll(s: string, find: string, repl: string): string
    requires |find| > 0
    decreases |s|
  {
    var i := IndexOf(s, find);
    if i < 0 then s else s[..i] + repl + ReplaceAll(s[i + |find|..], find, repl)
  }

  /**
   * An independent reading of "replace every occurrence, left to right,
   * without overlaps": scan the string, and wherever `find` starts, emit
   * `repl` and jump past it; otherwise copy one character.
   */
  function ScanReplace(s: string, find: string, repl: string): string
    requires |find| > 0
    decreases |s|
  {
    if |s| < |find| then s
    else if OccursAt(s, find, 0) then repl + ScanReplace(s[|find|..], find, repl)
    else [s[0]] + ScanReplace(s[1..], find, repl)
  }

  /** `replace(str, find, repl)`, with its `while` loop over `res`, `rem`, `beg` and `end`. */
  method Replace(str: string, find: string, repl: string) returns (res: string)
    requires |find| > 0
    ensures res == ReplaceAll(str, find, repl)
  {
    var orig := str;
    res := "";
    var rem := orig;
    var beg := 0;
    var end := IndexOf(rem, find);
    while end > -1
      invariant 0 <= beg <= |orig| && rem == orig[beg..]
      invariant end == IndexOf(rem, find)
      invariant res + ReplaceAll(rem, find, repl) == ReplaceAll(orig, find, repl)
      decreases |rem|
    {
      ReplaceRound(orig, find, repl, res, beg, end);
      ghost var next := orig[beg + end + |find|..];
      res := res + orig[beg..beg + end] + repl;
      rem := rem[end + |find|..];
      beg := beg + end + |find|;
      assert rem == next;
      end := IndexOf(rem, find);
    }
    ReplaceAllWithout(rem, find, repl);
    if |rem| > 0 {
      assert orig[|orig| - |rem|..] == rem;
      res := res + orig[|orig| - |rem|..];
    }
  }

  /** One round of the loop: the text before the first occurrence, `repl`, and the rest replaced. */
  lemma ReplaceAllStep(s: string, find: string, repl: string, i: int, rest: string)
    requires |find| > 0 && i == IndexOf(s, find) && i >= 0 && rest == s[i + |find|..]
    ensures ReplaceAll(s, find, repl) == s[..i] + repl + ReplaceAll(rest, find, repl)
  {
  }

  /** One round of the loop, over the positions `beg` and `end` into `orig`. */
  lemma ReplaceRound(orig: string, find: string, repl: string, res: string, beg: nat, end: int)
    requires |find| > 0 && beg <= |orig| && end == IndexOf(orig[beg..], find) && end >= 0
    ensures beg + end + |find| <= |orig|
    ensures orig[beg..][end + |find|..] == orig[beg + end + |find|..]
    ensures res + ReplaceAll(orig[beg..], find, repl)
         == (res + orig[beg..beg + end] + repl) + ReplaceAll(orig[beg + end + |find|..], find, repl)
  {
    var rem := orig[beg..];
    var next := rem[end + |find|..];
    assert next == orig[beg + end + |find|..];
    ReplaceAllStep(rem, find, repl, end, next);
    assert orig[beg..beg + end] == rem[..end];
    Associate(res, rem[..end], repl, ReplaceAll(next, find, repl));
  }

  lemma Associate(a: string, b: string, c: string, d: string)
    ensures (a + b + c) + d == a + (b + c + d)
  {
  }

  /** Once `indexOf` finds nothing, `replace` leaves the rest as it is. */
  lemma ReplaceAllWithout(s: string, find: string, repl: string)
    requires |find| > 0 && IndexOf(s, find) == -1
    ensures ReplaceAll(s, find, repl) == s
  {
  }

  /** Where `find` does not start the string, `replace` keeps its first character. */
  lemma ReplaceAllMiss(s: string, find: string, repl: string)
    requires |find| > 0 && |s| > 0 && !OccursAt(s, find, 0)
    ensures ReplaceAll(s, find, repl) == [s[0]] + ReplaceAll(s[1..], find, repl)
  {
    var t := s[1..];
    var i := IndexOf(s, find);
    IndexOfTail(s, find);
    if i < 0 {
      ReplaceAllWithout(s, find, repl);
      ReplaceAllWithout(t, find, repl);
      assert [s[0]] + t == s;
    } else {
      var rest := s[i + |find|..];
      TailSlices(s, i, |find|);
      ReplaceAllStep(s, find, repl, i, rest);
      ReplaceAllStep(t, find, repl, i - 1, rest);
      PrependChar(s[0], t[..i - 1], repl, ReplaceAll(rest, find, repl));
    }
  }

  /** Where `find` starts the string, `replace` emits `repl` and goes on after `find`. */
  lemma ReplaceAllHit(s: string, find: string, repl: string)
    requires |find| > 0 && OccursAt(s, find, 0)
    ensures ReplaceAll(s, find, repl) == repl + ReplaceAll(s[|find|..], find, repl)
  {
    assert IndexOf(s, find) == 0;
    ReplaceAllStep(s, find, repl, 0, s[|find|..]);
    assert s[..0] == "";
  }

  lemma TailSlices(s: string, i: nat, k: nat)
    requires 0 < i && i + k <= |s|
    ensures [s[0]] + s[1..][..i - 1] == s[..i]
    ensures s[1..][i - 1 + k..] == s[i + k..]
  {
  }

  lemma PrependChar(c: char, a: string, b: string, d: string)
    ensures [c] + (a + b + d) == ([c] + a) + b + d
  {
  }

  /** Where `find` does not start the string, the scan copies one character. */
  lemma ScanMiss(s: string, find: string, repl: string)
    requires |find| > 0 && |s| > 0 && !OccursAt(s, find, 0)
    ensures ScanReplace(s, find, repl) == [s[0]] + ScanReplace(s[1..], find, repl)
  {
    if |s| < |find| {
      ScanShort(s[1..], find, repl);
      assert [s[0]] + s[1..] == s;
    }
  }

  lemma ScanShort(s: string, find: string, repl: string)
    requires |find| > 0 && |s| < |find|
    ensures ScanReplace(s, find, repl) == s
  {
  }

  /** The loop's replace-all is the left-to-right, non-overlapping scan. */
  lemma {:induction false} ReplaceAllIsScan(s: string, find: string, repl: string)
    requires |find| > 0
    ensures ReplaceAll(s, find, repl) == ScanReplace(s, find, repl)
    decreases |s|
  {
    if |s| == 0 {
      assert IndexOf(s, find) == -1;
    } else if OccursAt(s, find, 0) {
      ReplaceAllHit(s, find, repl);
      ReplaceAllIsScan(s[|find|..], find, repl);
    } else {
      ReplaceAllMiss(s, find, repl);
      ScanMiss(s, find, repl);
      ReplaceAllIsScan(s[1..], find, repl);
    }
  }

  /** Where `find` does not occur, `replace` returns its input. */
  lemma ReplaceAllWithoutOccurrence(s: string, find: string, repl: string)
    requires |find| > 0
    requires forall j :: !OccursAt(s, find, j)
    ensures ReplaceAll(s, find, repl) == s
  {
    IndexOfFirst(s, find);
  }

  lemma ScanSkip(c: char, x: string, find: string, repl: string)
    requires |find| > 0 && c != find[0]
    ensures ScanReplace([c] + x, find, repl) == [c] + ScanReplace(x, find, repl)
  {
    var s := [c] + x;
    if |s| >= |find| {
      assert s[..|find|][0] == c;
      assert s[1..] == x;
    }
  }

  lemma ScanHit(find: string, x: string, repl: string)
    requires |find| > 0
    ensures ScanReplace(find + x, find, repl) == repl + ScanReplace(x, find, repl)
  {
    var s := find + x;
    assert s[..|find|] == find && s[|find|..] == x;
  }

  // ----- segment escaping -----

  /** The escape of one character: `~` as `~0`, `/` as `~1`. */
  function EscapeChar(c: char): string
  {
    if c == '~' then "~0" else if c == '/' then "~1" else [c]
  }

  /** A segment escaped character by character. */
  function Escaped(s: string): string
    decreases |s|
  {
    if |s| == 0 then "" else EscapeChar(s[0]) + Escaped(s[1..])
  }

  /** A segment with only `~` escaped (the state between the two replacements). */
  function TildeEscaped(s: string): string
    decreases |s|
  {
    if |s| == 0 then "" else (if s[0] == '~' then "~0" else [s[0]]) + TildeEscaped(s[1..])
  }

  /** An encoded segment: no `/` left, and every `~` begins `~0` or `~1`. */
  predicate WellEscaped(t: string)
  {
    && '/' !in t
    && forall i :: 0 <= i < |t| && t[i] == '~' ==> i + 1 < |t| && (t[i + 1] == '0' || t[i + 1] == '1')
  }

  lemma {:induction false} EscapedIsWellEscaped(s: string)
    ensures WellEscaped(Escaped(s))
    decreases |s|
  {
    if |s| > 0 {
      EscapedIsWellEscaped(s[1..]);
      var e, rest := EscapeChar(s[0]), Escaped(s[1..]);
      var t := e + rest;
      assert Escaped(s) == t;
      forall i | 0 <= i < |t| && t[i] == '~'
        ensures i + 1 < |t| && (t[i + 1] == '0' || t[i + 1] == '1')
      {
        if i >= |e| {
          assert t[i] == rest[i - |e|];
          assert t[i + 1] == rest[i - |e| + 1];
        }
      }
    }
  }

  lemma {:induction false} EncodeTildes(s: string)
    ensures ScanReplace(s, "~", "~0") == TildeEscaped(s)
    decreases |s|
  {
    if |s| > 0 {
      EncodeTildes(s[1..]);
      assert s == [s[0]] + s[1..];
      if s[0] == '~' {
        ScanHit("~", s[1..], "~0");
      } else {
        ScanSkip(s[0], s[1..], "~", "~0");
      }
    }
  }

  lemma {:induction false} EncodeSlashes(s: string)
    ensures ScanReplace(TildeEscaped(s), "/", "~1") == Escaped(s)
    decreases |s|
  {
    if |s| > 0 {
      EncodeSlashes(s[1..]);
      var x := TildeEscaped(s[1..]);
      if s[0] == '~' {
        assert TildeEscaped(s) == ['~'] + (['0'] + x);
        ScanSkip('~', ['0'] + x, "/", "~1");
        ScanSkip('0', x, "/", "~1");
      } else if s[0] == '/' {
        assert TildeEscaped(s) == "/" + x;
        ScanHit("/", x, "~1");
      } else {
        assert TildeEscaped(s) == [s[0]] + x;
        ScanSkip(s[0], x, "/", "~1");
      }
    }
  }

  lemma {:induction false} DecodeSlashes(s: string)
    ensures ScanReplace(Escaped(s), "~1", "/") == TildeEscaped(s)
    decreases |s|
  {
    if |s| > 0 {
      DecodeSlashes(s[1..]);
      var x := Escaped(s[1..]);
      if s[0] == '~' {
        var t := "~0" + x;
        assert Escaped(s) == t;
        assert t[0..2] != "~1" && t[1..] == ['0'] + x;
        ScanMiss(t, "~1", "/");
        ScanSkip('0', x, "~1", "/");
      } else if s[0] == '/' {
        assert Escaped(s) == "~1" + x;
        ScanHit("~1", x, "/");
      } else {
        assert Escaped(s) == [s[0]] + x;
        ScanSkip(s[0], x, "~1", "/");
      }
    }
  }

  lemma {:induction false} DecodeTildes(s: string)
    ensures ScanReplace(TildeEscaped(s), "~0", "~") == s
    decreases |s|
  {
    if |s| > 0 {
      DecodeTildes(s[1..]);
      var x := TildeEscaped(s[1..]);
      if s[0] == '~' {
        assert TildeEscaped(s) == "~0" + x;
        ScanHit("~0", x, "~");
      } else {
        assert TildeEscaped(s) == [s[0]] + x;
        ScanSkip(s[0], x, "~0", "~");
      }
      assert s == [s[0]] + s[1..];
    }
  }

  /** `encodeFragmentSegment`: `~` replaced by `~0`, then `/` by `~1`. */
  function EncodeFragmentSegment(segment: string): (r: string)
    ensures r == Escaped(segment)
    ensures WellEscaped(r)
  {
    ReplaceAllIsScan(segment, "~", "~0");
    EncodeTildes(segment);
    ReplaceAllIsScan(TildeEscaped(segment), "/", "~1");
    EncodeSlashes(segment);
    EscapedIsWellEscaped(segment);
    ReplaceAll(ReplaceAll(segment, "~", "~0"), "/", "~1")
  }

  /** `encodeFragmentSegments`: every segment encoded, in order. */
  function EncodeFragmentSegments(segments: Path): (r: seq<string>)
    ensures |r| == |segments|
    ensures forall i :: 0 <= i < |r| ==> r[i] == Escaped(segments[i]) && WellEscaped(r[i])
  {
    seq(|segments|, i requires 0 <= i < |segments| => EncodeFragmentSegment(segments[i]))
  }

  /** One decoded segment: `~1` replaced by `/`, then `~0` by `~`. */
  function DecodeSegment(segment: string): string
  {
    ReplaceAll(ReplaceAll(segment, "~1", "/"), "~0", "~")
  }

  /** Decoding undoes encoding, because `~1` is decoded before `~0`. */
  lemma DecodeEncodedSegment(segment: string)
    ensures DecodeSegment(EncodeFragmentSegment(segment)) == segment
  {
    var e := EncodeFragmentSegment(segment);
    ReplaceAllIsScan(e, "~1", "/");
    DecodeSlashes(segment);
    ReplaceAllIsScan(TildeEscaped(segment), "~0", "~");
    DecodeTildes(segment);
  }

  /** What `decodeFragmentSegments` returns: each segment decoded, in order. */
  function DecodedSegments(segments: seq<string>): (r: Path)
    ensures |r| == |segments|
  {
    seq(|segments|, i requires 0 <= i < |segments| => DecodeSegment(segments[i]))
  }

  /** `decodeFragmentSegments`, filling the result array in a loop. */
  method DecodeFragmentSegments(segments: seq<string>) returns (res: Path)
    ensures res == DecodedSegments(segments)
  {
    var len := |segments|;
    res := [];
    var i := 0;
    while i < len
      invariant 0 <= i <= len
      invariant |res| == i
      invariant forall k :: 0 <= k < i ==> res[k] == DecodeSegment(segments[k])
    {
      var once := Replace(segments[i], "~1", "/");
      var twice := Replace(once, "~0", "~");
      res := res + [twice];
      i := i + 1;
    }
  }

  // ----- the URI fragment form -----

  /**
   * `jsonPointerToPath` (through `decodeUriFragmentIdentifier`): `#` alone is
   * the empty path; otherwise `#/` must follow, and the rest is split at `/`
   * and decoded segment by segment. A path has one segment per `/`.
   */
  function JsonPointerToPath(ptr: string): (r: Result<Path, PointerError>)
    ensures r.Failure? <==> (|ptr| == 0 || ptr[0] != '#' || (|ptr| > 1 && ptr[1] != '/'))
    ensures r == Failure(MissingHash) <==> (|ptr| == 0 || ptr[0] != '#')
    ensures r.Success? ==> |r.value| == Count(ptr, '/')
  {
    if |ptr| == 0 || ptr[0] != '#' then Failure(MissingHash)
    else if |ptr| == 1 then Success([])
    else if ptr[1] != '/' then Failure(InvalidSyntax)
    else
      assert ptr[1..][1..] == ptr[2..];
      SplitCount(ptr[2..], '/');
      Success(DecodedSegments(Split(ptr[2..], '/')))
  }

  /**
   * `pathToJSONPointer` (through `encodeUriFragmentIdentifier`): `#` for the
   * empty path, otherwise `#/` and the encoded segments joined by `/`.
   */
  function PathToJSONPointer(path: Path): (r: string)
    ensures |r| >= 1 && r[0] == '#'
    ensures r == "#" <==> |path| == 0
    ensures |path| > 0 ==> |r| >= 2 && r[1] == '/'
  {
    if |path| == 0 then "#" else "#/" + Join(EncodeFragmentSegments(path), '/')
  }

  /** `addToJSONPointer`: one more encoded segment after a `/`. */
  function AddToJSONPointer(pointer: string, part: string): (r: string)
    ensures |r| == |pointer| + 1 + |EncodeFragmentSegment(part)|
    ensures r[..|pointer|] == pointer && r[|pointer|] == '/'
    ensures r[|pointer| + 1..] == EncodeFragmentSegment(part)
  {
    pointer + "/" + EncodeFragmentSegment(part)
  }

  /** `uriToJSONPointer`, over the fragment of the URI: `''` if there is none, else `#` and the fragment. */
  function UriToJSONPointer(fragment: string): (r: string)
    ensures |fragment| == 0 ==> r == ""
    ensures |fragment| > 0 ==> |r| == |fragment| + 1 && r[0] == '#' && r[1..] == fragment
  {
    if |fragment| == 0 then "" else "#" + fragment
  }

  /**
   * `uriIsJSONPointer`, over the reference's text: it begins with `#/`; such
   * a reference is `#` followed by its own fragment.
   */
  function UriIsJSONPointer(ref: string): (r: bool)
    ensures r <==> |ref| >= 2 && ref[0] == '#' && ref[1] == '/'
    ensures r ==> UriToJSONPointer(ref[1..]) == ref
  {
    |ref| >= 2 && ref[..2] == "#/"
  }

  // ----- properties -----

  /** The pointer `#` is the empty path and `#/` is the path of one empty segment. */
  lemma DecodeRootPointers()
    ensures JsonPointerToPath("#") == Success([])
    ensures JsonPointerToPath("#/") == Success([""])
  {
    var p := "#/";
    assert p[2..] == "";
    assert Split("", '/') == [""];
    assert IndexOf("", "~1") == -1;
    assert IndexOf("", "~0") == -1;
    assert DecodeSegment("") == "";
    assert DecodedSegments([""]) == [""];
  }

  /** The empty path is `#` and the path of one empty segment is `#/`. */
  lemma EncodeRootPaths()
    ensures PathToJSONPointer([]) == "#"
    ensures PathToJSONPointer([""]) == "#/"
  {
    assert IndexOf("", "~") == -1;
    assert IndexOf("", "/") == -1;
    assert EncodeFragmentSegment("") == "";
  }

  /** Segments that `decodeURIComponent` leaves as they are. */
  predicate PercentFree(path: Path)
  {
    forall i :: 0 <= i < |path| ==> '%' !in path[i]
  }

  /** Encoding a path and decoding the pointer gives the path back. */
  lemma {:induction false} PointerRoundTrip(path: Path)
    requires PercentFree(path)
    ensures JsonPointerToPath(PathToJSONPointer(path)) == Success(path)
  {
    if |path| > 0 {
      var enc := EncodeFragmentSegments(path);
      var ptr := PathToJSONPointer(path);
      assert ptr == "#/" + Join(enc, '/');
      assert ptr[2..] == Join(enc, '/');
      SplitJoin(enc, '/');
      forall i | 0 <= i < |path| ensures DecodeSegment(enc[i]) == path[i] {
        DecodeEncodedSegment(path[i]);
      }
      assert DecodedSegments(enc) == path;
    }
  }

  /** Adding a segment to the pointer of a path is the pointer of the longer path. */
  lemma AddToPathPointer(path: Path, part: string)
    ensures AddToJSONPointer(PathToJSONPointer(path), part) == PathToJSONPointer(path + [part])
  {
    var longer := EncodeFragmentSegments(path + [part]);
    if |path| == 0 {
      assert longer == [EncodeFragmentSegment(part)];
    } else {
      var enc := EncodeFragmentSegments(path);
      assert longer == enc + [EncodeFragmentSegment(part)];
      JoinSnoc(enc, EncodeFragmentSegment(part), '/');
    }
  }

  /** A local reference always decodes; its path has one segment per `/`. */
  lemma LocalReferenceDecodes(ref: string)
    requires UriIsJSONPointer(ref)
    ensures JsonPointerToPath(ref).Success?
    ensures |JsonPointerToPath(ref).value| >= 1
  {
    assert ref == "#/" + ref[2..];
    assert Count(ref, '/') >= 1 by {
      assert ref[1..] == "/" + ref[2..];
    }
  }

  /** A fragment beginning with `/` turns into a local pointer for the same path. */
  lemma FragmentIsLocalPointer(fragment: string)
    requires |fragment| >= 1 && fragment[0] == '/'
    ensures UriIsJSONPointer(UriToJSONPointer(fragment))
    ensures JsonPointerToPath(UriToJSONPointer(fragment)) == Success(DecodedSegments(Split(fragment[1..], '/')))
  {
    var p := UriToJSONPointer(fragment);
    assert p[2..] == fragment[1..];
  }
}
