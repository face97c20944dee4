/**
 * JSON values and the path helpers the resolver uses on them: a path get and
 * set standing in for lodash's `get`/`set`, the path-prefix test
 * `startsWith` with its numeric-index coercion, and `trimStart`, which strips
 * a common prefix from a path (or leading characters from a string).
 */
module Json {
  import opened Wrappers
  import opened Strings

  /** A JSON value. Object members keep their insertion order. */
  datatype Json =
    | JNull
    | JBool(b: bool)
    | JNum(n: int)
    | JStr(s: string)
    | JArr(elems: seq<Json>)
    | JObj(members: seq<Member>)

  datatype Member = Member(key: string, value: Json)

  /** JavaScript truthiness of a value that may be `undefined` (`None`). */
  predicate Truthy(v: Option<Json>)
  {
    match v
    case None => false
    case Some(JNull) => false
    case Some(JBool(b)) => b
    case Some(JNum(n)) => n != 0
    case Some(JStr(s)) => |s| > 0
    case Some(_) => true
  }

  /** `typeof v === 'object'`: null, arrays and objects. */
  predicate IsObjectType(v: Json)
  {
    v.JNull? || v.JArr? || v.JObj?
  }

  /** lodash's `isObject` on JSON: arrays and objects, but not null. */
  predicate IsContainer(v: Json)
  {
    v.JArr? || v.JObj?
  }

  // ----- property access -----

  /** The position of the first member named `key`, or -1. */
  function MemberIndex(members: seq<Member>, key: string): (r: int)
    ensures -1 <= r < |members|
    ensures r >= 0 ==> members[r].key == key
    ensures r >= 0 ==> forall i :: 0 <= i < r ==> members[i].key != key
    ensures r == -1 ==> forall i :: 0 <= i < |members| ==> members[i].key != key
    decreases |members|
  {
    if |members| == 0 then -1
    else if members[|members| - 1].key == key && MemberIndex(members[..|members| - 1], key) == -1 then |members| - 1
    else MemberIndex(members[..|members| - 1], key)
  }

  /** The array position named by `key` among the first `n`: the `i` whose decimal form is `key`. */
  function PositionOf(key: string, n: nat): (r: Option<nat>)
    ensures r.Some? ==> r.value < n && NatToString(r.value) == key
    ensures r.Some? ==> forall i :: 0 <= i < r.value ==> NatToString(i) != key
    ensures r.None? ==> forall i :: 0 <= i < n ==> NatToString(i) != key
    decreases n
  {
    if n == 0 then None
    else
      var below := PositionOf(key, n - 1);
      if below.Some? then below
      else if NatToString(n - 1) == key then Some(n - 1)
      else None
  }

  /** `v[key]` on a JSON value; `undefined` (`None`) where there is no such property. */
  function Child(v: Json, key: string): (r: Option<Json>)
    ensures r.Some? ==> IsContainer(v)
    ensures r.Some? && v.JObj? ==> r.value in MembersValues(v.members)
    ensures r.Some? && v.JArr? ==> r.value in v.elems
  {
    match v
    case JObj(ms) =>
      var i := MemberIndex(ms, key);
      if i < 0 then None else Some(ms[i].value)
    case JArr(es) =>
      var p := PositionOf(key, |es|);
      if p.None? then None else Some(es[p.value])
    case _ => None
  }

  function MembersValues(ms: seq<Member>): seq<Json>
    ensures |MembersValues(ms)| == |ms|
    ensures forall i :: 0 <= i < |ms| ==> MembersValues(ms)[i] == ms[i].value
  {
    seq(|ms|, i requires 0 <= i < |ms| => ms[i].value)
  }

  /**
   * `getValue(obj, path)`, lodash's `get`: follow the path key by key; an
   * empty path, or a missing property on the way, gives `undefined`.
   */
  function GetValue(v: Json, path: seq<string>): (r: Option<Json>)
    ensures |path| == 0 ==> r.None?
    ensures |path| > 0 && r.Some? ==> IsContainer(v)
    decreases |path|
  {
    if |path| == 0 then None
    else
      var c := Child(v, path[0]);
      if c.None? || |path| == 1 then c else GetValue(c.value, path[1..])
  }

  /** lodash's `isIndex` on a path key: a canonical decimal below 2^53 - 1. */
  predicate IsIndexKey(key: string)
  {
    && |key| > 0
    && (forall i :: 0 <= i < |key| ==> IsDigit(key[i]))
    && (key[0] != '0' || |key| == 1)
    && DigitsValue(key) < 9007199254740991
  }

  /**
   * lodash's `assignValue(c, key, x)`: an object member is overwritten in
   * place or appended; an array slot is overwritten, or the array grows by
   * one when `key` is its length; any other key leaves an array as it is.
   */
  function Assign(c: Json, key: string, x: Json): (r: Json)
    requires IsContainer(c)
    ensures IsContainer(r) && r.JObj? == c.JObj?
  {
    match c
    case JObj(ms) =>
      var i := MemberIndex(ms, key);
      if i < 0 then JObj(ms + [Member(key, x)]) else JObj(ms[i := Member(key, x)])
    case JArr(es) =>
      var p := PositionOf(key, |es| + 1);
      if p.None? then c
      else if p.value < |es| then JArr(es[p.value := x])
      else JArr(es + [x])
  }

  /** The container `set` descends into under `key`: the existing one, or a fresh `[]` or `{}`. */
  function NextContainer(c: Json, key: string, nextKey: string): (r: Json)
    ensures IsContainer(r)
  {
    var child := Child(c, key);
    if child.Some? && IsContainer(child.value) then child.value
    else if IsIndexKey(nextKey) then JArr([])
    else JObj([])
  }

  function SetIn(c: Json, path: seq<string>, x: Json): (r: Json)
    requires IsContainer(c) && |path| > 0
    ensures IsContainer(r) && r.JObj? == c.JObj?
    decreases |path|
  {
    if |path| == 1 then Assign(c, path[0], x)
    else Assign(c, path[0], SetIn(NextContainer(c, path[0], path[1]), path[1..], x))
  }

  /**
   * `setValue(obj, path, x)`, lodash's `set`: a value that is not an array or
   * object, and an empty path, are returned unchanged; otherwise the path is
   * walked, missing or non-container steps replaced by `[]` (before an index
   * key) or `{}`, and `x` assigned at the last key.
   */
  function SetValue(v: Json, path: seq<string>, x: Json): (r: Json)
    ensures !IsContainer(v) || |path| == 0 ==> r == v
    ensures IsContainer(r) == IsContainer(v)
  {
    if !IsContainer(v) || |path| == 0 then v else SetIn(v, path, x)
  }

  /** `key` names a place `Assign` writes to. */
  predicate Lands(c: Json, key: string)
  {
    c.JObj? || (c.JArr? && PositionOf(key, |c.elems| + 1).Some?)
  }

  /** Every step of `set` along `path` lands. */
  predicate Settable(c: Json, path: seq<string>)
    requires IsContainer(c) && |path| > 0
    decreases |path|
  {
    && Lands(c, path[0])
    && (|path| > 1 ==> Settable(NextContainer(c, path[0], path[1]), path[1..]))
  }

  lemma MemberIndexUpdate(ms: seq<Member>, i: nat, key: string, x: Json)
    requires i < |ms| && MemberIndex(ms, key) == i
    ensures MemberIndex(ms[i := Member(key, x)], key) == i
  {
    var ns := ms[i := Member(key, x)];
    assert ns[i].key == key;
    assert forall k :: 0 <= k < i ==> ns[k] == ms[k];
  }

  lemma MemberIndexAppend(ms: seq<Member>, key: string, x: Json)
    requires MemberIndex(ms, key) == -1
    ensures MemberIndex(ms + [Member(key, x)], key) == |ms|
  {
    var ns := ms + [Member(key, x)];
    assert ns[..|ns| - 1] == ms;
  }

  lemma PositionOfWider(key: string, n: nat, m: nat)
    requires n <= m && PositionOf(key, m).Some? && PositionOf(key, m).value < n
    ensures PositionOf(key, n) == PositionOf(key, m)
  {
  }

  /** After `assignValue(c, key, x)`, reading `key` gives `x`. */
  lemma ChildAfterAssign(c: Json, key: string, x: Json)
    requires IsContainer(c) && Lands(c, key)
    ensures Child(Assign(c, key, x), key) == Some(x)
  {
    match c
    case JObj(ms) =>
      var i := MemberIndex(ms, key);
      if i < 0 {
        MemberIndexAppend(ms, key, x);
      } else {
        MemberIndexUpdate(ms, i, key, x);
      }
    case JArr(es) =>
      var p := PositionOf(key, |es| + 1).value;
      if p < |es| {
        PositionOfWider(key, |es|, |es| + 1);
      } else {
        assert PositionOf(key, |es| + 1) == Some(|es|);
      }
  }

  /** Reading back a path that `setValue` has written gives the value written. */
  lemma {:induction false} GetAfterSet(v: Json, path: seq<string>, x: Json)
    requires IsContainer(v) && |path| > 0 && Settable(v, path)
    ensures GetValue(SetValue(v, path, x), path) == Some(x)
    decreases |path|
  {
    if |path| == 1 {
      ChildAfterAssign(v, path[0], x);
    } else {
      var next := NextContainer(v, path[0], path[1]);
      var inner := SetIn(next, path[1..], x);
      ChildAfterAssign(v, path[0], inner);
      GetAfterSet(next, path[1..], x);
      assert SetValue(next, path[1..], x) == inner;
    }
  }

  // ----- startsWith -----

  /** The kinds of argument `startsWith` and `trimStart` tell apart. */
  datatype PathLike = Elems(elems: seq<string>) | Text(text: string) | NotPathLike

  /**
   * How `startsWith` compares two path elements: by integer value when either
   * parses as one, otherwise as strings.
   */
  predicate ElemMatch(s: string, v: string)
  {
    var si, vi := ParseInt(s), ParseInt(v);
    if si.Some? || vi.Some? then si == vi else s == v
  }

  /** What `startsWith` decides, stated as a prefix relation. */
  predicate IsPrefixOf(source: PathLike, val: PathLike)
  {
    match source
    case Elems(s) =>
      !val.Elems? || (|val.elems| <= |s| && forall i :: 0 <= i < |val.elems| ==> ElemMatch(s[i], val.elems[i]))
    case Text(t) =>
      !val.Text? || (|val.text| <= |t| && t[..|val.text|] == val.text)
    case NotPathLike => false
  }

  /** `startsWith(source, val)`, with its `for` loop and early exits. */
  method StartsWith(source: PathLike, val: PathLike) returns (r: bool)
    ensures r == IsPrefixOf(source, val)
  {
    match source {
      case Elems(s) =>
      if val.Elems? {
        var v := val.elems;
        if |v| > |s| {
          return false;
        }
        var i := 0;
        while i < |v|
          invariant 0 <= i <= |v|
          invariant forall k :: 0 <= k < i ==> ElemMatch(s[k], v[k])
        {
          var si := ParseInt(s[i]);
          var vi := ParseInt(v[i]);
          if si.Some? || vi.Some? {
            if si != vi {
              return false;
            }
          } else if s[i] != v[i] {
            return false;
          }
          i := i + 1;
        }
      }
      case Text(t) =>
      if val.Text? {
        return |val.text| <= |t| && t[..|val.text|] == val.text;
      }
      case NotPathLike =>
        return false;
    }
    r := true;
  }

  /** A longer path is never a prefix. */
  lemma LongerIsNoPrefix(s: seq<string>, v: seq<string>)
    requires |v| > |s|
    ensures !IsPrefixOf(Elems(s), Elems(v))
  {
  }

  /** The empty path is a prefix of every path, and every path and string is a prefix of itself. */
  lemma PrefixBasics(s: seq<string>, t: string)
    ensures IsPrefixOf(Elems(s), Elems([]))
    ensures IsPrefixOf(Elems(s), Elems(s))
    ensures IsPrefixOf(Text(t), Text(t))
  {
    assert forall i :: 0 <= i < |s| ==> ElemMatch(s[i], s[i]);
  }

  /** Numeric elements compare by value: `"01"` matches `"1"`. */
  lemma NumericElementsByValue()
    ensures ElemMatch("01", "1")
    ensures IsPrefixOf(Elems(["a", "01", "b"]), Elems(["a", "1"]))
  {
    assert LeadingDigits("01") == "01" && LeadingDigits("1") == "1";
    assert DigitsValue("01") == 1 by {
      assert "01"[..1] == "0";
      assert DigitsValue("0") == 0;
    }
    assert ParseInt("a") == None;
    assert ElemMatch("a", "a");
  }

  /** A numeric element never matches a non-numeric one; two non-numeric ones match iff equal. */
  lemma ElementMatchCases(s: string, v: string)
    ensures ParseInt(s).Some? && ParseInt(v).None? ==> !ElemMatch(s, v)
    ensures ParseInt(s).None? && ParseInt(v).Some? ==> !ElemMatch(s, v)
    ensures ParseInt(s).None? && ParseInt(v).None? ==> (ElemMatch(s, v) <==> s == v)
  {
  }

  /** On strings, `startsWith` is the string-prefix test. */
  lemma TextPrefix(t: string, v: string)
    ensures IsPrefixOf(Text(t), Text(v)) <==> exists rest :: t == v + rest
  {
    if IsPrefixOf(Text(t), Text(v)) {
      assert t == v + t[|v|..];
    }
  }

  // ----- trimStart -----

  /** The length of the longest common prefix of `target` and `elems`. */
  function CommonPrefixLength<T(==)>(target: seq<T>, elems: seq<T>): (k: nat)
    ensures k <= |target| && k <= |elems|
    ensures forall i :: 0 <= i < k ==> target[i] == elems[i]
    ensures k < |target| && k < |elems| ==> target[k] != elems[k]
    decreases |target|
  {
    if |target| == 0 || |elems| == 0 || target[0] != elems[0] then 0
    else 1 + CommonPrefixLength(target[1..], elems[1..])
  }

  /**
   * `trimStart(target, elems)` on arrays: count the leading positions where
   * `target` and `elems` agree, then drop that many from `target`.
   */
  method TrimStart<T(==)>(target: seq<T>, elems: seq<T>) returns (r: seq<T>)
    ensures r == target[CommonPrefixLength(target, elems)..]
  {
    if |elems| == 0 {
      return target;
    }
    var toRemove := 0;
    while toRemove < |target|
      invariant 0 <= toRemove <= |target| && toRemove <= |elems|
      invariant forall i :: 0 <= i < toRemove ==> target[i] == elems[i]
    {
      if toRemove >= |elems| || target[toRemove] != elems[toRemove] {
        break;
      }
      toRemove := toRemove + 1;
    }
    CommonPrefixIsLongest(target, elems, toRemove);
    r := target[toRemove..];
  }

  /** Any prefix length at which the two sequences stop agreeing is the common-prefix length. */
  lemma {:induction false} CommonPrefixIsLongest<T>(target: seq<T>, elems: seq<T>, k: nat)
    requires k <= |target| && k <= |elems|
    requires forall i :: 0 <= i < k ==> target[i] == elems[i]
    requires k == |target| || k == |elems| || target[k] != elems[k]
    ensures CommonPrefixLength(target, elems) == k
    decreases k
  {
    if k > 0 {
      CommonPrefixIsLongest(target[1..], elems[1..], k - 1);
    }
  }

  /** The two examples of the source's documentation comment. */
  lemma TrimStartExamples()
    ensures CommonPrefixLength(["1", "2", "3"], ["1", "2"]) == 2
    ensures CommonPrefixLength(["1", "2", "3"], ["999", "2"]) == 0
  {
    CommonPrefixIsLongest(["1", "2", "3"], ["1", "2"], 2);
  }

  /** lodash's `trimStart(s, chars)`: drop leading characters that occur in `chars`. */
  function TrimLeadingChars(s: string, chars: string): (r: string)
    ensures |r| <= |s| && r == s[|s| - |r|..]
    ensures forall i :: 0 <= i < |s| - |r| ==> s[i] in chars
    ensures |r| > 0 && |chars| > 0 ==> r[0] !in chars
    ensures |chars| == 0 ==> r == s
    decreases |s|
  {
    if |chars| == 0 || |s| == 0 || s[0] !in chars then s else TrimLeadingChars(s[1..], chars)
  }
}
