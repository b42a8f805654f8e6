/** The decode hook of pkg/config: when a string slice is decoded into a map
    with string values, each element `key=value` becomes one map entry. */
module Hooks {

  /** A Go type as the hook inspects it: its kind and, for slices and maps,
      the key and element types. Named types with the same kind are not told
      apart from the built-in ones, as the hook's kind checks do not. */
  datatype GoType = StringType | SliceOf(elem: GoType) | MapOf(key: GoType, elem: GoType) | OtherType(kindName: string)

  /** The dynamic value being decoded: exactly a `[]string`, a `map[string]string`,
      or anything else. */
  datatype Data = StringSlice(items: seq<string>) | StringMap(entries: map<string, string>) | OtherData

  /** What the hook hands back: the data untouched, the converted map, the
      error message for an element without `=`, or the panic of a failed
      `[]string` type assertion. */
  datatype HookResult =
    | Unchanged(data: Data)
    | Converted(m: map<string, string>)
    | InvalidFormat(message: string)
    | AssertionPanic

  /** The fixed text the error for a malformed element starts with. */
  const InvalidFormatText := "Invalid format for input "

  /** The error text for a malformed element: the fixed text, then the element. */
  function ErrorMessage(input: string): (msg: string)
    ensures |msg| == |InvalidFormatText| + |input|
    ensures msg[|msg| - |input|..] == input
  {
    InvalidFormatText + input
  }

  /** Two error texts are equal exactly when they name the same element. */
  lemma ErrorMessageNamesElement(a: string, b: string)
    ensures ErrorMessage(a) == ErrorMessage(b) <==> a == b
  {
    if ErrorMessage(a) == ErrorMessage(b) {
      var n := |InvalidFormatText|;
      assert a == ErrorMessage(a)[n..];
      assert b == ErrorMessage(b)[n..];
    }
  }

  /** `strings.SplitN(s, sep, 2)` for a one-character separator: the whole
      string when `sep` does not occur, else the text before its first
      occurrence and everything after it. */
  function SplitN2(s: string, sep: char): (parts: seq<string>)
    ensures |parts| == 1 || |parts| == 2
    ensures |parts| == 1 <==> sep !in s
    ensures |parts| == 1 ==> parts[0] == s
    ensures |parts| == 2 ==> parts[0] + [sep] + parts[1] == s && sep !in parts[0]
  {
    if s == [] then [s]
    else if s[0] == sep then
      assert "" + [sep] + s[1..] == s;
      ["", s[1..]]
    else
      var rest := SplitN2(s[1..], sep);
      assert s == [s[0]] + s[1..];
      [[s[0]] + rest[0]] + rest[1..]
  }

  /** The key an element contributes: the text before its first `=`. */
  function Key(s: string): string {
    SplitN2(s, '=')[0]
  }

  /** The value an element contributes: everything after its first `=`. */
  function Value(s: string): string
    requires '=' in s
  {
    SplitN2(s, '=')[1]
  }

  /** In `a=b` with no `=` in `a`, the first `=` sits right after `a`. */
  lemma FirstSeparatorAt(a: string, b: string)
    requires '=' !in a
    ensures (a + "=" + b)[|a|] == '='
    ensures forall i :: 0 <= i < |a| ==> (a + "=" + b)[i] != '='
  {
    assert forall i :: 0 <= i < |a| ==> (a + "=" + b)[i] == a[i];
  }

  /** Splitting `k=v` at its first `=` gives back `k` and `v` when `k` has no `=`. */
  lemma {:induction false} SplitRoundTrip(k: string, v: string)
    requires '=' !in k
    ensures SplitN2(k + "=" + v, '=') == [k, v]
  {
    var parts := SplitN2(k + "=" + v, '=');
    assert '=' in k + "=" + v by {
      assert (k + "=" + v)[|k|] == '=';
    }
    assert |parts| == 2;
    var p0, p1 := parts[0], parts[1];
    assert p0 + "=" + p1 == k + "=" + v;
    FirstSeparatorAt(p0, p1);
    FirstSeparatorAt(k, v);
    assert |p0| == |k|;
    assert p0 == (p0 + "=" + p1)[..|p0|] == k;
    assert p1 == (p0 + "=" + p1)[|p0| + 1..] == v;
  }

  /** The conversion loop as a fold over the elements, defined on the last
      element so that it follows the loop: the first element without `=`
      fails, and a later element overwrites an earlier one with the same key. */
  function ToStringMap(sl: seq<string>): HookResult
    decreases |sl|
  {
    if sl == [] then Converted(map[])
    else Insert(ToStringMap(sl[..|sl| - 1]), sl[|sl| - 1])
  }

  /** One step of the loop: split the element and add it to the map so far. */
  function Insert(acc: HookResult, s: string): HookResult {
    match acc
    case Converted(m) =>
      var parts := SplitN2(s, '=');
      if |parts| != 2 then InvalidFormat(ErrorMessage(s)) else Converted(m[parts[0] := parts[1]])
    case _ => acc
  }

  /** The hook only acts on a string slice decoded into a map with string values. */
  predicate Applies(from: GoType, to: GoType) {
    from.SliceOf? && from.elem.StringType? && to.MapOf? && to.elem.StringType?
  }

  /** What the hook does for given source and target types and data. */
  function Hook(from: GoType, to: GoType, data: Data): HookResult {
    if !Applies(from, to) then Unchanged(data)
    else if !data.StringSlice? then AssertionPanic
    else ToStringMap(data.items)
  }

  /** The hook: pass other types through; otherwise split every element at its
      first `=` and insert it into a fresh map, failing on the first element
      that has no `=`. */
  method StringSliceToStringMapHook(from: GoType, to: GoType, data: Data) returns (r: HookResult)
    ensures r == Hook(from, to, data)
    ensures !Applies(from, to) ==> r == Unchanged(data)
    ensures r.Converted? || r.InvalidFormat? ==> Applies(from, to) && data.StringSlice?
  {
    if !Applies(from, to) {
      return Unchanged(data);
    }
    if !data.StringSlice? {
      return AssertionPanic;
    }
    var sl := data.items;
    var m: map<string, string> := map[];
    var i := 0;
    while i < |sl|
      invariant 0 <= i <= |sl|
      invariant ToStringMap(sl[..i]) == Converted(m)
    {
      var s := sl[i];
      var p := SplitN2(s, '=');
      assert sl[..i + 1][..i] == sl[..i];
      if |p| != 2 {
        FailureIsFinal(sl, i + 1);
        return InvalidFormat(ErrorMessage(s));
      }
      m := m[p[0] := p[1]];
      i := i + 1;
    }
    assert sl[..i] == sl;
    return Converted(m);
  }

  // ---------------------------------------------------------------------
  // Properties of the conversion

  /** The conversion either succeeds with a map or fails on an element. */
  lemma {:induction false} ToStringMapShape(sl: seq<string>)
    ensures ToStringMap(sl).Converted? || ToStringMap(sl).InvalidFormat?
    decreases |sl|
  {
    if sl != [] {
      ToStringMapShape(sl[..|sl| - 1]);
    }
  }

  /** Once a leading part of the input fails, the rest is never examined. */
  lemma {:induction false} FailureIsFinal(sl: seq<string>, n: nat)
    requires n <= |sl| && ToStringMap(sl[..n]).InvalidFormat?
    ensures ToStringMap(sl) == ToStringMap(sl[..n])
    decreases |sl|
  {
    if n < |sl| {
      var init := sl[..|sl| - 1];
      assert init[..n] == sl[..n];
      FailureIsFinal(init, n);
    } else {
      assert sl[..n] == sl;
    }
  }

  /** The conversion succeeds exactly when every element contains `=`. */
  lemma {:induction false} SucceedsIffAllHaveSeparator(sl: seq<string>)
    ensures ToStringMap(sl).Converted? <==> forall i :: 0 <= i < |sl| ==> '=' in sl[i]
    decreases |sl|
  {
    if sl != [] {
      var init := sl[..|sl| - 1];
      SucceedsIffAllHaveSeparator(init);
      ToStringMapShape(init);
      assert forall i :: 0 <= i < |init| ==> init[i] == sl[i];
    }
  }

  /** An element without `=` after a successful prefix fails with its message. */
  lemma MalformedAfterPrefixFails(sl: seq<string>, j: nat)
    requires j < |sl| && '=' !in sl[j] && ToStringMap(sl[..j]).Converted?
    ensures ToStringMap(sl[..j + 1]) == InvalidFormat(ErrorMessage(sl[j]))
  {
    var upTo := sl[..j + 1];
    assert upTo[..j] == sl[..j] && upTo[j] == sl[j];
  }

  /** An element without `=` that follows only well-formed elements is the one
      the error names, whatever comes after it. */
  lemma FirstMalformedElementFails(sl: seq<string>, j: nat)
    requires j < |sl| && '=' !in sl[j]
    requires forall i :: 0 <= i < j ==> '=' in sl[i]
    ensures ToStringMap(sl) == InvalidFormat(ErrorMessage(sl[j]))
  {
    SucceedsIffAllHaveSeparator(sl[..j]);
    MalformedAfterPrefixFails(sl, j);
    FailureIsFinal(sl, j + 1);
  }

  /** A failure always names the first element that has no `=`. */
  lemma {:induction false} FailureNamesFirstMalformed(sl: seq<string>, e: string)
    requires ToStringMap(sl) == InvalidFormat(ErrorMessage(e))
    ensures exists j :: 0 <= j < |sl| && sl[j] == e && '=' !in e &&
                        forall i :: 0 <= i < j ==> '=' in sl[i]
    decreases |sl|
  {
    var init := sl[..|sl| - 1];
    ToStringMapShape(init);
    if ToStringMap(init).InvalidFormat? {
      FailureNamesFirstMalformed(init, e);
      var j :| 0 <= j < |init| && init[j] == e && '=' !in e && forall i :: 0 <= i < j ==> '=' in init[i];
      assert forall i :: 0 <= i <= j ==> sl[i] == init[i];
      assert 0 <= j < |sl| && sl[j] == e && forall i :: 0 <= i < j ==> '=' in sl[i];
    } else {
      SucceedsIffAllHaveSeparator(init);
      var j := |sl| - 1;
      ErrorMessageNamesElement(sl[j], e);
      assert sl[j] == e && '=' !in e;
      assert forall i :: 0 <= i < j ==> sl[i] == init[i];
      assert forall i :: 0 <= i < j ==> '=' in sl[i];
    }
  }

  /** On success the keys are exactly the first-`=` prefixes of the elements;
      in particular an empty input gives an empty map. */
  lemma {:induction false} ConvertedKeys(sl: seq<string>, m: map<string, string>)
    requires ToStringMap(sl) == Converted(m)
    ensures m.Keys == set s | s in sl :: Key(s)
    decreases |sl|
  {
    if sl != [] {
      var init := sl[..|sl| - 1];
      ToStringMapShape(init);
      var m' := ToStringMap(init).m;
      ConvertedKeys(init, m');
      assert sl == init + [sl[|sl| - 1]];
      assert (set s | s in sl :: Key(s)) == (set s | s in init :: Key(s)) + {Key(sl[|sl| - 1])};
    }
  }

  /** Last write wins: each key holds the value of the last element carrying it. */
  lemma {:induction false} LastWriteWins(sl: seq<string>, m: map<string, string>, i: nat)
    requires ToStringMap(sl) == Converted(m)
    requires i < |sl|
    requires forall j :: i < j < |sl| ==> Key(sl[j]) != Key(sl[i])
    ensures '=' in sl[i]
    ensures Key(sl[i]) in m && m[Key(sl[i])] == Value(sl[i])
    decreases |sl|
  {
    var init := sl[..|sl| - 1];
    ToStringMapShape(init);
    SucceedsIffAllHaveSeparator(sl);
    if i < |sl| - 1 {
      LastWriteWins(init, ToStringMap(init).m, i);
    }
  }

  /** Rendering entries of a map as `key=value` elements. */
  function Render(m: map<string, string>, ks: seq<string>): (r: seq<string>)
    requires forall k :: k in ks ==> k in m
    ensures |r| == |ks|
  {
    seq(|ks|, i requires 0 <= i < |ks| => ks[i] + "=" + m[ks[i]])
  }

  /** A map cut down to the keys in a list. */
  function Restrict(m: map<string, string>, ks: seq<string>): (r: map<string, string>)
    requires forall k :: k in ks ==> k in m
    ensures forall k :: k in r <==> k in ks
    ensures forall k :: k in r ==> r[k] == m[k]
    decreases |ks|
  {
    if ks == [] then map[]
    else Restrict(m, ks[..|ks| - 1])[ks[|ks| - 1] := m[ks[|ks| - 1]]]
  }

  /** Decoding the rendering of a map's keys (in any order, repeats allowed)
      gives back the map restricted to those keys, provided no key contains `=`. */
  lemma {:induction false} RenderThenDecode(m: map<string, string>, ks: seq<string>)
    requires forall k :: k in ks ==> k in m && '=' !in k
    ensures ToStringMap(Render(m, ks)) == Converted(Restrict(m, ks))
    decreases |ks|
  {
    if ks != [] {
      var init, last := ks[..|ks| - 1], ks[|ks| - 1];
      RenderOneMore(m, ks);
      RenderThenDecode(m, init);
      SplitRoundTrip(last, m[last]);
      ConvertOneMore(Render(m, init), last + "=" + m[last]);
    }
  }

  /** The rendering of a key list ends with the rendering of its last key. */
  lemma RenderOneMore(m: map<string, string>, ks: seq<string>)
    requires ks != [] && forall k :: k in ks ==> k in m
    ensures Render(m, ks) == Render(m, ks[..|ks| - 1]) + [ks[|ks| - 1] + "=" + m[ks[|ks| - 1]]]
  {
  }

  /** One more well-formed element updates the map built so far. */
  lemma ConvertOneMore(sl: seq<string>, s: string)
    requires ToStringMap(sl).Converted? && '=' in s
    ensures ToStringMap(sl + [s]) == Converted(ToStringMap(sl).m[Key(s) := Value(s)])
  {
    assert (sl + [s])[..|sl|] == sl;
  }

  /** So a map whose keys have no `=` survives being rendered as flags and decoded. */
  lemma MapRoundTrip(m: map<string, string>, ks: seq<string>)
    requires forall k :: k in m ==> '=' !in k
    requires forall k :: k in ks <==> k in m
    ensures ToStringMap(Render(m, ks)) == Converted(m)
  {
    RenderThenDecode(m, ks);
    assert Restrict(m, ks) == m;
  }

  /** The documented cases: an empty input, two keys, last write wins, a
      split at the first `=` only, an empty value, and a malformed element. */
  lemma ExampleTwoKeys()
    ensures ToStringMap([]) == Converted(map[])
    ensures ToStringMap(["a=1", "b=2"]) == Converted(map["a" := "1", "b" := "2"])
  {
    SplitRoundTrip("a", "1");
    SplitRoundTrip("b", "2");
    ConvertOneMore([], "a=1");
    ConvertOneMore(["a=1"], "b=2");
    assert [] + ["a=1"] == ["a=1"] && ["a=1"] + ["b=2"] == ["a=1", "b=2"];
  }

  lemma ExampleLastWins()
    ensures ToStringMap(["a=1", "a=2"]) == Converted(map["a" := "2"])
  {
    SplitRoundTrip("a", "1");
    SplitRoundTrip("a", "2");
    ConvertOneMore([], "a=1");
    ConvertOneMore(["a=1"], "a=2");
    assert [] + ["a=1"] == ["a=1"] && ["a=1"] + ["a=2"] == ["a=1", "a=2"];
  }

  lemma ExampleFirstSeparator()
    ensures ToStringMap(["a=b=c"]) == Converted(map["a" := "b=c"])
    ensures ToStringMap(["a="]) == Converted(map["a" := ""])
  {
    SplitRoundTrip("a", "b=c");
    SplitRoundTrip("a", "");
  }

  lemma ExampleMalformed()
    ensures ToStringMap(["bad"]) == InvalidFormat("Invalid format for input bad")
  {
    assert '=' !in "bad";
  }
}
