/**
 * A URL query string as the core builds it: a list of `key=value` parameters joined
 * with `&`. `Key`, `Value` and `ValuesOf` read a parameter list back the way a server
 * does, so that properties of a serialiser can be stated per parameter name.
 */
module QueryString {
  import opened Text

  /** Where the pieces of `a + [x] + b + c` sit. */
  lemma PiecesOfAppend(a: seq<string>, x: string, b: seq<string>, c: seq<string>)
    ensures (a + [x] + b + c)[|a|] == x
    ensures (a + [x] + b + c)[|a| + 1..|a| + 1 + |b|] == b
  {
  }

  /** One `key=value` parameter. */
  function Param(key: string, value: string): string {
    key + "=" + value
  }

  /** The name of a parameter: its text before the first `=`. */
  function Key(p: string): string {
    p[..IndexOf(p, '=')]
  }

  /** The value of a parameter: its text after the first `=` (empty when there is none). */
  function Value(p: string): string {
    var i := IndexOf(p, '=');
    if i < |p| then p[i + 1..] else ""
  }

  /** A parameter reads back as the name and the value it was built from. */
  lemma ParamKeyValue(key: string, value: string)
    requires '=' !in key
    ensures Key(Param(key, value)) == key
    ensures Value(Param(key, value)) == value
  {
    IndexOfAfter(key, '=', value);
    assert Param(key, value) == key + ['='] + value;
  }

  /** The values of the parameters named `key`, in list order. */
  function ValuesOf(ps: seq<string>, key: string): (vs: seq<string>)
    ensures |vs| <= |ps|
  {
    if ps == [] then []
    else (if Key(ps[0]) == key then [Value(ps[0])] else []) + ValuesOf(ps[1..], key)
  }

  lemma {:induction false} ValuesOfAppend(a: seq<string>, b: seq<string>, key: string)
    ensures ValuesOf(a + b, key) == ValuesOf(a, key) + ValuesOf(b, key)
  {
    if a == [] {
      assert a + b == b;
    } else {
      var ab := a + b;
      assert ab != [] && ab[0] == a[0];
      assert ab[1..] == a[1..] + b;
      ValuesOfAppend(a[1..], b, key);
      assert ValuesOf(ab, key) == (if Key(a[0]) == key then [Value(a[0])] else []) + ValuesOf(a[1..] + b, key);
    }
  }

  /** `f` applied to every element, in order (LINQ `Select`). */
  function MapEach(f: string -> string, xs: seq<string>): (ys: seq<string>)
    ensures |ys| == |xs|
    ensures forall i :: 0 <= i < |xs| ==> ys[i] == f(xs[i])
  {
    if xs == [] then [] else [f(xs[0])] + MapEach(f, xs[1..])
  }

  /** `key=v` for every value `v`, in order. */
  function Params(key: string, values: seq<string>): (ps: seq<string>)
    ensures |ps| == |values|
    ensures forall i :: 0 <= i < |values| ==> ps[i] == Param(key, values[i])
  {
    if values == [] then [] else [Param(key, values[0])] + Params(key, values[1..])
  }

  /** Extending the encoded prefix by one element appends one parameter. */
  lemma ParamsPrefixStep(key: string, f: string -> string, xs: seq<string>, i: nat)
    requires i < |xs|
    ensures Params(key, MapEach(f, xs[..i + 1])) == Params(key, MapEach(f, xs[..i])) + [Param(key, f(xs[i]))]
  {
    var a := Params(key, MapEach(f, xs[..i + 1]));
    var b := Params(key, MapEach(f, xs[..i])) + [Param(key, f(xs[i]))];
    assert |a| == |b|;
    forall j | 0 <= j < |a|
      ensures a[j] == b[j]
    {
      if j < i {
        assert xs[..i + 1][j] == xs[..i][j];
      }
    }
  }

  /** The empty prefix gives no parameters. */
  lemma ParamsEmptyPrefix(key: string, f: string -> string, xs: seq<string>)
    ensures Params(key, MapEach(f, xs[..0])) == []
  {
    assert xs[..0] == [];
  }

  /** The whole list is the prefix of full length. */
  lemma ParamsFullPrefix(key: string, f: string -> string, xs: seq<string>)
    ensures Params(key, MapEach(f, xs[..|xs|])) == Params(key, MapEach(f, xs))
  {
    assert xs[..|xs|] == xs;
  }

  /** Appends `key=f(v)` for each value `v`, in order: the `foreach` that adds repeated parameters. */
  method AppendParams(parameters: seq<string>, key: string, f: string -> string, values: seq<string>)
    returns (result: seq<string>)
    ensures result == parameters + Params(key, MapEach(f, values))
  {
    result := parameters;
    ParamsEmptyPrefix(key, f, values);
    for i := 0 to |values|
      invariant result == parameters + Params(key, MapEach(f, values[..i]))
    {
      ParamsPrefixStep(key, f, values, i);
      result := result + [Param(key, f(values[i]))];
    }
    ParamsFullPrefix(key, f, values);
  }

  /** A single parameter contributes its value to its own name and to no other. */
  lemma ValuesOfParam(key: string, value: string, k: string)
    requires '=' !in key
    ensures ValuesOf([Param(key, value)], k) == if key == k then [value] else []
  {
    ParamKeyValue(key, value);
    assert [Param(key, value)][1..] == [];
  }

  /** A parameter that is sent only when `present` holds. */
  function Optional(present: bool, key: string, value: string): seq<string> {
    if present then [Param(key, value)] else []
  }

  /** An optional parameter contributes its value to its own name, and only when present. */
  lemma ValuesOfOptional(present: bool, key: string, value: string, k: string)
    requires '=' !in key
    ensures ValuesOf(Optional(present, key, value), k) == if present && key == k then [value] else []
  {
    if present {
      ValuesOfParam(key, value, k);
    }
  }

  /** Two optional parameters contribute their values in order. */
  lemma ValuesOfTwoOptional(p1: bool, k1: string, v1: string, p2: bool, k2: string, v2: string, k: string)
    requires '=' !in k1 && '=' !in k2
    ensures ValuesOf(Optional(p1, k1, v1) + Optional(p2, k2, v2), k)
         == (if p1 && k1 == k then [v1] else []) + (if p2 && k2 == k then [v2] else [])
  {
    ValuesOfAppend(Optional(p1, k1, v1), Optional(p2, k2, v2), k);
    ValuesOfOptional(p1, k1, v1, k);
    ValuesOfOptional(p2, k2, v2, k);
  }

  /** Two parameters and an optional third contribute their values in order. */
  lemma ValuesOfTwoThenOptional(k1: string, v1: string, k2: string, v2: string, p: bool, k3: string, v3: string, k: string)
    requires '=' !in k1 && '=' !in k2 && '=' !in k3
    ensures ValuesOf([Param(k1, v1), Param(k2, v2)] + Optional(p, k3, v3), k)
         == (if k1 == k then [v1] else []) + (if k2 == k then [v2] else []) + (if p && k3 == k then [v3] else [])
  {
    var a, b := Param(k1, v1), Param(k2, v2);
    assert [a, b] == [a] + [b];
    ValuesOfAppend([a, b], Optional(p, k3, v3), k);
    ValuesOfAppend([a], [b], k);
    ValuesOfParam(k1, v1, k);
    ValuesOfParam(k2, v2, k);
    ValuesOfOptional(p, k3, v3, k);
  }

  /** Three parameters contribute their values in order. */
  lemma ValuesOfThreeParams(k1: string, v1: string, k2: string, v2: string, k3: string, v3: string, k: string)
    requires '=' !in k1 && '=' !in k2 && '=' !in k3
    ensures ValuesOf([Param(k1, v1), Param(k2, v2), Param(k3, v3)], k)
         == (if k1 == k then [v1] else []) + (if k2 == k then [v2] else []) + (if k3 == k then [v3] else [])
  {
    var a, b, c := Param(k1, v1), Param(k2, v2), Param(k3, v3);
    assert [a, b, c] == [a] + [b] + [c];
    ValuesOfAppend([a] + [b], [c], k);
    ValuesOfAppend([a], [b], k);
    ValuesOfParam(k1, v1, k);
    ValuesOfParam(k2, v2, k);
    ValuesOfParam(k3, v3, k);
  }

  /** A flag parameter followed by a run of parameters with one name. */
  lemma ValuesOfParamThenParams(k1: string, v1: string, k2: string, values: seq<string>, k: string)
    requires '=' !in k1 && '=' !in k2
    ensures ValuesOf([Param(k1, v1)] + Params(k2, values), k)
         == (if k1 == k then [v1] else []) + (if k2 == k then values else [])
  {
    ValuesOfAppend([Param(k1, v1)], Params(k2, values), k);
    ValuesOfParam(k1, v1, k);
    ValuesOfParams(k2, values, k);
  }

  /** A run of parameters with one name contributes exactly its values, in order, to that name. */
  lemma {:induction false} ValuesOfParams(key: string, values: seq<string>, k: string)
    requires '=' !in key
    ensures ValuesOf(Params(key, values), k) == if key == k then values else []
  {
    if values != [] {
      var ps := Params(key, values);
      assert ps == [Param(key, values[0])] + Params(key, values[1..]);
      ValuesOfAppend([Param(key, values[0])], Params(key, values[1..]), k);
      ValuesOfParam(key, values[0], k);
      ValuesOfParams(key, values[1..], k);
      assert [values[0]] + values[1..] == values;
    }
  }

  /** No parameter of `ps` holds the character `c`. */
  predicate NoneContains(ps: seq<string>, c: char) {
    forall k :: 0 <= k < |ps| ==> c !in ps[k]
  }

  lemma NoneContainsAppend(a: seq<string>, b: seq<string>, c: char)
    requires NoneContains(a, c) && NoneContains(b, c)
    ensures NoneContains(a + b, c)
  {
    forall k | 0 <= k < |a + b|
      ensures c !in (a + b)[k]
    {
      if k < |a| {
        assert (a + b)[k] == a[k];
      } else {
        assert (a + b)[k] == b[k - |a|];
      }
    }
  }

  /** A parameter holds a character only when its name or its value does. */
  lemma ParamNotContains(key: string, value: string, c: char)
    requires c != '=' && c !in key && c !in value
    ensures c !in Param(key, value)
  {
  }

  lemma OptionalNoneContains(present: bool, key: string, value: string, c: char)
    requires c != '=' && c !in key && c !in value
    ensures NoneContains(Optional(present, key, value), c)
  {
    ParamNotContains(key, value, c);
  }

  lemma ParamsNoneContains(key: string, values: seq<string>, c: char)
    requires c != '=' && c !in key && NoneContains(values, c)
    ensures NoneContains(Params(key, values), c)
  {
    forall k | 0 <= k < |values|
      ensures c !in Params(key, values)[k]
    {
      ParamNotContains(key, values[k], c);
    }
  }

  /** A query string splits back into its parameters when none of them holds an `&`. */
  lemma QuerySplitsBack(ps: seq<string>)
    requires |ps| >= 1
    requires NoneContains(ps, '&')
    ensures Split(Join("&", ps), '&') == ps
  {
    assert "&" == ['&'];
    SplitJoin(ps, '&');
  }
}
