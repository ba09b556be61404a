/**
  The configuration as the faucet sees it through node-config: one nested
  JSON-like value. `config.has(p)` and `config.get(p)` split the dotted
  accessor `p` on '.' and walk the nested objects; a walk that leaves the
  objects, or meets a missing key, is `undefined`.
 */
module Config {
  import opened Wrappers
  import opened JsText

  datatype Value = Str(s: string) | Num(n: int) | Obj(fields: map<string, Value>)

  /** The value at `path` below `v`; None where the walk meets a missing key or a non-object. */
  function Lookup(v: Value, path: seq<string>): Option<Value>
    decreases |path|
  {
    if path == [] then Some(v)
    else match v
      case Obj(m) => if path[0] in m then Lookup(m[path[0]], path[1..]) else None
      case _ => None
  }

  /** `config.get(accessor)`, with None for the undefined property on which node-config throws. */
  function Get(cfg: Value, accessor: string): Option<Value>
  {
    Lookup(cfg, Split(accessor, '.'))
  }

  /** `config.has(accessor)`. */
  predicate Has(cfg: Value, accessor: string)
  {
    Get(cfg, accessor).Some?
  }

  /** The names every plain JavaScript object inherits from `Object.prototype`. */
  const ObjectPrototypeMembers: set<string> := {
    "constructor", "__proto__", "__defineGetter__", "__defineSetter__", "__lookupGetter__",
    "__lookupSetter__", "hasOwnProperty", "isPrototypeOf", "propertyIsEnumerable",
    "toLocaleString", "toString", "valueOf"}

  /** A per-chain accessor `Chains.<chain>.<key>` as the source builds it with a template literal. */
  function ChainAccessor(chain: string, key: string): string
  {
    "Chains." + chain + "." + key
  }

  /** For a chain name without '.', the accessor walks `Chains`, the chain, then each segment of `key`. */
  lemma ChainAccessorPath(chain: string, key: seq<string>)
    requires |key| >= 1
    requires '.' !in chain
    requires forall k :: 0 <= k < |key| ==> '.' !in key[k]
    ensures Split(ChainAccessor(chain, Join(key, '.')), '.') == ["Chains", chain] + key
  {
    ChainAccessorSplit(chain, Join(key, '.'));
    SplitJoin(key, '.');
  }

  /** The accessor splits into `Chains`, the chain, and the segments of the key. */
  lemma ChainAccessorSplit(chain: string, key: string)
    requires '.' !in chain
    ensures Split(ChainAccessor(chain, key), '.') == ["Chains", chain] + Split(key, '.')
  {
    var t := chain + ['.'] + key;
    assert ChainAccessor(chain, key) == "Chains" + ['.'] + t;
    assert '.' !in "Chains";
    SplitCons("Chains", '.', t);
    SplitCons(chain, '.', key);
  }

  /** JavaScript's `String(v)`. */
  function ToJsString(v: Value): string
  {
    match v
    case Str(s) => s
    case Num(n) => NumberToString(n)
    case Obj(_) => "[object Object]"
  }

  /**
    The assignment `v[path[0]]...[path[n]] = x` on a plain object, as a new
    value. Every step but the last must reach an object, and the last
    assignment must be made on an object; where it is not, strict-mode
    JavaScript throws a TypeError, here None.
   */
  function SetAt(v: Value, path: seq<string>, x: Value): (r: Option<Value>)
    requires path != []
    ensures r.Some? ==> v.Obj? && r.value.Obj? && r.value.fields.Keys == v.fields.Keys + {path[0]}
    decreases |path|
  {
    match v
    case Obj(m) =>
      if |path| == 1 then Some(Obj(m[path[0] := x]))
      else if path[0] in m then
        match SetAt(m[path[0]], path[1..], x)
        case Some(w) => Some(Obj(m[path[0] := w]))
        case None => None
      else None
    case _ => None
  }

  predicate IsPrefix(p: seq<string>, q: seq<string>) {
    |p| <= |q| && q[..|p|] == p
  }

  predicate IsObject(v: Option<Value>) {
    v.Some? && v.value.Obj?
  }

  /** The assignment succeeds exactly when the path without its last key leads to an object. */
  lemma {:induction false} SetAtDefined(v: Value, path: seq<string>, x: Value)
    requires path != []
    ensures SetAt(v, path, x).Some? <==> IsObject(Lookup(v, path[..|path| - 1]))
    decreases |path|
  {
    if |path| > 1 && v.Obj? && path[0] in v.fields {
      SetAtDefined(v.fields[path[0]], path[1..], x);
      assert path[1..][..|path[1..]| - 1] == path[..|path| - 1][1..];
    }
  }

  /** After the assignment, the value at the path is `x`, and below it lies what lies below `x`. */
  lemma {:induction false} SetAtBelow(v: Value, path: seq<string>, x: Value, rest: seq<string>)
    requires path != []
    requires SetAt(v, path, x).Some?
    ensures Lookup(SetAt(v, path, x).value, path + rest) == Lookup(x, rest)
    decreases |path|
  {
    var m := v.fields;
    var w := SetAt(v, path, x).value;
    assert (path + rest)[0] == path[0];
    assert (path + rest)[1..] == path[1..] + rest;
    if |path| == 1 {
      assert path[1..] + rest == rest;
    } else {
      SetAtBelow(m[path[0]], path[1..], x, rest);
    }
  }

  /** The assignment leaves every path that neither lies on the assigned path nor below it unchanged. */
  lemma {:induction false} SetAtFrame(v: Value, path: seq<string>, x: Value, q: seq<string>)
    requires path != []
    requires SetAt(v, path, x).Some?
    requires !IsPrefix(q, path) && !IsPrefix(path, q)
    ensures Lookup(SetAt(v, path, x).value, q) == Lookup(v, q)
    decreases |path|
  {
    var m := v.fields;
    var w := SetAt(v, path, x).value;
    assert q != [];
    var child := if |path| == 1 then x else SetAt(m[path[0]], path[1..], x).value;
    assert w == Obj(m[path[0] := child]);
    if q[0] != path[0] {
      assert q[0] in w.fields <==> q[0] in m;
    } else {
      assert |path| > 1;
      assert !IsPrefix(q[1..], path[1..]);
      assert !IsPrefix(path[1..], q[1..]);
      SetAtFrame(m[path[0]], path[1..], x, q[1..]);
    }
  }
}
