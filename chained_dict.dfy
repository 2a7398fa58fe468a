/**
 * `safe_chained_dict_get` from src/dt_logic/validation.py: follow a sequence of
 * keys through nested dictionaries, answering None as soon as a link is missing.
 */
module ChainedDict {
  import opened Wrappers

  /**
   * A Python object as the lookup sees it: `None`, a value that has no `.get`
   * method, or a dictionary whose values are again such objects.
   */
  datatype Obj<K, V> = Null | Scalar(value: V) | Dict(entries: map<K, Obj<K, V>>)

  /** The chain reached an object without a `.get` method (an AttributeError in Python). */
  datatype Fault = NoGetAttribute

  /** `dict.get(k)`: the stored object, or None when the key is absent. */
  function DictGet<K, V>(entries: map<K, Obj<K, V>>, k: K): Obj<K, V> {
    if k in entries then entries[k] else Null
  }

  /** What the lookup answers for `d` and the key chain `keys`. */
  function ChainedGet<K, V>(d: Obj<K, V>, keys: seq<K>): Result<Obj<K, V>, Fault>
    decreases |keys|
  {
    if keys == [] then Success(d)
    else if !d.Dict? then Failure(NoGetAttribute)
    else
      var next := DictGet(d.entries, keys[0]);
      if next.Null? then Success(Null) else ChainedGet(next, keys[1..])
  }

  /**
   * Reference definition: the object reached by subscripting `d[k1][k2]...`,
   * defined only when every key is present in the dictionary it is looked up in.
   */
  function Walk<K, V>(d: Obj<K, V>, keys: seq<K>): Option<Obj<K, V>>
    decreases |keys|
  {
    if keys == [] then Some(d)
    else if d.Dict? && keys[0] in d.entries then Walk(d.entries[keys[0]], keys[1..])
    else None
  }

  /**
   * The loop of the source: rebind the current object key by key and return
   * None at the first missing link. It only reads its argument.
   */
  method SafeChainedDictGet<K, V>(d: Obj<K, V>, args: seq<K>) returns (r: Result<Obj<K, V>, Fault>)
    ensures r == ChainedGet(d, args)
    ensures args == [] ==> r == Success(d)
  {
    var obj := d;
    var i := 0;
    while i < |args|
      invariant 0 <= i <= |args|
      invariant ChainedGet(obj, args[i..]) == ChainedGet(d, args)
      decreases |args| - i
    {
      if !obj.Dict? {
        return Failure(NoGetAttribute);
      }
      obj := DictGet(obj.entries, args[i]);
      if obj.Null? {
        return Success(Null);
      }
      i := i + 1;
    }
    return Success(obj);
  }

  /** When every key is present, the lookup yields the object reached by following them in order. */
  lemma {:induction false} ChainedGetFollowsWalk<K, V>(d: Obj<K, V>, keys: seq<K>)
    requires Walk(d, keys).Some?
    ensures ChainedGet(d, keys) == Success(Walk(d, keys).value)
    decreases |keys|
  {
    if keys != [] {
      var next := d.entries[keys[0]];
      if !next.Null? {
        ChainedGetFollowsWalk(next, keys[1..]);
      }
    }
  }

  /**
   * A missing link, at the first key or at a later one, makes the lookup
   * answer None; a key stored with the value None counts as missing.
   */
  lemma {:induction false} ChainedGetMissingLink<K, V>(d: Obj<K, V>, keys: seq<K>, i: nat, m: map<K, Obj<K, V>>)
    requires i < |keys|
    requires Walk(d, keys[..i]) == Some(Dict(m))
    requires DictGet(m, keys[i]).Null?
    ensures ChainedGet(d, keys) == Success(Null)
    decreases i
  {
    if i > 0 {
      assert keys[..i][1..] == keys[1..][..i - 1];
      var next := d.entries[keys[0]];
      assert !next.Null?;
      ChainedGetMissingLink(next, keys[1..], i - 1, m);
    }
  }

  /** Reaching a non-dictionary before the keys run out raises instead of answering. */
  lemma {:induction false} ChainedGetNoGet<K, V>(d: Obj<K, V>, keys: seq<K>, i: nat, x: Obj<K, V>)
    requires i < |keys|
    requires Walk(d, keys[..i]) == Some(x)
    requires x.Scalar? || (i == 0 && x.Null?)
    ensures ChainedGet(d, keys) == Failure(NoGetAttribute)
    decreases i
  {
    if i > 0 {
      assert keys[..i][1..] == keys[1..][..i - 1];
      var next := d.entries[keys[0]];
      assert !next.Null?;
      ChainedGetNoGet(next, keys[1..], i - 1, x);
    }
  }

  /** A key stored with the value None cannot be told apart from an absent key. */
  lemma StoredNullIsMissing<K, V>(m: map<K, Obj<K, V>>, k: K, rest: seq<K>)
    ensures ChainedGet(Dict(m[k := Null]), [k] + rest) == ChainedGet(Dict(m - {k}), [k] + rest)
    ensures ChainedGet(Dict(m[k := Null]), [k] + rest) == Success(Null)
  {
  }

  /** The three lookups of src/dt_logic_tests/test_utilities.py on `{'a': {'b': {'c': 1}}}`. */
  method UtilitiesExample() returns (abc: Result<Obj<string, int>, Fault>, ac: Result<Obj<string, int>, Fault>, b: Result<Obj<string, int>, Fault>)
    ensures abc == Success(Scalar(1))
    ensures ac == Success(Null)
    ensures b == Success(Null)
  {
    var d: Obj<string, int> := Dict(map["a" := Dict(map["b" := Dict(map["c" := Scalar(1)])])]);
    abc := SafeChainedDictGet(d, ["a", "b", "c"]);
    ac := SafeChainedDictGet(d, ["a", "c"]);
    b := SafeChainedDictGet(d, ["b"]);
  }
}
