/**
 * The persistent key-value store that bound fields write through to
 * (`UserDefaults.standard` in the repository), the layout of its keys
 * and the purge of a composite field's namespace.
 *
 * The store is a flat map from key to value. Every bound field lives
 * under `<owner class>.<name>`; a composite field holds only a presence
 * marker `"<" + child class + ">"` there, while the child's own fields live
 * under the child's class name.
 */
module Defaults {

  /** A value as the store holds it. Doubles are opaque: nothing computes with them. */
  datatype Value = VStr(s: string) | VInt(i: int) | VDbl(d: real) | VBool(b: bool)

  type Entries = map<string, Value>

  /**
   * The store key of field `name` of an object whose dynamic class is `owner`:
   * it lies in the owner's namespace and the label follows the separating dot.
   */
  function StoreKey(owner: string, name: string): (k: string)
    ensures InNamespace(k, owner)
  {
    assert owner + "." + name == (owner + ".") + name;
    owner + "." + name
  }

  /**
   * The presence marker written at a composite field's key while it holds a
   * child: the child's class between angle brackets, so it names that class.
   */
  function Marker(path: string): (m: string)
    ensures |m| == |path| + 2 && m[0] == '<' && m[|m| - 1] == '>' && m[1..|m| - 1] == path
  {
    "<" + path + ">"
  }

  /** `k` lies in the namespace of the class named `path`: it starts with `path + "."`. */
  predicate InNamespace(k: string, path: string)
  {
    path + "." <= k
  }

  /**
   * The store after a composite field whose child class is `path` is set to
   * absent: the field's own key and every key in the child's namespace are gone.
   */
  function Cleared(e: Entries, key: string, path: string): (r: Entries)
    ensures forall k :: k in r ==> k != key && !InNamespace(k, path)
    ensures forall k :: k in e && k != key && !InNamespace(k, path) ==> k in r && r[k] == e[k]
    ensures forall k :: k in r ==> k in e && r[k] == e[k]
  {
    map k | k in e && k != key && !InNamespace(k, path) :: e[k]
  }

  /** Two fields of the same class never share a key. */
  lemma {:induction false} StoreKeyLabelInjective(owner: string, l1: string, l2: string)
    requires StoreKey(owner, l1) == StoreKey(owner, l2)
    ensures l1 == l2
  {
    var k := StoreKey(owner, l1);
    assert k[|owner| + 1..] == l1;
    assert StoreKey(owner, l2)[|owner| + 1..] == l2;
  }

  /** A dot-free label cannot be shorter in one key than in an equal key. */
  lemma {:induction false} DotFreeLabelNotShorter(o1: string, l1: string, o2: string, l2: string)
    requires '.' !in l2
    requires StoreKey(o1, l1) == StoreKey(o2, l2)
    ensures |l2| <= |l1|
  {
    var k := StoreKey(o1, l1);
    assert k[|o1|] == '.';
  }

  /**
   * When labels contain no dot, a key determines both the class and the label:
   * each (class, field) pair has a namespace of its own.
   */
  lemma {:induction false} StoreKeyInjective(o1: string, l1: string, o2: string, l2: string)
    requires '.' !in l1 && '.' !in l2
    requires StoreKey(o1, l1) == StoreKey(o2, l2)
    ensures o1 == o2 && l1 == l2
  {
    DotFreeLabelNotShorter(o1, l1, o2, l2);
    DotFreeLabelNotShorter(o2, l2, o1, l1);
    var k := StoreKey(o1, l1);
    assert o1 == k[..|o1|] == o2;
    assert l1 == k[|o1| + 1..] == l2;
  }

  /** Clearing a composite field removes every field key of the child class. */
  lemma {:induction false} ClearedRemovesChildFields(e: Entries, key: string, path: string, name: string)
    ensures StoreKey(path, name) !in Cleared(e, key, path)
  {
  }

  /**
   * A class whose name lies inside the child's namespace (a type nested in the
   * child's type) loses its field keys too.
   */
  lemma {:induction false} ClearedRemovesNestedFields(e: Entries, key: string, path: string, inner: string, name: string)
    requires InNamespace(inner, path)
    ensures StoreKey(inner, name) !in Cleared(e, key, path)
  {
    var p := path + ".";
    var k := StoreKey(inner, name);
    assert k == inner + ("." + name);
    assert k[..|p|] == inner[..|p|] == p;
    assert InNamespace(k, path);
  }

  /** Clearing twice is clearing once. */
  lemma {:induction false} ClearedIdempotent(e: Entries, key: string, path: string)
    ensures Cleared(Cleared(e, key, path), key, path) == Cleared(e, key, path)
  {
    var once := Cleared(e, key, path);
    var twice := Cleared(once, key, path);
    assert twice.Keys == once.Keys;
  }

  /** The store itself: one flat map, updated in place. */
  class Store {
    var entries: Entries

    constructor (initial: Entries)
      ensures entries == initial
    {
      entries := initial;
    }

    /** `containsKey`: the key has a value. */
    function ContainsKey(key: string): (present: bool)
      reads this
      ensures present <==> key in entries
    {
      key in entries
    }

    /** `setValue(v, forKey: key)` with a value. */
    method Set(key: string, v: Value)
      modifies this
      ensures entries == old(entries)[key := v]
    {
      entries := entries[key := v];
    }

    /** `setValue(nil, forKey: key)`: the key disappears. */
    method Remove(key: string)
      modifies this
      ensures entries == old(entries) - {key}
    {
      entries := entries - {key};
    }

    /**
     * Remove `key`, then every key that starts with `path + "."`, one by one,
     * as the composite write-through does.
     */
    method ClearNamespace(key: string, path: string)
      modifies this
      ensures entries == Cleared(old(entries), key, path)
    {
      Remove(key);
      var doomed := set k | k in entries && InNamespace(k, path);
      ghost var all := doomed;
      while doomed != {}
        invariant doomed <= all
        invariant entries == old(entries) - {key} - (all - doomed)
        decreases doomed
      {
        var k :| k in doomed;
        Remove(k);
        doomed := doomed - {k};
      }
      assert entries.Keys == Cleared(old(entries), key, path).Keys;
    }
  }
}
