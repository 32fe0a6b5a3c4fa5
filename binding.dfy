/**
 * What a binding is, independent of the object that owns it: the field
 * kinds the dispatch recognises, the values a field holds, how a stored
 * value hydrates a field, how an assignment writes through to the store,
 * and the table of subscriptions with its "one live subscription per
 * label" invariant.
 */
module Binding {
  import opened Defaults

  datatype Option<T> = None | Some(value: T)

  /**
   * The declared type of a bound field, resolved once at bind time:
   * `String`, `String?`, `Int`, `Double`, `Bool`, a bound-object class `cls`
   * (by its fully-qualified name), an optional one, or anything else.
   */
  datatype FieldKind =
    | Str
    | OptStr
    | Int
    | Dbl
    | Bool
    | Composite(cls: string)
    | OptComposite(cls: string)
    | Unsupported

  predicate IsScalar(k: FieldKind)
  {
    k.Str? || k.OptStr? || k.Int? || k.Dbl? || k.Bool?
  }

  predicate IsComposite(k: FieldKind)
  {
    k.Composite? || k.OptComposite?
  }

  /** The value a field holds. A composite field holds a reference to its child, or null. */
  datatype FieldValue =
    | StrVal(s: string)
    | OptStrVal(o: Option<string>)
    | IntVal(i: int)
    | DblVal(d: real)
    | BoolVal(b: bool)
    | ObjVal(child: object?)

  /** `v` is a value of a field declared with kind `k` (the Swift type system guarantees it). */
  predicate Fits(k: FieldKind, v: FieldValue)
  {
    match k
    case Str => v.StrVal?
    case OptStr => v.OptStrVal?
    case Int => v.IntVal?
    case Dbl => v.DblVal?
    case Bool => v.BoolVal?
    case Composite(_) => v.ObjVal? && v.child != null
    case OptComposite(_) => v.ObjVal?
    case Unsupported => false
  }

  /**
   * The value a scalar field takes when it is hydrated from stored value `v`.
   * A stored value of another type reads as the type's default, and a
   * non-optional string falls back to "".
   */
  function Hydrated(k: FieldKind, v: Value): (r: FieldValue)
    requires IsScalar(k)
    ensures Fits(k, r)
  {
    match k
    case Str => StrVal(if v.VStr? then v.s else "")
    case OptStr => OptStrVal(if v.VStr? then Some(v.s) else None)
    case Int => IntVal(if v.VInt? then v.i else 0)
    case Dbl => DblVal(if v.VDbl? then v.d else 0.0)
    case Bool => BoolVal(if v.VBool? then v.b else false)
    case _ => BoolVal(false)
  }

  /** The store after a scalar write-through of `v` at `key`; an absent `String?` removes the key. */
  function Written(e: Entries, key: string, v: FieldValue): (r: Entries)
    requires !v.ObjVal?
    ensures key in r <==> v != OptStrVal(None)
    ensures forall k :: k != key ==> (k in r <==> k in e) && (k in r ==> r[k] == e[k])
  {
    match v
    case StrVal(s) => e[key := VStr(s)]
    case OptStrVal(o) => if o.Some? then e[key := VStr(o.value)] else e - {key}
    case IntVal(i) => e[key := VInt(i)]
    case DblVal(d) => e[key := VDbl(d)]
    case BoolVal(b) => e[key := VBool(b)]
  }

  /**
   * The store after a composite write-through: a present child puts the
   * marker of class `path` at `key`; an absent one clears `key` and the
   * child's namespace.
   */
  function CompositeWritten(e: Entries, key: string, path: string, present: bool): (r: Entries)
    ensures present ==> key in r && r[key] == VStr(Marker(path))
    ensures !present ==> key !in r && forall k :: k in r ==> !InNamespace(k, path)
    ensures forall k :: k != key && (present || !InNamespace(k, path)) ==> (k in r <==> k in e) && (k in r ==> r[k] == e[k])
  {
    if present then e[key := VStr(Marker(path))] else Cleared(e, key, path)
  }

  /** One live observer of one field: its label, kind, store key and whether it still fires. */
  datatype Subscription = Subscription(name: string, kind: FieldKind, key: string, active: bool)

  /**
   * The store after subscription `s` fires with the field's new value `v`. It
   * changes no key other than its own, except that a composite clear also
   * clears the child's namespace.
   */
  function WriteThrough(e: Entries, s: Subscription, v: FieldValue): (r: Entries)
    requires Fits(s.kind, v)
    ensures forall k :: k != s.key && !(IsComposite(s.kind) && v.child == null && InNamespace(k, s.kind.cls)) ==>
              (k in r <==> k in e) && (k in e ==> r[k] == e[k])
  {
    if IsComposite(s.kind) then CompositeWritten(e, s.key, s.kind.cls, v.child != null)
    else Written(e, s.key, v)
  }

  /**
   * Round trip through the store: after a scalar write-through, hydrating a
   * field of the same kind from the store gives back the value written; an
   * absent `String?` leaves no key, so the field keeps its default (nil).
   */
  lemma ScalarRoundTrip(e: Entries, key: string, k: FieldKind, v: FieldValue)
    requires IsScalar(k) && Fits(k, v)
    ensures v != OptStrVal(None) ==> key in Written(e, key, v) && Hydrated(k, Written(e, key, v)[key]) == v
    ensures v == OptStrVal(None) <==> key !in Written(e, key, v)
  {
  }

  /**
   * Assigning the same value twice leaves the store where one assignment
   * left it: the store reaches a fixed point.
   */
  lemma {:induction false} WriteThroughIdempotent(e: Entries, s: Subscription, v: FieldValue)
    requires Fits(s.kind, v)
    ensures WriteThrough(WriteThrough(e, s, v), s, v) == WriteThrough(e, s, v)
  {
    if IsComposite(s.kind) && v.child == null {
      ClearedIdempotent(e, s.key, s.kind.cls);
    }
  }

  /** For a scalar field the last assignment wins: earlier values leave no trace. */
  lemma {:induction false} ScalarLastWriteWins(e: Entries, s: Subscription, v1: FieldValue, v2: FieldValue)
    requires IsScalar(s.kind) && Fits(s.kind, v1) && Fits(s.kind, v2)
    ensures WriteThrough(WriteThrough(e, s, v1), s, v2) == WriteThrough(e, s, v2)
  {
    var mid := WriteThrough(e, s, v1);
    assert mid - {s.key} == e - {s.key};
  }

  /**
   * The composite marker round trip: a present child leaves the marker at the
   * field's key, which is what the next binding of an optional composite
   * looks for; clearing removes it together with every field key of the
   * child's class.
   */
  lemma {:induction false} CompositeMarkerRoundTrip(e: Entries, s: Subscription, v: FieldValue, childField: string)
    requires IsComposite(s.kind) && Fits(s.kind, v)
    ensures v.child != null ==> s.key in WriteThrough(e, s, v) && WriteThrough(e, s, v)[s.key] == VStr(Marker(s.kind.cls))
    ensures v.child == null ==> s.key !in WriteThrough(e, s, v)
    ensures v.child == null ==> StoreKey(s.kind.cls, childField) !in WriteThrough(e, s, v)
  {
    if v.child == null {
      ClearedRemovesChildFields(e, s.key, s.kind.cls, childField);
    }
  }

  /**
   * The binding table: `table` maps a label to the index in `subs` of the
   * subscription stored for it, and every subscription still able to fire is
   * the one its label's entry points at.
   */
  ghost predicate TableInvariant(subs: seq<Subscription>, table: map<string, nat>)
  {
    && (forall l :: l in table ==> table[l] < |subs| && subs[table[l]].name == l)
    && (forall i :: 0 <= i < |subs| && subs[i].active ==> subs[i].name in table && table[subs[i].name] == i)
  }

  /** `cancellables[label]?.cancel()`: the entry stays, its subscription stops firing. */
  function CancelAt(subs: seq<Subscription>, table: map<string, nat>, name: string): (r: seq<Subscription>)
    ensures |r| == |subs|
    ensures forall i :: 0 <= i < |subs| ==> r[i] in {subs[i], subs[i].(active := false)}
    ensures forall i :: 0 <= i < |subs| ==> (r[i].active <==> subs[i].active && !(name in table && table[name] == i))
  {
    if name in table && table[name] < |subs| then subs[table[name] := subs[table[name]].(active := false)] else subs
  }

  /** Cancelling a label keeps the invariant and leaves no subscription of that label able to fire. */
  lemma CancelAtSpec(subs: seq<Subscription>, table: map<string, nat>, name: string)
    requires TableInvariant(subs, table)
    ensures TableInvariant(CancelAt(subs, table, name), table)
    ensures |CancelAt(subs, table, name)| == |subs|
    ensures forall i :: 0 <= i < |subs| ==> CancelAt(subs, table, name)[i] in {subs[i], subs[i].(active := false)}
    ensures forall i :: 0 <= i < |subs| && subs[i].name == name ==> !CancelAt(subs, table, name)[i].active
    ensures forall i :: 0 <= i < |subs| && subs[i].name != name ==> CancelAt(subs, table, name)[i] == subs[i]
  {
  }

  /**
   * Re-binding a label cancels its old subscription before storing the new
   * one: afterwards the new subscription is the only one of that label able
   * to fire.
   */
  lemma {:induction false} RebindLeavesOneLive(subs: seq<Subscription>, table: map<string, nat>, s: Subscription)
    requires TableInvariant(subs, table)
    ensures TableInvariant(CancelAt(subs, table, s.name) + [s], table[s.name := |subs|])
    ensures forall i :: 0 <= i < |subs| && subs[i].name == s.name ==> !(CancelAt(subs, table, s.name) + [s])[i].active
  {
    CancelAtSpec(subs, table, s.name);
    var subs' := CancelAt(subs, table, s.name) + [s];
    var table' := table[s.name := |subs|];
    forall i | 0 <= i < |subs'| && subs'[i].active
      ensures subs'[i].name in table' && table'[subs'[i].name] == i
    {
      if i < |subs| {
        assert subs'[i] == CancelAt(subs, table, s.name)[i];
      }
    }
  }

  /**
   * The table invariant depends on that cancel: with every subscription kept
   * in `subs`, storing a new live one for a label whose old one is still
   * live leaves two live subscriptions for the label.
   */
  lemma RebindWithoutCancelDuplicates(subs: seq<Subscription>, table: map<string, nat>, s: Subscription)
    requires TableInvariant(subs, table)
    requires s.active && s.name in table && subs[table[s.name]].active
    ensures !TableInvariant(subs + [s], table[s.name := |subs|])
  {
    var i := table[s.name];
    assert (subs + [s])[i] == subs[i];
  }

  /** Cancel the labels `names` in order, as `cancelBinds` does. */
  function CancelEach(subs: seq<Subscription>, table: map<string, nat>, names: seq<string>): (r: seq<Subscription>)
    ensures |r| == |subs|
    ensures forall i :: 0 <= i < |subs| ==> r[i] in {subs[i], subs[i].(active := false)}
    ensures forall i :: 0 <= i < |subs| && r[i].active ==> subs[i].active
  {
    if names == [] then subs
    else CancelAt(CancelEach(subs, table, names[..|names| - 1]), table, names[|names| - 1])
  }

  /**
   * After `cancelBinds(names)`, no subscription of a listed label fires and
   * every other subscription is as it was.
   */
  lemma {:induction false} CancelEachSpec(subs: seq<Subscription>, table: map<string, nat>, names: seq<string>)
    requires TableInvariant(subs, table)
    ensures TableInvariant(CancelEach(subs, table, names), table)
    ensures |CancelEach(subs, table, names)| == |subs|
    ensures forall i :: 0 <= i < |subs| ==> CancelEach(subs, table, names)[i] in {subs[i], subs[i].(active := false)}
    ensures forall i :: 0 <= i < |subs| && subs[i].name in names ==> !CancelEach(subs, table, names)[i].active
    ensures forall i :: 0 <= i < |subs| && subs[i].name !in names ==> CancelEach(subs, table, names)[i] == subs[i]
  {
    if names != [] {
      var init := names[..|names| - 1];
      CancelEachSpec(subs, table, init);
      CancelAtSpec(CancelEach(subs, table, init), table, names[|names| - 1]);
      assert forall l :: l in names <==> l in init || l == names[|names| - 1];
    }
  }
}
