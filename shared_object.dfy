/**
 * The bound object (`ObjcSharedObject`): a class whose declared fields write
 * every change through to the store and hydrate from it when an object is
 * built. `withRegistry` switches the liveness registry on (the packaged
 * class and the root `ObjcSharedObject.swift`) or off (the two older
 * snapshots, `ObjcUserDefaults.swift` and `ObjcUserDefault.swift`).
 */
module SharedObjects {
  import opened Defaults
  import opened Registry
  import opened Binding

  /** The failing assertions of the source, as errors. */
  datatype Error =
    | UnsupportedFieldType(name: string)
    | OverlappingLiveInstance(cls: string)

  datatype Outcome = Pass | Fail(error: Error)

  /** One call in the body of a class's `bind()` override: `bindPart(self, [...])` or `bind(label, keyPath)`. */
  datatype BindCall =
    | BindPartCall(part: map<string, FieldKind>)
    | BindCallOne(name: string, kind: FieldKind)

  /** A bound class: the initial values of its fields and the body of its `bind()`. */
  datatype ClassDecl = ClassDecl(defaults: map<string, FieldValue>, binds: seq<BindCall>)

  /** The bound classes of a program, by fully-qualified name. */
  type Schema = map<string, ClassDecl>

  /** A class missing from the schema keeps the empty `bind()` of the base class. */
  function Decl(schema: Schema, cls: string): ClassDecl
  {
    if cls in schema then schema[cls] else ClassDecl(map[], [])
  }

  /** The dispatch accepts the call: `bindPart` only scalar kinds, `bind` scalar or composite kinds. */
  predicate CallSupported(c: BindCall)
  {
    match c
    case BindPartCall(part) => forall l :: l in part ==> IsScalar(part[l])
    case BindCallOne(_, k) => k != Unsupported
  }

  ghost predicate AllSupported(schema: Schema)
  {
    forall c, i :: c in schema && 0 <= i < |schema[c].binds| ==> CallSupported(schema[c].binds[i])
  }

  /** Hydrating an optional composite of kind `k` constructs a class ranked below `r`. */
  predicate KindBelow(k: FieldKind, rank: map<string, nat>, r: nat)
  {
    k.OptComposite? ==> k.cls in rank && rank[k.cls] < r
  }

  predicate CallBelow(c: BindCall, rank: map<string, nat>, r: nat)
  {
    c.BindCallOne? ==> KindBelow(c.kind, rank, r)
  }

  /** The schema's optional composites never lead back to a class already being built. */
  ghost predicate Ranked(schema: Schema, rank: map<string, nat>)
  {
    forall c, i :: c in schema && 0 <= i < |schema[c].binds| ==> c in rank && CallBelow(schema[c].binds[i], rank, rank[c])
  }

  /**
   * Building `cls` against the store contents `entries` nests at most `fuel`
   * constructions: every `bind` call of an optional composite whose key is
   * stored may build the wrapped class, which must in turn finish within
   * one less.
   */
  ghost predicate HydratesWithin(schema: Schema, cls: string, entries: Entries, fuel: nat)
    decreases fuel
  {
    forall i :: 0 <= i < |Decl(schema, cls).binds| && MayHydrate(cls, Decl(schema, cls).binds[i], entries) ==>
      fuel > 0 && HydratesWithin(schema, Decl(schema, cls).binds[i].kind.cls, entries, fuel - 1)
  }

  /** A call of `cls`'s `bind()` that builds a child when its label is not yet bound. */
  predicate MayHydrate(cls: string, c: BindCall, entries: Entries)
  {
    c.BindCallOne? && c.kind.OptComposite? && StoreKey(cls, c.name) in entries
  }

  /** In a ranked schema, hydration nests no deeper than the class's rank, whatever the store holds. */
  lemma {:induction false} RankedHydratesWithin(schema: Schema, rank: map<string, nat>, cls: string, entries: Entries, fuel: nat)
    requires Ranked(schema, rank) && cls in rank && rank[cls] <= fuel
    ensures HydratesWithin(schema, cls, entries, fuel)
    decreases fuel
  {
    forall i | 0 <= i < |Decl(schema, cls).binds| && MayHydrate(cls, Decl(schema, cls).binds[i], entries)
      ensures fuel > 0 && HydratesWithin(schema, Decl(schema, cls).binds[i].kind.cls, entries, fuel - 1)
    {
      var c := Decl(schema, cls).binds[i];
      assert cls in schema;
      assert CallBelow(c, rank, rank[cls]);
      RankedHydratesWithin(schema, rank, c.kind.cls, entries, fuel - 1);
    }
  }

  /** The kind each label ends up bound with after a sequence of bind calls. */
  function BoundKinds(binds: seq<BindCall>): map<string, FieldKind>
  {
    if binds == [] then map[] else Extend(BoundKinds(binds[..|binds| - 1]), binds[|binds| - 1])
  }

  /** The labels' kinds after one more bind call. */
  function Extend(kinds: map<string, FieldKind>, c: BindCall): map<string, FieldKind>
  {
    match c
    case BindPartCall(part) => kinds + part
    case BindCallOne(n, k) => kinds[n := k]
  }

  /** The kind each label was first bound with by a sequence of bind calls: the binding that may hydrate it. */
  function FirstKinds(binds: seq<BindCall>): map<string, FieldKind>
  {
    if binds == [] then map[] else First(FirstKinds(binds[..|binds| - 1]), binds[|binds| - 1])
  }

  /** The first kinds after one more bind call: a label already bound keeps its first kind. */
  function First(first: map<string, FieldKind>, c: BindCall): map<string, FieldKind>
  {
    match c
    case BindPartCall(part) => part + first
    case BindCallOne(n, k) => if n in first then first else first[n := k]
  }

  /** The kinds whose binding may assign the field: scalars and optional composites, never a non-optional composite. */
  predicate Hydrates(k: FieldKind)
  {
    IsScalar(k) || k.OptComposite?
  }

  /** `v` holds a bound object of class `cls`. */
  predicate HoldsChild(v: FieldValue, cls: string)
  {
    v.ObjVal? && v.child is SharedObject && (v.child as SharedObject).className == cls
  }

  /**
   * The fields after binding: every label first bound with a scalar kind,
   * without an entry in `table0` and with its key in the store, holds its
   * hydrated stored value; one first bound with an optional composite kind
   * holds a child of the unwrapped class; every other field (a non-optional
   * composite among them) keeps its value from `fields0`.
   */
  ghost predicate FieldsHydrated(owner: string, table0: map<string, nat>, first: map<string, FieldKind>, entries: Entries,
                                 fields0: map<string, FieldValue>, fields1: map<string, FieldValue>)
  {
    && (forall l :: l in fields0 ==> l in fields1)
    && (forall l :: l in first && IsScalar(first[l]) && l !in table0 && StoreKey(owner, l) in entries ==>
          l in fields1 && fields1[l] == Hydrated(first[l], entries[StoreKey(owner, l)]))
    && (forall l :: l in first && first[l].OptComposite? && l !in table0 && StoreKey(owner, l) in entries ==>
          l in fields1 && HoldsChild(fields1[l], first[l].cls))
    && (forall l :: l in fields0 && !(l in first && Hydrates(first[l]) && l !in table0 && StoreKey(owner, l) in entries) ==>
          fields1[l] == fields0[l])
  }

  /** Binding adds no field: every field after it was there before or was hydrated by its first binding. */
  ghost predicate FieldsWithin(owner: string, table0: map<string, nat>, first: map<string, FieldKind>, entries: Entries,
                               fields0: map<string, FieldValue>, fields1: map<string, FieldValue>)
  {
    forall l :: l in fields1 ==> l in fields0 || (l in first && Hydrates(first[l]) && l !in table0 && StoreKey(owner, l) in entries)
  }

  lemma FieldsWithinPart(owner: string, table0: map<string, nat>, first: map<string, FieldKind>, part: map<string, FieldKind>,
                         entries: Entries, fields0: map<string, FieldValue>,
                         tableA: map<string, nat>, fieldsA: map<string, FieldValue>, fieldsB: map<string, FieldValue>)
    requires tableA.Keys == table0.Keys + first.Keys
    requires FieldsWithin(owner, table0, first, entries, fields0, fieldsA)
    requires PartFields(owner, part, part.Keys, entries, tableA, fieldsA, fieldsB)
    ensures FieldsWithin(owner, table0, First(first, BindPartCall(part)), entries, fields0, fieldsB)
  {
    forall l | l in fieldsB && l !in fieldsA
      ensures l in part + first && Hydrates((part + first)[l]) && l !in table0 && StoreKey(owner, l) in entries
    {
      assert HydratesAt(owner, part, entries, tableA, l);
    }
  }

  lemma FieldsWithinOne(owner: string, table0: map<string, nat>, first: map<string, FieldKind>, n: string, k: FieldKind,
                        entries: Entries, fields0: map<string, FieldValue>,
                        tableA: map<string, nat>, fieldsA: map<string, FieldValue>, fieldsB: map<string, FieldValue>)
    requires tableA.Keys == table0.Keys + first.Keys
    requires FieldsWithin(owner, table0, first, entries, fields0, fieldsA)
    requires FieldsAfterBind(owner, n, k, entries, tableA, fieldsA, fieldsB)
    ensures FieldsWithin(owner, table0, First(first, BindCallOne(n, k)), entries, fields0, fieldsB)
  {
  }

  lemma FieldsHydratedPart(owner: string, table0: map<string, nat>, first: map<string, FieldKind>, part: map<string, FieldKind>,
                           entries: Entries, fields0: map<string, FieldValue>,
                           tableA: map<string, nat>, fieldsA: map<string, FieldValue>, fieldsB: map<string, FieldValue>)
    requires forall l :: l in part ==> IsScalar(part[l])
    requires tableA.Keys == table0.Keys + first.Keys
    requires FieldsHydrated(owner, table0, first, entries, fields0, fieldsA)
    requires PartFields(owner, part, part.Keys, entries, tableA, fieldsA, fieldsB)
    ensures FieldsHydrated(owner, table0, First(first, BindPartCall(part)), entries, fields0, fieldsB)
  {
    var first' := part + first;
    forall l | l in first' && IsScalar(first'[l]) && l !in table0 && StoreKey(owner, l) in entries
      ensures l in fieldsB && fieldsB[l] == Hydrated(first'[l], entries[StoreKey(owner, l)])
    {
      if l !in first {
        assert HydratesAt(owner, part, entries, tableA, l);
      } else {
        assert !HydratesAt(owner, part, entries, tableA, l);
      }
    }
    forall l | l in first' && first'[l].OptComposite? && l !in table0 && StoreKey(owner, l) in entries
      ensures l in fieldsB && HoldsChild(fieldsB[l], first'[l].cls)
    {
      assert l in first && l in tableA;
    }
    forall l | l in fields0 && !(l in first' && Hydrates(first'[l]) && l !in table0 && StoreKey(owner, l) in entries)
      ensures fieldsB[l] == fields0[l]
    {
      assert !HydratesAt(owner, part, entries, tableA, l);
    }
  }

  lemma FieldsHydratedOne(owner: string, table0: map<string, nat>, first: map<string, FieldKind>, n: string, k: FieldKind,
                          entries: Entries, fields0: map<string, FieldValue>,
                          tableA: map<string, nat>, fieldsA: map<string, FieldValue>, fieldsB: map<string, FieldValue>)
    requires tableA.Keys == table0.Keys + first.Keys
    requires FieldsHydrated(owner, table0, first, entries, fields0, fieldsA)
    requires FieldsAfterBind(owner, n, k, entries, tableA, fieldsA, fieldsB)
    ensures FieldsHydrated(owner, table0, First(first, BindCallOne(n, k)), entries, fields0, fieldsB)
  {
  }

  /** The call cannot construct a child: it does not bind an optional composite whose key is in the store. */
  predicate QuietCall(owner: string, c: BindCall, entries: Entries)
  {
    c.BindCallOne? && c.kind.OptComposite? ==> StoreKey(owner, c.name) !in entries
  }

  /** No call of the sequence can construct a child. */
  predicate AllQuiet(owner: string, binds: seq<BindCall>, entries: Entries)
  {
    forall i :: 0 <= i < |binds| ==> QuietCall(owner, binds[i], entries)
  }

  /** Building objects only adds live instances, and only to classes ranked below `r`. */
  ghost predicate GrowsBelow(t0: Tokens, t1: Tokens, rank: map<string, nat>, r: nat)
  {
    forall c :: Count(t1, c) >= Count(t0, c) && (c !in rank || rank[c] >= r ==> Count(t1, c) == Count(t0, c))
  }

  lemma GrowsBelowTrans(t0: Tokens, t1: Tokens, t2: Tokens, rank: map<string, nat>, r: nat)
    requires GrowsBelow(t0, t1, rank, r) && GrowsBelow(t1, t2, rank, r)
    ensures GrowsBelow(t0, t2, rank, r)
  {
  }

  /** Label `name` was (re)bound with `kind`: its old subscription cancelled, a live one stored. */
  ghost predicate Rebound(owner: string, name: string, kind: FieldKind,
                          subs0: seq<Subscription>, table0: map<string, nat>,
                          subs1: seq<Subscription>, table1: map<string, nat>)
  {
    && subs1 == CancelAt(subs0, table0, name) + [Subscription(name, kind, StoreKey(owner, name), true)]
    && table1 == table0[name := |subs0|]
  }

  /** Binding label `l` of a `bindPart` call hydrates it: its key is in the store and it had no table entry. */
  predicate HydratesAt(owner: string, part: map<string, FieldKind>, entries: Entries, table0: map<string, nat>, l: string)
  {
    l in part && IsScalar(part[l]) && StoreKey(owner, l) in entries && l !in table0
  }

  /** The table after the labels in `done` of a `bindPart` call were bound. */
  ghost predicate PartTable(owner: string, part: map<string, FieldKind>, done: set<string>,
                            table0: map<string, nat>, subs1: seq<Subscription>, table1: map<string, nat>)
  {
    && table1.Keys == table0.Keys + done
    && (forall l :: l in done && l in part ==> table1[l] < |subs1| && subs1[table1[l]] == Subscription(l, part[l], StoreKey(owner, l), true))
    && (forall l :: l in table0 && l !in done ==> table1[l] == table0[l])
  }

  /** The subscriptions that existed before: those of a label in `done` are cancelled, the rest untouched. */
  ghost predicate PartSubs(done: set<string>, subs0: seq<Subscription>, subs1: seq<Subscription>)
  {
    && |subs0| <= |subs1|
    && (forall i :: 0 <= i < |subs0| ==> subs1[i] == if subs0[i].name in done then subs0[i].(active := false) else subs0[i])
  }

  /** The fields: each label in `done` that hydrates took its stored value, every other field is unchanged. */
  ghost predicate PartFields(owner: string, part: map<string, FieldKind>, done: set<string>, entries: Entries,
                             table0: map<string, nat>, fields0: map<string, FieldValue>, fields1: map<string, FieldValue>)
  {
    && (forall l :: l in fields1 <==> l in fields0 || (l in done && HydratesAt(owner, part, entries, table0, l)))
    && (forall l :: l in fields1 ==>
          fields1[l] == if l in done && HydratesAt(owner, part, entries, table0, l)
                        then Hydrated(part[l], entries[StoreKey(owner, l)]) else fields0[l])
  }

  /**
   * The labels in `done` of a `bindPart` call were bound: each has a fresh live
   * subscription, every older subscription of theirs is cancelled, and each one
   * that had no entry yet and whose key is in the store was hydrated.
   */
  ghost predicate PartBound(owner: string, part: map<string, FieldKind>, done: set<string>, entries: Entries,
                            subs0: seq<Subscription>, table0: map<string, nat>, fields0: map<string, FieldValue>,
                            subs1: seq<Subscription>, table1: map<string, nat>, fields1: map<string, FieldValue>)
  {
    && PartTable(owner, part, done, table0, subs1, table1)
    && PartSubs(done, subs0, subs1)
    && PartFields(owner, part, done, entries, table0, fields0, fields1)
  }

  lemma PartTableStep(owner: string, part: map<string, FieldKind>, done: set<string>,
                      table0: map<string, nat>, subsA: seq<Subscription>, tableA: map<string, nat>,
                      l: string, subsB: seq<Subscription>, tableB: map<string, nat>)
    requires l in part && l !in done
    requires TableInvariant(subsA, tableA)
    requires PartTable(owner, part, done, table0, subsA, tableA)
    requires Rebound(owner, l, part[l], subsA, tableA, subsB, tableB)
    ensures PartTable(owner, part, done + {l}, table0, subsB, tableB)
  {
    CancelAtSpec(subsA, tableA, l);
  }

  lemma PartSubsStep(owner: string, part: map<string, FieldKind>, done: set<string>, subs0: seq<Subscription>,
                     subsA: seq<Subscription>, tableA: map<string, nat>,
                     l: string, subsB: seq<Subscription>, tableB: map<string, nat>)
    requires l in part && l !in done
    requires TableInvariant(subsA, tableA)
    requires PartSubs(done, subs0, subsA)
    requires Rebound(owner, l, part[l], subsA, tableA, subsB, tableB)
    ensures PartSubs(done + {l}, subs0, subsB)
  {
    CancelAtSpec(subsA, tableA, l);
    forall i | 0 <= i < |subs0|
      ensures subsB[i] == if subs0[i].name in done + {l} then subs0[i].(active := false) else subs0[i]
    {
      assert subsB[i] == CancelAt(subsA, tableA, l)[i];
    }
  }

  lemma PartFieldsStep(owner: string, part: map<string, FieldKind>, done: set<string>, entries: Entries,
                       table0: map<string, nat>, fields0: map<string, FieldValue>,
                       tableA: map<string, nat>, fieldsA: map<string, FieldValue>,
                       l: string, fieldsB: map<string, FieldValue>)
    requires l in part && l !in done && IsScalar(part[l])
    requires tableA.Keys == table0.Keys + done
    requires PartFields(owner, part, done, entries, table0, fields0, fieldsA)
    requires fieldsB == if StoreKey(owner, l) in entries && l !in tableA
                        then fieldsA[l := Hydrated(part[l], entries[StoreKey(owner, l)])] else fieldsA
    ensures PartFields(owner, part, done + {l}, entries, table0, fields0, fieldsB)
  {
    assert l in tableA <==> l in table0;
  }

  /** One more label of a `bindPart` call bound by `BindScalar`. */
  lemma PartBoundStep(owner: string, part: map<string, FieldKind>, done: set<string>, entries: Entries,
                      subs0: seq<Subscription>, table0: map<string, nat>, fields0: map<string, FieldValue>,
                      subsA: seq<Subscription>, tableA: map<string, nat>, fieldsA: map<string, FieldValue>,
                      l: string, subsB: seq<Subscription>, tableB: map<string, nat>, fieldsB: map<string, FieldValue>)
    requires l in part && l !in done && IsScalar(part[l])
    requires TableInvariant(subsA, tableA)
    requires PartBound(owner, part, done, entries, subs0, table0, fields0, subsA, tableA, fieldsA)
    requires Rebound(owner, l, part[l], subsA, tableA, subsB, tableB)
    requires fieldsB == if StoreKey(owner, l) in entries && l !in tableA
                        then fieldsA[l := Hydrated(part[l], entries[StoreKey(owner, l)])] else fieldsA
    ensures PartBound(owner, part, done + {l}, entries, subs0, table0, fields0, subsB, tableB, fieldsB)
  {
    PartTableStep(owner, part, done, table0, subsA, tableA, l, subsB, tableB);
    PartSubsStep(owner, part, done, subs0, subsA, tableA, l, subsB, tableB);
    PartFieldsStep(owner, part, done, entries, table0, fields0, tableA, fieldsA, l, fieldsB);
  }

  /** The kinds after one more call of a `bind()` body. */
  lemma BindsPrefixStep(binds: seq<BindCall>, i: nat)
    requires i < |binds|
    requires FirstKinds(binds[..i]).Keys == BoundKinds(binds[..i]).Keys
    ensures BoundKinds(binds[..i + 1]) == Extend(BoundKinds(binds[..i]), binds[i])
    ensures FirstKinds(binds[..i + 1]) == First(FirstKinds(binds[..i]), binds[i])
    ensures FirstKinds(binds[..i + 1]).Keys == BoundKinds(binds[..i + 1]).Keys
  {
    assert binds[..i + 1][..i] == binds[..i];
  }

  /**
   * The fields after `bind(name, keyPath)` bound `name` with `kind`: they
   * change only at `name`, and only when its key is in the store, it had
   * no table entry and its kind is scalar or an optional composite; a scalar
   * kind then takes the hydrated stored value, an optional composite a child
   * of the unwrapped class.
   */
  ghost predicate FieldsAfterBind(owner: string, n: string, k: FieldKind, entries: Entries, tableA: map<string, nat>,
                                  fieldsA: map<string, FieldValue>, fieldsB: map<string, FieldValue>)
  {
    && (forall l :: l != n ==> (l in fieldsB <==> l in fieldsA) && (l in fieldsA ==> fieldsB[l] == fieldsA[l]))
    && (n in fieldsA ==> n in fieldsB)
    && (n in tableA || StoreKey(owner, n) !in entries || !Hydrates(k) ==> fieldsB == fieldsA)
    && (IsScalar(k) && n !in tableA && StoreKey(owner, n) in entries ==>
          n in fieldsB && fieldsB[n] == Hydrated(k, entries[StoreKey(owner, n)]))
    && (k.OptComposite? && n !in tableA && StoreKey(owner, n) in entries ==>
          n in fieldsB && HoldsChild(fieldsB[n], k.cls))
  }

  /** A `bindPart` call as call `i` of a `bind()` body extends the bound prefix. */
  lemma BoundPrefixPart(owner: string, table0: map<string, nat>, fields0: map<string, FieldValue>, entries: Entries,
                        binds: seq<BindCall>, i: nat, part: map<string, FieldKind>,
                        subsA: seq<Subscription>, tableA: map<string, nat>, fieldsA: map<string, FieldValue>,
                        subsB: seq<Subscription>, tableB: map<string, nat>, fieldsB: map<string, FieldValue>)
    requires i < |binds| && binds[i] == BindPartCall(part)
    requires forall l :: l in part ==> IsScalar(part[l])
    requires BoundPrefix(owner, table0, fields0, entries, binds, i, subsA, tableA, fieldsA)
    requires PartBound(owner, part, part.Keys, entries, subsA, tableA, fieldsA, subsB, tableB, fieldsB)
    ensures BoundPrefix(owner, table0, fields0, entries, binds, i + 1, subsB, tableB, fieldsB)
  {
    BindsPrefixStep(binds, i);
    TableBindsPart(owner, table0, BoundKinds(binds[..i]), part, subsA, tableA, subsB, tableB);
    FieldsHydratedPart(owner, table0, FirstKinds(binds[..i]), part, entries, fields0, tableA, fieldsA, fieldsB);
    FieldsWithinPart(owner, table0, FirstKinds(binds[..i]), part, entries, fields0, tableA, fieldsA, fieldsB);
  }

  /** A `bind(label, keyPath)` call as call `i` of a `bind()` body extends the bound prefix. */
  lemma BoundPrefixOne(owner: string, table0: map<string, nat>, fields0: map<string, FieldValue>, entries: Entries,
                       binds: seq<BindCall>, i: nat, n: string, k: FieldKind,
                       subsA: seq<Subscription>, tableA: map<string, nat>, fieldsA: map<string, FieldValue>,
                       subsB: seq<Subscription>, tableB: map<string, nat>, fieldsB: map<string, FieldValue>)
    requires i < |binds| && binds[i] == BindCallOne(n, k) && k != Unsupported
    requires TableInvariant(subsA, tableA)
    requires BoundPrefix(owner, table0, fields0, entries, binds, i, subsA, tableA, fieldsA)
    requires Rebound(owner, n, k, subsA, tableA, subsB, tableB)
    requires FieldsAfterBind(owner, n, k, entries, tableA, fieldsA, fieldsB)
    ensures BoundPrefix(owner, table0, fields0, entries, binds, i + 1, subsB, tableB, fieldsB)
  {
    BindsPrefixStep(binds, i);
    TableBindsOne(owner, table0, BoundKinds(binds[..i]), n, k, subsA, tableA, subsB, tableB);
    FieldsHydratedOne(owner, table0, FirstKinds(binds[..i]), n, k, entries, fields0, tableA, fieldsA, fieldsB);
    FieldsWithinOne(owner, table0, FirstKinds(binds[..i]), n, k, entries, fields0, tableA, fieldsA, fieldsB);
  }

  /**
   * The first `i` calls of a `bind()` body have run on an object whose table
   * held `table0` and whose fields were `fields0`: their labels are bound and
   * their first bindings hydrated; every one of them was supported.
   */
  ghost predicate BoundPrefix(owner: string, table0: map<string, nat>, fields0: map<string, FieldValue>, entries: Entries,
                              binds: seq<BindCall>, i: nat,
                              subs: seq<Subscription>, table: map<string, nat>, fields: map<string, FieldValue>)
    requires i <= |binds|
  {
    && TableBinds(owner, table0, BoundKinds(binds[..i]), subs, table)
    && FirstKinds(binds[..i]).Keys == BoundKinds(binds[..i]).Keys
    && FieldsHydrated(owner, table0, FirstKinds(binds[..i]), entries, fields0, fields)
    && FieldsWithin(owner, table0, FirstKinds(binds[..i]), entries, fields0, fields)
    && (forall j :: 0 <= j < i ==> CallSupported(binds[j]))
  }

  /** Every label of `kinds` has a live subscription of that kind in the table; the table holds `table0`'s labels besides. */
  ghost predicate TableBinds(owner: string, table0: map<string, nat>, kinds: map<string, FieldKind>,
                             subs: seq<Subscription>, table: map<string, nat>)
  {
    && table.Keys == table0.Keys + kinds.Keys
    && (forall l :: l in kinds ==> table[l] < |subs| && subs[table[l]] == Subscription(l, kinds[l], StoreKey(owner, l), true))
  }

  lemma TableBindsPart(owner: string, table0: map<string, nat>, kinds: map<string, FieldKind>, part: map<string, FieldKind>,
                       subsA: seq<Subscription>, tableA: map<string, nat>, subsB: seq<Subscription>, tableB: map<string, nat>)
    requires TableBinds(owner, table0, kinds, subsA, tableA)
    requires PartTable(owner, part, part.Keys, tableA, subsB, tableB)
    requires PartSubs(part.Keys, subsA, subsB)
    ensures TableBinds(owner, table0, kinds + part, subsB, tableB)
  {
    forall l | l in kinds + part
      ensures tableB[l] < |subsB| && subsB[tableB[l]] == Subscription(l, (kinds + part)[l], StoreKey(owner, l), true)
    {
      if l !in part {
        assert subsA[tableA[l]].name == l;
      }
    }
  }

  lemma TableBindsOne(owner: string, table0: map<string, nat>, kinds: map<string, FieldKind>, n: string, k: FieldKind,
                      subsA: seq<Subscription>, tableA: map<string, nat>, subsB: seq<Subscription>, tableB: map<string, nat>)
    requires TableInvariant(subsA, tableA)
    requires TableBinds(owner, table0, kinds, subsA, tableA)
    requires Rebound(owner, n, k, subsA, tableA, subsB, tableB)
    ensures TableBinds(owner, table0, kinds[n := k], subsB, tableB)
  {
    CancelAtSpec(subsA, tableA, n);
    forall l | l in kinds[n := k]
      ensures tableB[l] < |subsB| && subsB[tableB[l]] == Subscription(l, kinds[n := k][l], StoreKey(owner, l), true)
    {
      if l != n {
        assert subsB[tableB[l]] == CancelAt(subsA, tableA, n)[tableA[l]];
      }
    }
  }

  /** Write the new value `v` of the field observed by `s` through to the store. */
  method Persist(store: Store, s: Subscription, v: FieldValue)
    requires Fits(s.kind, v)
    modifies store
    ensures store.entries == WriteThrough(old(store.entries), s, v)
  {
    if IsComposite(s.kind) {
      if v.child != null {
        store.Set(s.key, VStr(Marker(s.kind.cls)));
      } else {
        store.ClearNamespace(s.key, s.kind.cls);
      }
    } else {
      match v
      case StrVal(x) => store.Set(s.key, VStr(x));
      case OptStrVal(o) =>
        if o.Some? {
          store.Set(s.key, VStr(o.value));
        } else {
          store.Remove(s.key);
        }
      case IntVal(x) => store.Set(s.key, VInt(x));
      case DblVal(x) => store.Set(s.key, VDbl(x));
      case BoolVal(x) => store.Set(s.key, VBool(x));
      case ObjVal(_) => assert false;
    }
  }

  /**
   * `init()`: allocate an instance of `cls`, register it, then run the
   * class's `bind()`. Construction never writes to the store.
   */
  method Construct(cls: string, withRegistry: bool, schema: Schema, ghost rank: map<string, nat>,
                   store: Store, reg: ClassRegistry)
    returns (obj: SharedObject, out: Outcome)
    requires reg.Valid() && Ranked(schema, rank) && cls in rank
    modifies reg
    decreases rank[cls], 5
    ensures fresh(obj) && obj.Valid() && obj.alive
    ensures obj.className == cls && obj.withRegistry == withRegistry
    ensures reg.Valid() && GrowsBelow(old(reg.tokens), reg.tokens, rank, rank[cls] + 1)
    ensures Count(reg.tokens, cls) == Count(old(reg.tokens), cls) + (if withRegistry then 1 else 0)
    ensures forall c :: c != cls && c in rank && rank[c] == rank[cls] ==> Count(reg.tokens, c) == Count(old(reg.tokens), c)
    ensures !withRegistry ==> reg.tokens == old(reg.tokens)
    ensures AllQuiet(cls, Decl(schema, cls).binds, store.entries) ==>
              reg.tokens == if withRegistry then Appended(old(reg.tokens), cls) else old(reg.tokens)
    ensures AllSupported(schema) ==> out == Pass
    ensures out.Pass? ==> forall i :: 0 <= i < |Decl(schema, cls).binds| ==> CallSupported(Decl(schema, cls).binds[i])
    ensures out.Pass? ==> obj.Built(schema, store.entries)
  {
    var decl := Decl(schema, cls);
    obj := new SharedObject(cls, withRegistry, decl.defaults);
    if withRegistry {
      reg.AppendClass(cls);
      AppendedCounts(old(reg.tokens), cls);
    }
    out := obj.RunBinds(decl.binds, schema, rank, store, reg);
    assert decl.binds[..|decl.binds|] == decl.binds;
  }

  class SharedObject {
    /** The dynamic class name, `String(reflecting: type(of: self))`. */
    const className: string
    /** Whether this version of the class keeps the liveness registry. */
    const withRegistry: bool
    /** The current value of every field, by label. */
    var fields: map<string, FieldValue>
    /** Every subscription this object has created, live or cancelled. */
    var subs: seq<Subscription>
    /** `cancellables`: label to the index in `subs` of the subscription stored for it. */
    var cancellables: map<string, nat>
    /** False once the object is destroyed. */
    var alive: bool

    ghost predicate Valid()
      reads this
    {
      && TableInvariant(subs, cancellables)
      && (forall i :: 0 <= i < |subs| ==> subs[i].key == StoreKey(className, subs[i].name) && subs[i].kind != Unsupported)
      && (!alive ==> forall i :: 0 <= i < |subs| ==> !subs[i].active)
    }

    /**
     * The state `init()` leaves against the store contents `entries`: every
     * label of the class's `bind()` is bound with its last kind, and every
     * first binding whose key is stored has hydrated its field.
     */
    ghost predicate Built(schema: Schema, entries: Entries)
      reads this
    {
      && TableBinds(className, map[], BoundKinds(Decl(schema, className).binds), subs, cancellables)
      && FieldsHydrated(className, map[], FirstKinds(Decl(schema, className).binds), entries,
                        Decl(schema, className).defaults, fields)
      && FieldsWithin(className, map[], FirstKinds(Decl(schema, className).binds), entries,
                      Decl(schema, className).defaults, fields)
    }

    /** Allocation (`super.init()`): the fields take their initial values, nothing is bound. */
    constructor (cls: string, withRegistry: bool, defaults: map<string, FieldValue>)
      ensures Valid() && alive
      ensures className == cls && this.withRegistry == withRegistry
      ensures fields == defaults && subs == [] && cancellables == map[]
    {
      className := cls;
      this.withRegistry := withRegistry;
      fields := defaults;
      subs := [];
      cancellables := map[];
      alive := true;
    }

    /** `cancelBind(label)`: stop the label's subscription; its table entry stays. */
    method CancelBind(name: string)
      requires Valid()
      modifies this
      ensures Valid() && alive == old(alive)
      ensures subs == CancelAt(old(subs), old(cancellables), name)
      ensures cancellables == old(cancellables) && fields == old(fields)
    {
      CancelAtSpec(subs, cancellables, name);
      if name in cancellables {
        var i := cancellables[name];
        subs := subs[i := subs[i].(active := false)];
      }
    }

    /** `cancelBinds(labels)`: cancel each label in turn. */
    method CancelBinds(names: seq<string>)
      requires Valid()
      modifies this
      ensures Valid() && alive == old(alive)
      ensures subs == CancelEach(old(subs), old(cancellables), names)
      ensures cancellables == old(cancellables) && fields == old(fields)
    {
      var i := 0;
      while i < |names|
        invariant 0 <= i <= |names|
        invariant Valid() && alive == old(alive)
        invariant subs == CancelEach(old(subs), old(cancellables), names[..i])
        invariant cancellables == old(cancellables) && fields == old(fields)
      {
        CancelBind(names[i]);
        assert names[..i + 1][..i] == names[..i];
        i := i + 1;
      }
      assert names[..|names|] == names;
    }

    /** `cancelAllBinds()`: every subscription stops; the table is kept. */
    method CancelAllBinds()
      requires Valid()
      modifies this
      ensures Valid() && alive == old(alive)
      ensures |subs| == |old(subs)| && forall i :: 0 <= i < |subs| ==> subs[i] == old(subs)[i].(active := false)
      ensures cancellables == old(cancellables) && fields == old(fields)
    {
      var todo := cancellables.Keys;
      while todo != {}
        invariant Valid() && alive == old(alive)
        invariant cancellables == old(cancellables) && fields == old(fields)
        invariant todo <= cancellables.Keys
        invariant |subs| == |old(subs)|
        invariant forall i :: 0 <= i < |subs| ==> subs[i] in {old(subs)[i], old(subs)[i].(active := false)}
        invariant forall i :: 0 <= i < |subs| && subs[i].active ==> subs[i].name in todo
        decreases todo
      {
        var l :| l in todo;
        ghost var before := subs;
        CancelBind(l);
        CancelAtSpec(before, cancellables, l);
        todo := todo - {l};
      }
    }

    /**
     * `bingPartialKeyPath`: bind a scalar field. The old subscription is
     * cancelled first; an unsupported kind then fails. Otherwise the field is
     * hydrated from the store when its key is present and the label has no
     * table entry yet, and a live subscription is stored for the label.
     */
    /**
     * `cancellables[label] = ….sink()`: once the label's old subscription is
     * cancelled, a live subscription at the label's key is stored for it.
     */
    method Subscribe(name: string, kind: FieldKind, ghost subs0: seq<Subscription>, ghost table0: map<string, nat>)
      requires Valid() && alive && kind != Unsupported
      requires TableInvariant(subs0, table0) && subs == CancelAt(subs0, table0, name) && cancellables == table0
      modifies this
      ensures Valid() && alive && fields == old(fields)
      ensures Rebound(className, name, kind, subs0, table0, subs, cancellables)
    {
      var s := Subscription(name, kind, StoreKey(className, name), true);
      RebindLeavesOneLive(subs0, table0, s);
      subs, cancellables := subs + [s], cancellables[name := |subs|];
    }

    method BindScalar(name: string, kind: FieldKind, store: Store) returns (out: Outcome)
      requires Valid() && alive
      modifies this
      ensures Valid() && alive
      ensures IsScalar(kind) ==> out == Pass && Rebound(className, name, kind, old(subs), old(cancellables), subs, cancellables)
      ensures IsScalar(kind) ==> fields == if StoreKey(className, name) in store.entries && name !in old(cancellables)
                                           then old(fields)[name := Hydrated(kind, store.entries[StoreKey(className, name)])]
                                           else old(fields)
      ensures !IsScalar(kind) ==> out == Fail(UnsupportedFieldType(name))
      ensures !IsScalar(kind) ==>
                (subs == CancelAt(old(subs), old(cancellables), name) && cancellables == old(cancellables) && fields == old(fields))
    {
      CancelAtSpec(subs, cancellables, name);
      CancelBind(name);
      if !IsScalar(kind) {
        return Fail(UnsupportedFieldType(name));
      }
      var key := StoreKey(className, name);
      if store.ContainsKey(key) && name !in cancellables {
        fields := fields[name := Hydrated(kind, store.entries[key])];
      }
      Subscribe(name, kind, old(subs), old(cancellables));
      out := Pass;
    }

    /**
     * `bindPart(self, part)`: bind every label of the dictionary, in no
     * particular order. A composite kind is not handled here and fails like
     * any unsupported kind.
     */
    method BindPart(part: map<string, FieldKind>, store: Store) returns (out: Outcome)
      requires Valid() && alive
      modifies this
      ensures Valid() && alive
      ensures out.Pass? <==> forall l :: l in part ==> IsScalar(part[l])
      ensures out.Fail? ==> out.error.UnsupportedFieldType? && out.error.name in part && !IsScalar(part[out.error.name])
      ensures out.Pass? ==> PartBound(className, part, part.Keys, store.entries,
                                      old(subs), old(cancellables), old(fields), subs, cancellables, fields)
    {
      var todo := part.Keys;
      ghost var done: set<string> := {};
      while todo != {}
        invariant Valid() && alive
        invariant todo !! done && todo + done == part.Keys
        invariant forall l :: l in done ==> IsScalar(part[l])
        invariant PartBound(className, part, done, store.entries,
                            old(subs), old(cancellables), old(fields), subs, cancellables, fields)
        decreases todo
      {
        var l :| l in todo;
        out := BindPartLabel(part, l, store, done, old(subs), old(cancellables), old(fields));
        if out.Fail? {
          return;
        }
        todo := todo - {l};
        done := done + {l};
      }
      assert done == part.Keys;
      out := Pass;
    }

    /** Bind label `l` of a `bindPart` call whose labels in `done` are already bound. */
    method BindPartLabel(part: map<string, FieldKind>, l: string, store: Store, ghost done: set<string>,
                         ghost subs0: seq<Subscription>, ghost table0: map<string, nat>, ghost fields0: map<string, FieldValue>)
      returns (out: Outcome)
      requires Valid() && alive && l in part && l !in done
      requires PartBound(className, part, done, store.entries, subs0, table0, fields0, subs, cancellables, fields)
      modifies this
      ensures Valid() && alive
      ensures out.Pass? <==> IsScalar(part[l])
      ensures out.Fail? ==> out == Fail(UnsupportedFieldType(l))
      ensures out.Pass? ==> PartBound(className, part, done + {l}, store.entries, subs0, table0, fields0, subs, cancellables, fields)
    {
      out := BindScalar(l, part[l], store);
      if out.Pass? {
        PartBoundStep(className, part, done, store.entries, subs0, table0, fields0,
                      old(subs), old(cancellables), old(fields), l, subs, cancellables, fields);
      }
    }

    /** Hydrate an optional composite field with a freshly constructed child of class `cls`. */
    method HydrateChild(name: string, cls: string, schema: Schema, ghost rank: map<string, nat>, store: Store, reg: ClassRegistry)
      returns (out: Outcome, child: SharedObject)
      requires Valid() && alive && reg.Valid() && Ranked(schema, rank)
      requires className in rank && cls in rank && rank[cls] < rank[className]
      modifies this, reg
      decreases rank[className], 0
      ensures Valid() && alive && reg.Valid() && subs == old(subs) && cancellables == old(cancellables)
      ensures GrowsBelow(old(reg.tokens), reg.tokens, rank, rank[className])
      ensures !withRegistry ==> reg.tokens == old(reg.tokens)
      ensures AllSupported(schema) ==> out == Pass
      ensures out.Fail? ==> !AllSupported(schema) && fields == old(fields)
      ensures out.Pass? ==> fresh(child) && child.Valid() && child.alive && child.className == cls
                            && child.withRegistry == withRegistry && child.Built(schema, store.entries)
                            && fields == old(fields)[name := ObjVal(child)]
    {
      child, out := Construct(cls, withRegistry, schema, rank, store, reg);
      if out.Pass? {
        fields := fields[name := ObjVal(child)];
      }
    }

    /**
     * `bingKeyPath` for a composite kind: the old subscription is cancelled;
     * an optional composite whose key is in the store and whose label has no
     * table entry yet is hydrated with a freshly constructed child; then a
     * live subscription is stored for the label.
     */
    method BindComposite(name: string, kind: FieldKind, schema: Schema, ghost rank: map<string, nat>, store: Store, reg: ClassRegistry)
      returns (out: Outcome, child: SharedObject?)
      requires Valid() && alive && reg.Valid() && Ranked(schema, rank)
      requires IsComposite(kind) && className in rank && KindBelow(kind, rank, rank[className])
      modifies this, reg
      decreases rank[className], 1
      ensures Valid() && alive && reg.Valid()
      ensures GrowsBelow(old(reg.tokens), reg.tokens, rank, rank[className])
      ensures !withRegistry ==> reg.tokens == old(reg.tokens)
      ensures var hydrate := kind.OptComposite? && StoreKey(className, name) in store.entries && name !in old(cancellables);
              && (out.Fail? ==> hydrate && !AllSupported(schema))
              && (AllSupported(schema) ==> out == Pass)
              && (out.Pass? ==> Rebound(className, name, kind, old(subs), old(cancellables), subs, cancellables))
              && (hydrate && out.Pass? ==>
                    && child != null && fresh(child) && child.Valid() && child.alive
                    && child.className == kind.cls && child.withRegistry == withRegistry
                    && child.Built(schema, store.entries) && fields == old(fields)[name := ObjVal(child)])
              && (!hydrate ==> child == null && fields == old(fields) && reg.tokens == old(reg.tokens))
    {
      child := null;
      CancelAtSpec(subs, cancellables, name);
      CancelBind(name);
      var key := StoreKey(className, name);
      if kind.OptComposite? && store.ContainsKey(key) && name !in cancellables {
        var o, c := HydrateChild(name, kind.cls, schema, rank, store, reg);
        child := c;
        if o.Fail? {
          return o, child;
        }
      }
      Subscribe(name, kind, old(subs), old(cancellables));
      out := Pass;
    }

    /**
     * `bind(label, keyPath)` / `bingKeyPath`: a composite kind is bound by
     * `BindComposite`, any other kind by `BindScalar`.
     */
    method Bind(name: string, kind: FieldKind, schema: Schema, ghost rank: map<string, nat>, store: Store, reg: ClassRegistry)
      returns (out: Outcome, child: SharedObject?)
      requires Valid() && alive && reg.Valid() && Ranked(schema, rank)
      requires className in rank && KindBelow(kind, rank, rank[className])
      modifies this, reg
      decreases rank[className], 2
      ensures Valid() && alive && reg.Valid()
      ensures GrowsBelow(old(reg.tokens), reg.tokens, rank, rank[className])
      ensures !withRegistry ==> reg.tokens == old(reg.tokens)
      ensures out.Fail? ==> kind == Unsupported || !AllSupported(schema)
      ensures kind == Unsupported ==> out == Fail(UnsupportedFieldType(name))
      ensures IsComposite(kind) && AllSupported(schema) ==> out == Pass
      ensures IsScalar(kind) ==> out == Pass
      ensures out.Pass? && kind.OptComposite? && StoreKey(className, name) in store.entries && name !in old(cancellables) ==>
                child != null && fresh(child) && child.Valid() && child.alive && child.className == kind.cls
                && child.withRegistry == withRegistry && child.Built(schema, store.entries)
                && fields == old(fields)[name := ObjVal(child)]
      ensures QuietCall(className, BindCallOne(name, kind), store.entries) ==> reg.tokens == old(reg.tokens)
      ensures out.Pass? ==> Rebound(className, name, kind, old(subs), old(cancellables), subs, cancellables)
      ensures out.Pass? ==> FieldsAfterBind(className, name, kind, store.entries, old(cancellables), old(fields), fields)
    {
      if IsComposite(kind) {
        out, child := BindComposite(name, kind, schema, rank, store, reg);
      } else {
        child := null;
        out := BindScalar(name, kind, store);
      }
    }

    /** One call of the body of `bind()`. */
    method RunCall(binds: seq<BindCall>, i: nat, schema: Schema, ghost rank: map<string, nat>, store: Store, reg: ClassRegistry,
                   ghost table0: map<string, nat>, ghost fields0: map<string, FieldValue>)
      returns (out: Outcome)
      requires i < |binds|
      requires Valid() && alive && reg.Valid() && Ranked(schema, rank) && className in rank
      requires CallBelow(binds[i], rank, rank[className])
      requires BoundPrefix(className, table0, fields0, store.entries, binds, i, subs, cancellables, fields)
      modifies this, reg
      decreases rank[className], 3
      ensures Valid() && alive && reg.Valid()
      ensures GrowsBelow(old(reg.tokens), reg.tokens, rank, rank[className])
      ensures !withRegistry ==> reg.tokens == old(reg.tokens)
      ensures CallSupported(binds[i]) && AllSupported(schema) ==> out == Pass
      ensures out.Pass? ==> CallSupported(binds[i])
      ensures QuietCall(className, binds[i], store.entries) ==> reg.tokens == old(reg.tokens)
      ensures out.Pass? ==> BoundPrefix(className, table0, fields0, store.entries, binds, i + 1, subs, cancellables, fields)
    {
      ghost var subsA, tableA, fieldsA := subs, cancellables, fields;
      match binds[i] {
        case BindPartCall(part) =>
          out := BindPart(part, store);
          if out.Pass? {
            BoundPrefixPart(className, table0, fields0, store.entries, binds, i, part,
                            subsA, tableA, fieldsA, subs, cancellables, fields);
          }
        case BindCallOne(n, k) =>
          var child;
          out, child := Bind(n, k, schema, rank, store, reg);
          if out.Pass? {
            BoundPrefixOne(className, table0, fields0, store.entries, binds, i, n, k,
                           subsA, tableA, fieldsA, subs, cancellables, fields);
          }
      }
    }

    /** Run the body of `bind()`: the calls in order, stopping at the first failure. */
    method RunBinds(binds: seq<BindCall>, schema: Schema, ghost rank: map<string, nat>, store: Store, reg: ClassRegistry)
      returns (out: Outcome)
      requires Valid() && alive && reg.Valid() && Ranked(schema, rank) && className in rank
      requires forall i :: 0 <= i < |binds| ==> CallBelow(binds[i], rank, rank[className])
      modifies this, reg
      decreases rank[className], 4
      ensures Valid() && alive && reg.Valid()
      ensures GrowsBelow(old(reg.tokens), reg.tokens, rank, rank[className])
      ensures !withRegistry ==> reg.tokens == old(reg.tokens)
      ensures (forall i :: 0 <= i < |binds| ==> CallSupported(binds[i])) && AllSupported(schema) ==> out == Pass
      ensures out.Pass? ==> forall i :: 0 <= i < |binds| ==> CallSupported(binds[i])
      ensures AllQuiet(className, binds, store.entries) ==> reg.tokens == old(reg.tokens)
      ensures out.Pass? ==> BoundPrefix(className, old(cancellables), old(fields), store.entries, binds, |binds|, subs, cancellables, fields)
    {
      out := Pass;
      var i := 0;
      while i < |binds|
        invariant 0 <= i <= |binds|
        invariant Valid() && alive && reg.Valid()
        invariant GrowsBelow(old(reg.tokens), reg.tokens, rank, rank[className])
        invariant !withRegistry ==> reg.tokens == old(reg.tokens)
        invariant AllQuiet(className, binds, store.entries) ==> reg.tokens == old(reg.tokens)
        invariant BoundPrefix(className, old(cancellables), old(fields), store.entries, binds, i, subs, cancellables, fields)
        invariant out == Pass
      {
        ghost var tokens := reg.tokens;
        out := RunCall(binds, i, schema, rank, store, reg, old(cancellables), old(fields));
        GrowsBelowTrans(old(reg.tokens), tokens, reg.tokens, rank, rank[className]);
        assert AllQuiet(className, binds, store.entries) ==> QuietCall(className, binds[i], store.entries);
        if out.Fail? {
          return;
        }
        i := i + 1;
      }
    }

    /**
     * Assignment to a bound field (`self.name = v`): the field takes the new
     * value, then every subscription of that label still able to fire runs
     * its write-through, which in the registry version first refuses to write
     * while two instances of the class are alive.
     */
    method Assign(name: string, v: FieldValue, store: Store, reg: ClassRegistry) returns (out: Outcome)
      requires Valid() && alive
      requires name in cancellables ==> Fits(subs[cancellables[name]].kind, v)
      modifies this, store
      ensures Valid() && alive && subs == old(subs) && cancellables == old(cancellables)
      ensures fields == old(fields)[name := v]
      ensures var fires := name in cancellables && subs[cancellables[name]].active;
              && out == (if fires && withRegistry && IsDirty(reg.tokens, className)
                         then Fail(OverlappingLiveInstance(className)) else Pass)
              && store.entries == (if fires && out.Pass? then WriteThrough(old(store.entries), subs[cancellables[name]], v)
                                   else old(store.entries))
    {
      fields := fields[name := v];
      out := Pass;
      ghost var fires := name in cancellables && subs[cancellables[name]].active;
      var i := 0;
      while i < |subs|
        invariant 0 <= i <= |subs|
        invariant Valid() && alive && subs == old(subs) && cancellables == old(cancellables)
        invariant fields == old(fields)[name := v]
        invariant store.entries == (if fires && cancellables[name] < i then WriteThrough(old(store.entries), subs[cancellables[name]], v)
                                    else old(store.entries))
        invariant fires && withRegistry && IsDirty(reg.tokens, className) ==> i <= cancellables[name]
      {
        if subs[i].active && subs[i].name == name {
          if withRegistry && reg.IsDirtyClass(className) {
            return Fail(OverlappingLiveInstance(className));
          }
          Persist(store, subs[i], v);
        }
        i := i + 1;
      }
    }

    /** `deinit`: cancel every subscription, then (registry version) unregister the instance. */
    method Destroy(reg: ClassRegistry)
      requires Valid() && alive && reg.Valid()
      modifies this, reg
      ensures Valid() && !alive && reg.Valid()
      ensures |subs| == |old(subs)| && forall i :: 0 <= i < |subs| ==> subs[i] == old(subs)[i].(active := false)
      ensures cancellables == old(cancellables) && fields == old(fields)
      ensures reg.tokens == if withRegistry then Removed(old(reg.tokens), className) else old(reg.tokens)
    {
      CancelAllBinds();
      if withRegistry {
        reg.RemoveClass(className);
      }
      alive := false;
    }
  }
}
