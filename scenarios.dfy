/**
 * Concrete runs of bound objects against a store that starts empty: the
 * repository's own test (classes `A` and `B`), the overlap refusal of the
 * registry, rehydration of a new instance, and the composite marker and
 * purge.
 */
module Scenarios {
  import opened Defaults
  import opened Registry
  import opened Binding
  import opened SharedObjects

  /** Class `A` of the test suite: `name: String?`, `age: Int`, `gender: String?`; `bind()` binds name and age. */
  function ClassA(): ClassDecl
  {
    ClassDecl(map["name" := OptStrVal(None), "age" := IntVal(0), "gender" := OptStrVal(None)],
              [BindPartCall(map["name" := OptStr, "age" := Int])])
  }

  /** Class `B : A` adds `title: String?`; its `bind()` runs `A`'s, then binds age, title and gender. */
  function ClassB(): ClassDecl
  {
    ClassDecl(ClassA().defaults["title" := OptStrVal(None)],
              ClassA().binds + [BindPartCall(map["age" := Int, "title" := OptStr, "gender" := OptStr])])
  }

  /** A class `T` with an optional composite field `pet` of the nested class `T.Pet`, which binds `level: Int`. */
  function ClassT(): ClassDecl
  {
    ClassDecl(map["pet" := ObjVal(null)], [BindCallOne("pet", OptComposite("T.Pet"))])
  }

  function ClassPet(): ClassDecl
  {
    ClassDecl(map["level" := IntVal(0)], [BindPartCall(map["level" := Int])])
  }

  /** The classes of the repository's test. */
  function SchemaAB(): Schema
  {
    map["A" := ClassA(), "B" := ClassB()]
  }

  /** The classes of the composite example. */
  function SchemaT(): Schema
  {
    map["T" := ClassT(), "T.Pet" := ClassPet()]
  }

  /** `T` is built above its child class; the others bind no composite. */
  function TestRank(): map<string, nat>
  {
    map["A" := 0, "B" := 0, "T" := 1, "T.Pet" := 0]
  }

  lemma {:induction false} SchemaABWellFormed()
    ensures Ranked(SchemaAB(), TestRank()) && AllSupported(SchemaAB())
  {
    forall c, i | c in SchemaAB() && 0 <= i < |SchemaAB()[c].binds|
      ensures c in TestRank() && CallBelow(SchemaAB()[c].binds[i], TestRank(), TestRank()[c])
      ensures CallSupported(SchemaAB()[c].binds[i])
    {
      assert c == "A" || c == "B";
    }
  }

  lemma {:induction false} SchemaTWellFormed()
    ensures Ranked(SchemaT(), TestRank()) && AllSupported(SchemaT())
  {
    forall c, i | c in SchemaT() && 0 <= i < |SchemaT()[c].binds|
      ensures c in TestRank() && CallBelow(SchemaT()[c].binds[i], TestRank(), TestRank()[c])
      ensures CallSupported(SchemaT()[c].binds[i])
    {
      assert c == "T" || c == "T.Pet";
    }
  }

  /** The labels each test class binds, and the kind each is first bound with. */
  lemma {:induction false} KindsA()
    ensures BoundKinds(ClassA().binds) == FirstKinds(ClassA().binds) == map["name" := OptStr, "age" := Int]
  {
    assert ClassA().binds[..0] == [];
  }

  /** `B` binds age a second time; the first binding, `A`'s, is the one that hydrates. */
  lemma {:induction false} KindsB()
    ensures BoundKinds(ClassB().binds) == map["name" := OptStr, "age" := Int, "title" := OptStr, "gender" := OptStr]
    ensures FirstKinds(ClassB().binds) == map["name" := OptStr, "age" := Int, "title" := OptStr, "gender" := OptStr]
  {
    KindsA();
    assert ClassB().binds[..1] == ClassA().binds;
  }

  lemma {:induction false} KindsT()
    ensures BoundKinds(ClassT().binds) == FirstKinds(ClassT().binds) == map["pet" := OptComposite("T.Pet")]
  {
    assert ClassT().binds[..0] == [];
  }

  lemma {:induction false} KindsPet()
    ensures BoundKinds(ClassPet().binds) == FirstKinds(ClassPet().binds) == map["level" := Int]
  {
    assert ClassPet().binds[..0] == [];
  }

  /** One label's entry in a bound table. */
  lemma TableBindsAt(owner: string, table0: map<string, nat>, kinds: map<string, FieldKind>,
                     subs: seq<Subscription>, table: map<string, nat>, l: string)
    requires TableBinds(owner, table0, kinds, subs, table) && l in kinds
    ensures table[l] < |subs| && subs[table[l]] == Subscription(l, kinds[l], StoreKey(owner, l), true)
  {
  }

  /** What `Construct` promises about a new `A`, spelled out: its two live subscriptions. */
  lemma {:induction false} BoundA(subs: seq<Subscription>, table: map<string, nat>)
    requires TableBinds("A", map[], BoundKinds(Decl(SchemaAB(), "A").binds), subs, table)
    ensures table["name"] < |subs| && subs[table["name"]] == Subscription("name", OptStr, "A.name", true)
    ensures table["age"] < |subs| && subs[table["age"]] == Subscription("age", Int, "A.age", true)
  {
    var kinds := map["name" := OptStr, "age" := Int];
    assert BoundKinds(Decl(SchemaAB(), "A").binds) == kinds by {
      KindsA();
      assert Decl(SchemaAB(), "A") == ClassA();
    }
    TableBindsAt("A", map[], kinds, subs, table, "name");
    TableBindsAt("A", map[], kinds, subs, table, "age");
  }

  /** What `Construct` promises about a new `B`: four live subscriptions, all under `B`. */
  lemma {:induction false} BoundB(subs: seq<Subscription>, table: map<string, nat>)
    requires TableBinds("B", map[], BoundKinds(Decl(SchemaAB(), "B").binds), subs, table)
    ensures table["title"] < |subs| && subs[table["title"]] == Subscription("title", OptStr, "B.title", true)
    ensures table["gender"] < |subs| && subs[table["gender"]] == Subscription("gender", OptStr, "B.gender", true)
  {
    var kinds := map["name" := OptStr, "age" := Int, "title" := OptStr, "gender" := OptStr];
    assert BoundKinds(Decl(SchemaAB(), "B").binds) == kinds by {
      KindsB();
      assert Decl(SchemaAB(), "B") == ClassB();
    }
    TableBindsAt("B", map[], kinds, subs, table, "title");
    TableBindsAt("B", map[], kinds, subs, table, "gender");
  }

  /** A new `A` hydrates name and age from the store; gender is not bound and keeps nil. */
  lemma {:induction false} HydratedA(entries: Entries, fields: map<string, FieldValue>)
    requires FieldsHydrated("A", map[], FirstKinds(Decl(SchemaAB(), "A").binds), entries, Decl(SchemaAB(), "A").defaults, fields)
    ensures "name" in fields && "age" in fields && "gender" in fields
    ensures "A.name" in entries ==> fields["name"] == Hydrated(OptStr, entries["A.name"])
    ensures "A.age" in entries ==> fields["age"] == Hydrated(Int, entries["A.age"])
    ensures fields["gender"] == OptStrVal(None)
  {
    var first := map["name" := OptStr, "age" := Int];
    assert FirstKinds(Decl(SchemaAB(), "A").binds) == first && Decl(SchemaAB(), "A") == ClassA() by {
      KindsA();
    }
    assert StoreKey("A", "name") == "A.name" && StoreKey("A", "age") == "A.age";
    assert "gender" in ClassA().defaults && "gender" !in first;
  }

  /** A new `T` has its `pet` subscription, and a child once the marker is stored. */
  lemma {:induction false} BoundT(subs: seq<Subscription>, table: map<string, nat>, entries: Entries, fields: map<string, FieldValue>)
    requires TableBinds("T", map[], BoundKinds(Decl(SchemaT(), "T").binds), subs, table)
    requires FieldsHydrated("T", map[], FirstKinds(Decl(SchemaT(), "T").binds), entries, Decl(SchemaT(), "T").defaults, fields)
    ensures table["pet"] < |subs| && subs[table["pet"]] == Subscription("pet", OptComposite("T.Pet"), "T.pet", true)
    ensures "T.pet" in entries ==> HoldsChild(fields["pet"], "T.Pet")
  {
    var kinds := map["pet" := OptComposite("T.Pet")];
    assert BoundKinds(Decl(SchemaT(), "T").binds) == FirstKinds(Decl(SchemaT(), "T").binds) == kinds by {
      KindsT();
      assert Decl(SchemaT(), "T") == ClassT();
    }
    TableBindsAt("T", map[], kinds, subs, table, "pet");
    assert StoreKey("T", "pet") == "T.pet";
  }

  /** A new `T.Pet` has its `level` subscription and hydrates `level` from the store. */
  lemma {:induction false} BoundPet(subs: seq<Subscription>, table: map<string, nat>, entries: Entries, fields: map<string, FieldValue>)
    requires TableBinds("T.Pet", map[], BoundKinds(Decl(SchemaT(), "T.Pet").binds), subs, table)
    requires FieldsHydrated("T.Pet", map[], FirstKinds(Decl(SchemaT(), "T.Pet").binds), entries, Decl(SchemaT(), "T.Pet").defaults, fields)
    ensures table["level"] < |subs| && subs[table["level"]] == Subscription("level", Int, "T.Pet.level", true)
    ensures "T.Pet.level" in entries ==> fields["level"] == Hydrated(Int, entries["T.Pet.level"])
  {
    var kinds := map["level" := Int];
    assert BoundKinds(Decl(SchemaT(), "T.Pet").binds) == FirstKinds(Decl(SchemaT(), "T.Pet").binds) == kinds by {
      KindsPet();
      assert Decl(SchemaT(), "T.Pet") == ClassPet();
    }
    TableBindsAt("T.Pet", map[], kinds, subs, table, "level");
    assert StoreKey("T.Pet", "level") == "T.Pet.level";
  }

  /** `A()`: a new instance of `A`, with its subscriptions and its fields hydrated from the store. */
  method NewA(store: Store, reg: ClassRegistry) returns (a: SharedObject)
    requires reg.Valid()
    modifies reg
    ensures fresh(a) && a.Valid() && a.alive && a.className == "A" && a.withRegistry
    ensures reg.Valid() && Count(reg.tokens, "A") == Count(old(reg.tokens), "A") + 1
    ensures Count(reg.tokens, "B") == Count(old(reg.tokens), "B")
    ensures "name" in a.cancellables && a.subs[a.cancellables["name"]] == Subscription("name", OptStr, "A.name", true)
    ensures "age" in a.cancellables && a.subs[a.cancellables["age"]] == Subscription("age", Int, "A.age", true)
    ensures "name" in a.fields && "age" in a.fields && "gender" in a.fields
    ensures "A.name" in store.entries ==> a.fields["name"] == Hydrated(OptStr, store.entries["A.name"])
    ensures "A.age" in store.entries ==> a.fields["age"] == Hydrated(Int, store.entries["A.age"])
    ensures a.fields["gender"] == OptStrVal(None)
  {
    SchemaABWellFormed();
    var out;
    a, out := Construct("A", true, SchemaAB(), TestRank(), store, reg);
    BoundA(a.subs, a.cancellables);
    HydratedA(store.entries, a.fields);
  }

  /** `B()`: a new instance of `B`, whose fields live under `B`. */
  method NewB(store: Store, reg: ClassRegistry) returns (b: SharedObject)
    requires reg.Valid()
    modifies reg
    ensures fresh(b) && b.Valid() && b.alive && b.className == "B" && b.withRegistry
    ensures reg.Valid() && Count(reg.tokens, "B") == Count(old(reg.tokens), "B") + 1
    ensures Count(reg.tokens, "A") == Count(old(reg.tokens), "A")
    ensures "title" in b.cancellables && b.subs[b.cancellables["title"]] == Subscription("title", OptStr, "B.title", true)
    ensures "gender" in b.cancellables && b.subs[b.cancellables["gender"]] == Subscription("gender", OptStr, "B.gender", true)
  {
    SchemaABWellFormed();
    var out;
    b, out := Construct("B", true, SchemaAB(), TestRank(), store, reg);
    BoundB(b.subs, b.cancellables);
  }

  /** `T()`: a new instance of `T`; it comes with a child when the marker is stored. */
  method NewT(store: Store, reg: ClassRegistry) returns (t: SharedObject)
    requires reg.Valid()
    modifies reg
    ensures fresh(t) && t.Valid() && t.alive && t.className == "T" && t.withRegistry
    ensures reg.Valid() && Count(reg.tokens, "T") == Count(old(reg.tokens), "T") + 1
    ensures "pet" in t.cancellables && t.subs[t.cancellables["pet"]] == Subscription("pet", OptComposite("T.Pet"), "T.pet", true)
    ensures "T.pet" !in store.entries ==> Count(reg.tokens, "T.Pet") == Count(old(reg.tokens), "T.Pet")
    ensures "T.pet" in store.entries ==> "pet" in t.fields && HoldsChild(t.fields["pet"], "T.Pet")
  {
    SchemaTWellFormed();
    var out;
    t, out := Construct("T", true, SchemaT(), TestRank(), store, reg);
    assert Decl(SchemaT(), "T") == ClassT() && StoreKey("T", "pet") == "T.pet";
    BoundT(t.subs, t.cancellables, store.entries, t.fields);
  }

  /** `T.Pet()`: a new instance of `T.Pet`, with `level` hydrated from the store. */
  method NewPet(store: Store, reg: ClassRegistry) returns (p: SharedObject)
    requires reg.Valid()
    modifies reg
    ensures fresh(p) && p.Valid() && p.alive && p.className == "T.Pet" && p.withRegistry
    ensures reg.Valid() && Count(reg.tokens, "T.Pet") == Count(old(reg.tokens), "T.Pet") + 1
    ensures Count(reg.tokens, "T") == Count(old(reg.tokens), "T")
    ensures "level" in p.cancellables && p.subs[p.cancellables["level"]] == Subscription("level", Int, "T.Pet.level", true)
    ensures "T.Pet.level" in store.entries ==> "level" in p.fields && p.fields["level"] == Hydrated(Int, store.entries["T.Pet.level"])
  {
    SchemaTWellFormed();
    var out;
    p, out := Construct("T.Pet", true, SchemaT(), TestRank(), store, reg);
    BoundPet(p.subs, p.cancellables, store.entries, p.fields);
  }

  /** `a.name` := Cosmo, nil, Julis; `a.age` := 15, 12, on the only live `A`. */
  method WritesOfA(a: SharedObject, store: Store, reg: ClassRegistry)
    requires a.Valid() && a.alive && a.className == "A" && a.withRegistry && Count(reg.tokens, "A") == 1
    requires "name" in a.cancellables && a.subs[a.cancellables["name"]] == Subscription("name", OptStr, "A.name", true)
    requires "age" in a.cancellables && a.subs[a.cancellables["age"]] == Subscription("age", Int, "A.age", true)
    requires store.entries == map[]
    modifies a, store
    ensures a.Valid() && a.alive
    ensures store.entries == map["A.name" := VStr("Julis"), "A.age" := VInt(12)]
  {
    var o := a.Assign("name", OptStrVal(Some("Cosmo")), store, reg);
    assert store.entries == map["A.name" := VStr("Cosmo")];
    o := a.Assign("name", OptStrVal(None), store, reg);
    assert store.entries == map[];
    o := a.Assign("name", OptStrVal(Some("Julis")), store, reg);
    assert store.entries == map["A.name" := VStr("Julis")];
    o := a.Assign("age", IntVal(15), store, reg);
    assert store.entries == map["A.name" := VStr("Julis"), "A.age" := VInt(15)];
    o := a.Assign("age", IntVal(12), store, reg);
  }

  /** `b.title` := "level 2", nil; `b.gender` := girl, boy, and girl again through `b as A`, on the only live `B`. */
  method WritesOfB(b: SharedObject, store: Store, reg: ClassRegistry)
    requires b.Valid() && b.alive && b.className == "B" && b.withRegistry && Count(reg.tokens, "B") == 1
    requires "title" in b.cancellables && b.subs[b.cancellables["title"]] == Subscription("title", OptStr, "B.title", true)
    requires "gender" in b.cancellables && b.subs[b.cancellables["gender"]] == Subscription("gender", OptStr, "B.gender", true)
    requires store.entries == map["A.name" := VStr("Julis"), "A.age" := VInt(12)]
    modifies b, store
    ensures b.Valid() && b.alive
    ensures store.entries == map["A.name" := VStr("Julis"), "A.age" := VInt(12), "B.gender" := VStr("girl")]
  {
    var o := b.Assign("title", OptStrVal(Some("level 2")), store, reg);
    assert store.entries == map["A.name" := VStr("Julis"), "A.age" := VInt(12), "B.title" := VStr("level 2")];
    o := b.Assign("title", OptStrVal(None), store, reg);
    assert store.entries == map["A.name" := VStr("Julis"), "A.age" := VInt(12)];
    o := b.Assign("gender", OptStrVal(Some("girl")), store, reg);
    assert store.entries == map["A.name" := VStr("Julis"), "A.age" := VInt(12), "B.gender" := VStr("girl")];
    o := b.Assign("gender", OptStrVal(Some("boy")), store, reg);
    assert store.entries == map["A.name" := VStr("Julis"), "A.age" := VInt(12), "B.gender" := VStr("boy")];
    o := b.Assign("gender", OptStrVal(Some("girl")), store, reg);
  }

  /**
   * The repository's test: `A` writes name and age, then `B` writes title
   * and gender. Each class writes under its own name, an absent `String?`
   * removes its key, and the last write wins.
   */
  method TestExample() returns (stored: Entries)
    ensures stored == map["A.name" := VStr("Julis"), "A.age" := VInt(12), "B.gender" := VStr("girl")]
  {
    var store := new Store(map[]);
    var reg := new ClassRegistry();
    var a := NewA(store, reg);
    WritesOfA(a, store, reg);
    var b := NewB(store, reg);
    WritesOfB(b, store, reg);
    stored := store.entries;
  }

  /**
   * With two live instances of `A`, the second one's write is refused and
   * the store keeps the first one's value; once the first is destroyed the
   * same write goes through.
   */
  method RefusedThenAccepted(a: SharedObject, a2: SharedObject, store: Store, reg: ClassRegistry)
    returns (whileBoth: Outcome, afterRelease: Outcome)
    requires a != a2 && reg.Valid() && Count(reg.tokens, "A") == 2
    requires a.Valid() && a.alive && a.className == "A" && a.withRegistry
    requires a2.Valid() && a2.alive && a2.className == "A" && a2.withRegistry
    requires "name" in a2.cancellables && a2.subs[a2.cancellables["name"]] == Subscription("name", OptStr, "A.name", true)
    requires store.entries == map["A.name" := VStr("Cosmo")]
    modifies a, a2, store, reg
    ensures whileBoth == Fail(OverlappingLiveInstance("A")) && afterRelease == Pass
    ensures store.entries == map["A.name" := VStr("Julis")]
  {
    whileBoth := a2.Assign("name", OptStrVal(Some("Julis")), store, reg);
    a.Destroy(reg);
    afterRelease := a2.Assign("name", OptStrVal(Some("Julis")), store, reg);
  }

  method OverlapScenario() returns (whileBoth: Outcome, afterRelease: Outcome, stored: Entries)
    ensures whileBoth == Fail(OverlappingLiveInstance("A"))
    ensures afterRelease == Pass
    ensures stored == map["A.name" := VStr("Julis")]
  {
    var store := new Store(map[]);
    var reg := new ClassRegistry();
    var a := NewA(store, reg);
    var o := a.Assign("name", OptStrVal(Some("Cosmo")), store, reg);
    var a2 := NewA(store, reg);
    whileBoth, afterRelease := RefusedThenAccepted(a, a2, store, reg);
    stored := store.entries;
  }

  /** A new instance of `A` built after another one wrote its fields starts with the stored values. */
  method RehydrateScenario() returns (name: FieldValue, age: FieldValue, gender: FieldValue)
    ensures name == OptStrVal(Some("Julis")) && age == IntVal(12)
    ensures gender == OptStrVal(None)
  {
    var store := new Store(map[]);
    var reg := new ClassRegistry();
    var a := NewA(store, reg);
    WritesOfA(a, store, reg);
    a.Destroy(reg);
    var a2 := NewA(store, reg);
    name, age, gender := a2.fields["name"], a2.fields["age"], a2.fields["gender"];
  }

  /** `t.pet` := `p`, then `p.level` := 3, on the only live `T` and `T.Pet`. */
  method MarkPet(t: SharedObject, p: SharedObject, store: Store, reg: ClassRegistry)
    requires t != p && Count(reg.tokens, "T") == 1 && Count(reg.tokens, "T.Pet") == 1
    requires t.Valid() && t.alive && t.className == "T" && t.withRegistry
    requires p.Valid() && p.alive && p.className == "T.Pet" && p.withRegistry
    requires "pet" in t.cancellables && t.subs[t.cancellables["pet"]] == Subscription("pet", OptComposite("T.Pet"), "T.pet", true)
    requires "level" in p.cancellables && p.subs[p.cancellables["level"]] == Subscription("level", Int, "T.Pet.level", true)
    requires store.entries == map[]
    modifies t, p, store
    ensures t.Valid() && t.alive && p.Valid() && p.alive
    ensures store.entries == map["T.pet" := VStr("<T.Pet>"), "T.Pet.level" := VInt(3)]
  {
    var o := t.Assign("pet", ObjVal(p), store, reg);
    assert Marker("T.Pet") == "<T.Pet>";
    assert store.entries == map["T.pet" := VStr("<T.Pet>")];
    o := p.Assign("level", IntVal(3), store, reg);
  }

  /**
   * `T()` written out: allocation, `appendClass`, then the body of `T.bind()`,
   * the single call `bind("pet", \.pet)`. Its `bind` hands back the child it
   * builds, so the child's own hydrated fields are in view.
   */
  method RebuildT(store: Store, reg: ClassRegistry) returns (t: SharedObject, child: SharedObject?)
    requires reg.Valid()
    modifies reg
    ensures fresh(t) && t.Valid() && t.alive && t.className == "T" && t.withRegistry
    ensures reg.Valid() && Count(reg.tokens, "T") == Count(old(reg.tokens), "T") + 1
    ensures "pet" in t.cancellables && t.subs[t.cancellables["pet"]] == Subscription("pet", OptComposite("T.Pet"), "T.pet", true)
    ensures "T.pet" !in store.entries ==> t.fields == ClassT().defaults
    ensures "T.pet" in store.entries ==>
              child != null && fresh(child) && child.className == "T.Pet" && child.alive
              && t.fields == ClassT().defaults["pet" := ObjVal(child)]
    ensures "T.pet" in store.entries && "T.Pet.level" in store.entries ==>
              child != null && "level" in child.fields && child.fields["level"] == Hydrated(Int, store.entries["T.Pet.level"])
  {
    SchemaTWellFormed();
    t := new SharedObject("T", true, ClassT().defaults);
    reg.AppendClass("T");
    AppendedCounts(old(reg.tokens), "T");
    var out;
    out, child := t.Bind("pet", OptComposite("T.Pet"), SchemaT(), TestRank(), store, reg);
    assert out == Pass && StoreKey("T", "pet") == "T.pet";
    assert t.cancellables == map["pet" := 0];
    if "T.pet" in store.entries {
      assert child != null && child.className == "T.Pet" && child.Built(SchemaT(), store.entries);
      BoundPet(child.subs, child.cancellables, store.entries, child.fields);
    }
  }

  /** From the stored marker and level: a new `T` comes back with a child whose level reads 3, and clearing it empties the store. */
  method RestoreAndClear(store: Store, reg: ClassRegistry) returns (restoredPet: FieldValue, restoredLevel: FieldValue)
    requires reg.Valid() && Count(reg.tokens, "T") == 0
    requires store.entries == map["T.pet" := VStr("<T.Pet>"), "T.Pet.level" := VInt(3)]
    modifies store, reg
    ensures HoldsChild(restoredPet, "T.Pet")
    ensures restoredLevel == IntVal(3)
    ensures store.entries == map[]
  {
    var t, child := RebuildT(store, reg);
    restoredPet := t.fields["pet"];
    restoredLevel := child.fields["level"];
    var o := t.Assign("pet", ObjVal(null), store, reg);
    ClearedRemovesChildFields(old(store.entries), "T.pet", "T.Pet", "level");
  }

  /**
   * Setting `T.pet` stores the marker `<T.Pet>` at `T.pet`, next to the
   * child's own fields under `T.Pet`; a new `T` comes back with a child and
   * a new `T.Pet` with the stored level; setting `pet` to nil removes the
   * marker and the child's fields.
   */
  method CompositeScenario() returns (marked: Entries, restoredPet: FieldValue, restoredLevel: FieldValue, cleared: Entries)
    ensures marked == map["T.pet" := VStr("<T.Pet>"), "T.Pet.level" := VInt(3)]
    ensures HoldsChild(restoredPet, "T.Pet")
    ensures restoredLevel == IntVal(3)
    ensures cleared == map[]
  {
    var store := new Store(map[]);
    var reg := new ClassRegistry();
    var t := NewT(store, reg);
    var p := NewPet(store, reg);
    MarkPet(t, p, store, reg);
    marked := store.entries;
    p.Destroy(reg);
    t.Destroy(reg);
    restoredPet, restoredLevel := RestoreAndClear(store, reg);
    cleared := store.entries;
  }

  /** A class whose `bind()` passes a composite to `bindPart`, which only takes scalar key paths. */
  function MisboundSchema(): Schema
  {
    map["M" := ClassDecl(map["pet" := ObjVal(null)], [BindPartCall(map["pet" := Composite("T.Pet")])])]
  }

  /** `M()`: the dispatch falls through to its failing assertion, so building an `M` never succeeds. */
  method NewMisbound(store: Store, reg: ClassRegistry) returns (m: SharedObject, out: Outcome)
    requires reg.Valid()
    modifies reg
    ensures out.Fail?
  {
    var part := map["pet" := Composite("T.Pet")];
    assert "pet" in part && !IsScalar(part["pet"]);
    assert Decl(MisboundSchema(), "M").binds[0] == BindPartCall(part);
    m, out := Construct("M", true, MisboundSchema(), map["M" := 0], store, reg);
  }

  /**
   * The purge of a composite reaches only class names that start with the
   * child's: a grandchild whose class is declared at the top level keeps
   * its field keys.
   */
  lemma ClearKeepsTopLevelGrandchild()
    ensures Cleared(map["T.pet" := VStr(Marker("T.Pet")), "T.Pet.toy" := VStr(Marker("Toy")), "Toy.color" := VStr("red")],
                    "T.pet", "T.Pet")
            == map["Toy.color" := VStr("red")]
  {
    var e := map["T.pet" := VStr(Marker("T.Pet")), "T.Pet.toy" := VStr(Marker("Toy")), "Toy.color" := VStr("red")];
    assert InNamespace("T.Pet.toy", "T.Pet") by {
      assert "T.Pet.toy"[..6] == "T.Pet.";
    }
    assert !InNamespace("Toy.color", "T.Pet") by {
      assert "Toy.color"[1] != ("T.Pet" + ".")[1];
    }
  }

  /** `class Node: ObjcSharedObject { @objc dynamic var next: Node? }`, binding `next` with `bind("next", \Node.next)`. */
  function NodeSchema(): Schema
  {
    map["Node" := ClassDecl(map["next" := ObjVal(null)], [BindCallOne("next", OptComposite("Node"))])]
  }

  /** Once the marker of `Node.next` is stored, every `Node()` builds another `Node()` while binding: no depth suffices. */
  lemma {:induction false} SelfReferenceNeverFinishes(fuel: nat)
    ensures !HydratesWithin(NodeSchema(), "Node", map["Node.next" := VStr(Marker("Node"))], fuel)
  {
    var entries := map["Node.next" := VStr(Marker("Node"))];
    assert StoreKey("Node", "next") == "Node.next";
    assert MayHydrate("Node", Decl(NodeSchema(), "Node").binds[0], entries);
    if fuel > 0 {
      SelfReferenceNeverFinishes(fuel - 1);
    }
  }

  /** The schema admits no rank, so the model's `Construct` cannot be asked to build a `Node`. */
  lemma SelfReferenceNotRanked(rank: map<string, nat>)
    ensures !Ranked(NodeSchema(), rank)
  {
    var next := NodeSchema()["Node"].binds[0];
    assert next.kind.cls == "Node";
  }
}
