# ObjcSharedObject, modelled in Dafny

`ObjcSharedObject` is a Swift base class whose declared ("bound") fields
write every change through to a flat string-keyed store
(`UserDefaults.standard`) and reload from it when an object is built. This
project models the logic that sits between the Swift runtime and the
store. That logic works on three maps:

- the **store**: a key-to-value map (class `Defaults.Store`);
- each object's **binding table** `cancellables`: a label-to-subscription
  map (class `SharedObjects.SharedObject`). Every subscription carries an
  `active` flag, and the object also keeps the list of every subscription
  it ever created, so a cancelled one is still visible;
- the process-wide **liveness registry** `classTokens`: a class-name-to-count
  map (class `Registry.ClassRegistry`).

The modules follow that split:

- `Defaults` (defaults.dfy): store keys `<owner class>.<label>`, the
  presence marker `"<" + child class + ">"`, and the purge of a composite's
  namespace.
- `Registry` (registry.dfy): `appendClass`, `removeClass`,
  `containsClass` and `isDirtyClass`, and counts over a history of
  constructions and destructions.
- `Binding` (binding.dfy): the closed set of field kinds resolved at bind
  time, scalar hydration, write-through, and the "one live subscription per
  label" invariant of the binding table.
- `SharedObjects` (shared_object.dfy): the bound object itself.
  - Construction runs `appendClass`, then the class's `bind()` body.
  - `bind`/`bingKeyPath` handle composite kinds. An optional composite
    whose marker is stored is hydrated by recursively constructing a child.
  - `bindPart`/`bingPartialKeyPath` handle scalar kinds.
  - `cancelBind`, `cancelBinds` and `cancelAllBinds` stop subscriptions.
  - Field assignment runs the live write-through. In the registry version
    it first refuses to write while the class is dirty.
  - `deinit` cancels every subscription, then runs `removeClass`.
- `Scenarios` (scenarios.dfy): concrete runs.
  - the repository's test with classes `A` and `B`;
  - the overlap example;
  - rehydration of a new instance;
  - the composite marker, restore and purge.

One model covers all four core files. The packaged
`Sources/ObjcUesrDefaults/ObjcUesrDefaults.swift` and the root
`ObjcSharedObject.swift` are the same class; the root file's line numbers
are two lower. Both keep the registry, which is `withRegistry == true` in
the model. `ObjcUserDefaults.swift` and `ObjcUserDefault.swift` are older
snapshots of the same dispatch (`bind_part` instead of `bindPart`). They have
no registry and no public cancel operations, and they are
`withRegistry == false`. In both snapshots (same line numbers):
- `init` is at lines 9-12 and `deinit` at 14-16 (cancel only);
- `bingPartialKeyPath` is at 18-77 and `bingKeyPath` at 79-121;
- `bind` is at 124-127 and `bind_part` at 130-135.
They correspond to `Construct`, `Destroy`, `BindScalar`, `BindComposite`,
`Bind` and `BindPart`. Their write-throughs never check liveness, which is
`Assign` with `withRegistry == false`.

A bound class's `bind()` override is data: a `ClassDecl` holds the
fields' initial values and the sequence of `bind`/`bindPart` calls. A
`Schema` maps fully-qualified class names to their declarations. The
source's failing `assert`s become `Fail` outcomes (`UnsupportedFieldType`,
`OverlappingLiveInstance`).

Where the design description and the code differ, the model follows the
code:

- `cancelBind` only cancels the subscription and leaves the label's entry
  in `cancellables`. So a later bind of that label does not hydrate again.
- The liveness check runs only in the registry version.
- `bindPart` sends a composite kind down the scalar dispatch, where it
  fails as unsupported.
- Setting a composite to nil purges the keys that start with the child's
  class name and a dot. That reaches a grandchild only when its class is
  nested in the child's type. A grandchild of a top-level class keeps its
  keys, so orphaned data can survive.

## Model

| member | source | states |
|---|---|---|
| Defaults.Cleared | Sources/ObjcUesrDefaults/ObjcUesrDefaults.swift:103-108 | clearing a composite leaves no key equal to the field's key or starting with `path + "."`, keeps every other key with its value, and adds no key |
| Defaults.StoreKey | Sources/ObjcUesrDefaults/ObjcUesrDefaults.swift:125 | a field key `<owner>.<label>` lies in its owner's `owner + "."` namespace, the one a composite clear purges |
| Defaults.Marker | Sources/ObjcUesrDefaults/ObjcUesrDefaults.swift:102 | the presence marker is the child's class path enclosed in `<` and `>` |
| Defaults.StoreKeyLabelInjective | Sources/ObjcUesrDefaults/ObjcUesrDefaults.swift:87 | two labels of one class never share a store key |
| Defaults.StoreKeyInjective | ObjcSharedObject.swift:123 | with dot-free labels, a store key determines both the class and the label, so each (class, field) pair has its own key |
| Defaults.ClearedRemovesChildFields | Sources/ObjcUesrDefaults/ObjcUesrDefaults.swift:104-107 | after clearing a composite, no field key of the child class is left |
| Defaults.ClearedRemovesNestedFields | ObjcSharedObject.swift:103-105 | clearing also removes the field keys of grandchildren whose class is nested inside the child's type, the only ones the prefix test reaches |
| Defaults.ClearedIdempotent | Sources/ObjcUesrDefaults/ObjcUesrDefaults.swift:104-107 | clearing twice is the same as clearing once |
| Defaults.Store.ContainsKey | Sources/ObjcUesrDefaults/ObjcUesrDefaults.swift:18-20 | `containsKey` is true exactly when the key has a value |
| Defaults.Store.Set | Sources/ObjcUesrDefaults/ObjcUesrDefaults.swift:138 | `setValue(v, forKey:)` maps the key to `v` and changes nothing else |
| Defaults.Store.Remove | Sources/ObjcUesrDefaults/ObjcUesrDefaults.swift:104 | `setValue(nil, forKey:)` removes exactly that key |
| Defaults.Store.ClearNamespace | ObjcUserDefaults.swift:107-110 | the removal loop leaves the store equal to `Cleared` of the old store |
| Registry.Count | Sources/ObjcUesrDefaults/ObjcUesrDefaults.swift:207 | a class missing from the registry counts zero, and a registry of non-negative counts gives a non-negative count |
| Registry.Appended | Sources/ObjcUesrDefaults/ObjcUesrDefaults.swift:197-204 | `appendClass` increments a positive count and otherwise sets it to one; every other class keeps its count |
| Registry.Removed | Sources/ObjcUesrDefaults/ObjcUesrDefaults.swift:190-195 | `removeClass` decrements only a positive count; every other class keeps its count |
| Registry.AppendedCounts | Sources/ObjcUesrDefaults/ObjcUesrDefaults.swift:197-204 | `appendClass` adds exactly one to its class's count (starting at 1), touches no other class and keeps counts non-negative |
| Registry.RemovedCounts | ObjcSharedObject.swift:188-193 | `removeClass` takes one away only from a positive count, never goes below zero and touches no other class |
| Registry.AppendRemoveRoundTrip | Sources/ObjcUesrDefaults/ObjcUesrDefaults.swift:29-38 | constructing and then destroying an instance leaves every count as it was |
| Registry.ReplayCountsLive | Sources/ObjcUesrDefaults/ObjcUesrDefaults.swift:190-212 | along any history of constructions and destructions of live instances, the count equals the number of live instances, and the class is dirty exactly when more than one is alive |
| Registry.ClassRegistry.constructor | Sources/ObjcUesrDefaults/ObjcUesrDefaults.swift:188 | the registry starts empty |
| Registry.ClassRegistry.ContainsClass | Sources/ObjcUesrDefaults/ObjcUesrDefaults.swift:206-208 | `containsClass` is true exactly when the class's count is positive |
| Registry.ClassRegistry.IsDirtyClass | ObjcSharedObject.swift:208-210 | `isDirtyClass` is true exactly when the class's count is above one |
| Registry.ClassRegistry.AppendClass | ObjcSharedObject.swift:195-202 | the registry becomes `Appended(old, cls)` and stays non-negative |
| Registry.ClassRegistry.RemoveClass | Sources/ObjcUesrDefaults/ObjcUesrDefaults.swift:190-195 | the registry becomes `Removed(old, cls)` and stays non-negative |
| Binding.Hydrated | Sources/ObjcUesrDefaults/ObjcUesrDefaults.swift:131-173 | the value hydrated from the store always has the field's declared type; a non-optional String falls back to "" |
| Binding.ScalarRoundTrip | Sources/ObjcUesrDefaults/ObjcUesrDefaults.swift:141-148 | hydrating from a scalar write-through gives back the value written; a nil `String?` leaves no key, in both directions |
| Binding.Written | Sources/ObjcUesrDefaults/ObjcUesrDefaults.swift:143-148 | a scalar write-through stores its key exactly when the value is not a nil `String?`, and keeps every other key with its value |
| Binding.CompositeWritten | Sources/ObjcUesrDefaults/ObjcUesrDefaults.swift:101-107 | a present child stores the marker at its key; an absent one removes the key and leaves no key in the child's namespace; every other key, and outside that namespace, keeps its value |
| Binding.WriteThrough | Sources/ObjcUesrDefaults/ObjcUesrDefaults.swift:98-110 | a subscription's write-through changes only its own key, and for a cleared composite the child's namespace |
| Binding.WriteThroughIdempotent | ObjcSharedObject.swift:96-108 | assigning the same value twice leaves the store where one assignment left it |
| Binding.ScalarLastWriteWins | Sources/ObjcUesrDefaults/ObjcUesrDefaults.swift:155-158 | for a scalar field the second of two writes alone decides the store |
| Binding.CompositeMarkerRoundTrip | ObjcUserDefault.swift:104-111 | a present child stores exactly the marker `"<" + path + ">"` at the key; an absent one removes the key and every field key of the child class |
| Binding.CancelAtSpec | Sources/ObjcUesrDefaults/ObjcUesrDefaults.swift:66-69 | cancelling a label keeps the table invariant, stops every subscription of that label and leaves the others unchanged |
| Binding.CancelAt | Sources/ObjcUesrDefaults/ObjcUesrDefaults.swift:66-69 | cancelling a label deactivates exactly the subscription its table entry points to and changes nothing else about any subscription |
| Binding.RebindLeavesOneLive | Sources/ObjcUesrDefaults/ObjcUesrDefaults.swift:122 | cancelling before storing the new subscription leaves it the only live subscription of its label |
| Binding.RebindWithoutCancelDuplicates | ObjcUserDefaults.swift:20 | in the model, where every subscription stays in `subs`, the one-live-subscription-per-label invariant needs that cancel: storing a new live subscription while the old one is live breaks it |
| Binding.CancelEachSpec | Sources/ObjcUesrDefaults/ObjcUesrDefaults.swift:60-63 | `cancelBinds(names)` stops every subscription of a listed label and leaves every other one as it was |
| Binding.CancelEach | Sources/ObjcUesrDefaults/ObjcUesrDefaults.swift:60-63 | cancelling a list of labels only ever deactivates subscriptions, one position at a time |
| SharedObjects.Persist | Sources/ObjcUesrDefaults/ObjcUesrDefaults.swift:101-107 | firing a subscription leaves the store equal to `WriteThrough` of the old store |
| SharedObjects.Construct | Sources/ObjcUesrDefaults/ObjcUesrDefaults.swift:29-33 | construction registers the class (registry version), then runs `bind()`. Every label ends bound with its last kind, and every label first bound as a scalar or optional composite without a table entry hydrates from a stored key, an optional composite to a child of its class. Other fields keep their defaults, no other field appears, and only classes ranked below are added to. A passing construction implies every call of `bind()` was supported, and an all-supported schema always passes |
| SharedObjects.BoundPrefixPart | Sources/ObjcUesrDefaults/ObjcUesrDefaults.swift:47-52 | a `bindPart` call extends the bound labels by its dictionary and hydrates only labels bound for the first time |
| SharedObjects.BoundPrefixOne | Sources/ObjcUesrDefaults/ObjcUesrDefaults.swift:41-44 | a `bind(label, keyPath)` call rebinds its label and hydrates it only when it is bound for the first time |
| SharedObjects.SharedObject.constructor | ObjcSharedObject.swift:27-28 | a new object holds its fields' initial values and no binding |
| SharedObjects.SharedObject.CancelBind | Sources/ObjcUesrDefaults/ObjcUesrDefaults.swift:66-69 | `cancelBind` stops the label's subscription and keeps its table entry and the fields |
| SharedObjects.SharedObject.CancelBinds | Sources/ObjcUesrDefaults/ObjcUesrDefaults.swift:60-63 | the loop leaves the subscriptions equal to `CancelEach` of the labels |
| SharedObjects.SharedObject.CancelAllBinds | ObjcSharedObject.swift:69-71 | every subscription stops; the table and the fields are kept |
| SharedObjects.SharedObject.BindScalar | Sources/ObjcUesrDefaults/ObjcUesrDefaults.swift:120-184 | cancels the old subscription first. A scalar kind then hydrates only if the key is stored and the label has no entry, and stores a live subscription. Any other kind fails as unsupported |
| SharedObjects.SharedObject.Subscribe | Sources/ObjcUesrDefaults/ObjcUesrDefaults.swift:98 | once the label's old subscription is cancelled, storing the new live one rebinds the label and keeps the fields |
| SharedObjects.SharedObject.BindPart | Sources/ObjcUesrDefaults/ObjcUesrDefaults.swift:47-52 | binds every label of the dictionary. It passes exactly when all kinds are scalar, and otherwise fails naming a non-scalar label |
| SharedObjects.SharedObject.BindPartLabel | Sources/ObjcUesrDefaults/ObjcUesrDefaults.swift:120-184 | one label of a `bindPart` dictionary passes exactly when its kind is scalar, fails naming that label otherwise, and a pass extends the bound labels by it |
| SharedObjects.SharedObject.HydrateChild | Sources/ObjcUesrDefaults/ObjcUesrDefaults.swift:93-96 | the field gets a freshly constructed child of the unwrapped class, itself built from the store: its labels bound and its first bindings hydrated |
| SharedObjects.SharedObject.BindComposite | Sources/ObjcUesrDefaults/ObjcUesrDefaults.swift:80-110 | cancels the old subscription. Only an optional composite whose key is stored and whose label is unbound gets a new child, built from the store; nothing else changes the fields or the registry. Then a live subscription is stored |
| SharedObjects.SharedObject.Bind | Sources/ObjcUesrDefaults/ObjcUesrDefaults.swift:75-118 | composite kinds go to the composite dispatch and the rest to the scalar one. A scalar kind always passes and an unsupported one fails. A passing bind rebinds its label; an optional composite first bound with its key stored gets a fresh child of its class, with its own labels bound and first bindings hydrated from the store, and nothing else changes the fields. A bind that cannot construct a child leaves the registry unchanged |
| SharedObjects.SharedObject.RunCall | Tests/ObjcUesrDefaultsTests/ObjcUesrDefaultsTests.swift:24-31 | one call of a `bind()` body extends the bound prefix |
| SharedObjects.SharedObject.RunBinds | Sources/ObjcUesrDefaults/ObjcUesrDefaults.swift:25-32 | running `bind()` binds every label with its last kind and hydrates every first binding of a scalar or optional composite whose key is stored; fields bound otherwise keep their defaults, and no other field appears. A pass implies every call was supported, and it passes whenever every call and every class of the schema are supported |
| SharedObjects.SharedObject.Assign | Sources/ObjcUesrDefaults/ObjcUesrDefaults.swift:135-140 | the field takes the value. A live subscription then writes it through exactly once, unless the class is dirty in the registry version: then the write fails with `OverlappingLiveInstance` and the store is unchanged |
| SharedObjects.SharedObject.Destroy | Sources/ObjcUesrDefaults/ObjcUesrDefaults.swift:35-38 | `deinit` stops every subscription, then takes the instance out of the registry |
| SharedObjects.RankedHydratesWithin | Sources/ObjcUesrDefaults/ObjcUesrDefaults.swift:93-95 | when optional composites never lead back to a class being built, hydration nests at most as deep as the class's rank, whatever the store holds |
| Scenarios.SchemaABWellFormed | Tests/ObjcUesrDefaultsTests/ObjcUesrDefaultsTests.swift:6-32 | the test's classes bind only supported kinds and no composite |
| Scenarios.SchemaTWellFormed | Sources/ObjcUesrDefaults/ObjcUesrDefaults.swift:270-303 | a class with an optional composite of a nested class is well ranked and supported |
| Scenarios.KindsA | Tests/ObjcUesrDefaultsTests/ObjcUesrDefaultsTests.swift:12-17 | `A` binds name as `String?` and age as `Int` |
| Scenarios.KindsB | Tests/ObjcUesrDefaultsTests/ObjcUesrDefaultsTests.swift:24-31 | `B` binds name, age, title and gender; age is bound twice and keeps its first kind |
| Scenarios.KindsT | Sources/ObjcUesrDefaults/ObjcUesrDefaults.swift:284 | `T` binds `pet` as an optional composite of `T.Pet` |
| Scenarios.KindsPet | Sources/ObjcUesrDefaults/ObjcUesrDefaults.swift:296-302 | `T.Pet` binds `level` as `Int` |
| Scenarios.BoundA | Tests/ObjcUesrDefaultsTests/ObjcUesrDefaultsTests.swift:43 | a new `A` has live subscriptions at `A.name` and `A.age` |
| Scenarios.BoundB | Tests/ObjcUesrDefaultsTests/ObjcUesrDefaultsTests.swift:50-57 | a new `B` writes title and gender under `B`, even through `b as A` |
| Scenarios.HydratedA | Tests/ObjcUesrDefaultsTests/ObjcUesrDefaultsTests.swift:6-18 | a new `A` takes name and age from the store; gender is not bound and stays nil |
| Scenarios.BoundT | Sources/ObjcUesrDefaults/ObjcUesrDefaults.swift:93-96 | a new `T` has a `pet` subscription at `T.pet`, and a child whenever the marker is stored |
| Scenarios.BoundPet | Sources/ObjcUesrDefaults/ObjcUesrDefaults.swift:319 | a new `T.Pet` has its `level` subscription at `T.Pet.level` and hydrates level |
| Scenarios.NewA | Tests/ObjcUesrDefaultsTests/ObjcUesrDefaultsTests.swift:43 | `A()` registers one more `A` and binds and hydrates name and age |
| Scenarios.NewB | Tests/ObjcUesrDefaultsTests/ObjcUesrDefaultsTests.swift:50 | `B()` registers one more `B` and binds title and gender under `B` |
| Scenarios.NewT | Sources/ObjcUesrDefaults/ObjcUesrDefaults.swift:316 | `T()` registers one more `T` and constructs a child only when the marker is stored |
| Scenarios.NewPet | Sources/ObjcUesrDefaults/ObjcUesrDefaults.swift:318 | `T.Pet()` registers one more `T.Pet` and hydrates level |
| Scenarios.RebuildT | Sources/ObjcUesrDefaults/ObjcUesrDefaults.swift:29-33 | `T()` written out registers one more `T` and binds `pet`; with the marker stored its child is fresh and reads its level from the store |
| Scenarios.WritesOfA | Tests/ObjcUesrDefaultsTests/ObjcUesrDefaultsTests.swift:44-48 | the writes of `a` leave `A.name = Julis` and `A.age = 12` |
| Scenarios.WritesOfB | Tests/ObjcUesrDefaultsTests/ObjcUesrDefaultsTests.swift:51-57 | the writes of `b` add `B.gender = girl` only |
| Scenarios.TestExample | Tests/ObjcUesrDefaultsTests/ObjcUesrDefaultsTests.swift:36-58 | the test leaves exactly `{A.name: Julis, A.age: 12, B.gender: girl}` in the store |
| Scenarios.RefusedThenAccepted | Sources/ObjcUesrDefaults/ObjcUesrDefaults.swift:345-351 | the second instance's write is refused while both live, and goes through once the first is destroyed |
| Scenarios.OverlapScenario | Sources/ObjcUesrDefaults/ObjcUesrDefaults.swift:331-351 | the overlap example ends with `A.name = Julis`, after one refused write |
| Scenarios.RehydrateScenario | Sources/ObjcUesrDefaults/ObjcUesrDefaults.swift:141-153 | a new `A` built after another one wrote reads name Julis and age 12; the unbound gender stays nil |
| Scenarios.MarkPet | Sources/ObjcUesrDefaults/ObjcUesrDefaults.swift:318-320 | setting the child stores the marker `<T.Pet>` at `T.pet`, and the child's level lands under `T.Pet` |
| Scenarios.RestoreAndClear | Sources/ObjcUesrDefaults/ObjcUesrDefaults.swift:323-327 | a stored marker gives a new `T` a child, and that child reads level 3; setting `pet` to nil empties the store |
| Scenarios.CompositeScenario | Sources/ObjcUesrDefaults/ObjcUesrDefaults.swift:316-327 | marker and child fields are stored side by side, restored on rebuild, and purged together |
| Scenarios.ClearKeepsTopLevelGrandchild | Sources/ObjcUesrDefaults/ObjcUesrDefaults.swift:104-107 | setting `pet` to nil leaves the field key of a grandchild whose class `Toy` is not nested in `T.Pet` |
| Scenarios.NewMisbound | Sources/ObjcUesrDefaults/ObjcUesrDefaults.swift:47-52 | a class whose `bind()` passes a composite to `bindPart` can never be built: construction fails |
| Scenarios.SelfReferenceNeverFinishes | Sources/ObjcUesrDefaults/ObjcUesrDefaults.swift:93-95 | a class with an optional field of its own type, whose marker is stored, needs deeper nesting than any bound |
| Scenarios.SelfReferenceNotRanked | Sources/ObjcUesrDefaults/ObjcUesrDefaults.swift:93-95 | that class admits no rank, so the model never builds it |

## Left out

- Combine and KVO plumbing are replaced by an explicit `Assign`: `publisher(for:)`, `dropFirst`, `sink`, `Cancellable` and `[weak self]`. The value current at bind time is never written because hydration only changes `fields`, not the store.
- `UserDefaults` is an in-memory map. Its typed readers are simplified: a stored value of another type reads as the type's default. Foundation's own conversions (a string "12" read by `integer(forKey:)`, for example) are not modelled.
- Double fields are `real` values that are stored and read back; nothing computes with them.
- Swift reflection and KVC are left out: `OptionalProtocol`, `is X.Type`, `setValue(forKey:)`, `NSExpression`. The field kind is given to `Bind` as a closed datatype.
- `cancelBind(keyPath)` (Sources/ObjcUesrDefaults/ObjcUesrDefaults.swift:55-57) is not modelled separately. It converts a key path to its label by reflection and then is `CancelBind`.
- `String(reflecting:)` and `NSStringFromClass` both become the one class-name string `className`. The source keys the registry by the second name and the store by the first.
- Key paths rooted at another class are left out. The model's `Bind` takes a label and a kind, with no root type for the key path. In the source the root `T` is inferred from the key path, so `bind("x", \B.title)` on a plain `A` reaches the "Never run" assertion at Sources/ObjcUesrDefaults/ObjcUesrDefaults.swift:112-116, or the forced cast `self as! T` at Sources/ObjcUesrDefaults/ObjcUesrDefaults.swift:98 for a composite. Neither path is modelled.
- A label is taken to be the name of the property it observes: hydration and `Assign` address the field by its label. The source keeps the two apart, so `bindPart(self, ["a": \.age, "b": \.age])` writes every change of `age` to two keys, and `setValue(forKey: label)` hydrates a property named after the label. Two labels on one property, or a label differing from its property, are not expressible.
- `print` logging and ARC timing are left out: destruction is the explicit `Destroy`.
- A non-optional composite field's initial child is left out. Its construction is part of the field's initializer, not of the binding logic.
- Releasing a child that a composite field no longer holds is left out, and so is its namespace. The code only rewrites or clears the marker.
- SharedObjects.Construct: requires the schema to be ranked (acyclic through optional composites). The source recurses without bound when a stored marker leads back to a class already being built; see "## Findings".
- SharedObjects.Construct: states only that a hydrated field holds a child of the right class. That the child is fresh and itself built from the store is stated for each call by `HydrateChild`, `BindComposite` and `Bind`, and is not carried through the rest of `bind()`.
- Releasing a replaced `AnyCancellable`, which cancels it, is not modelled: the model keeps every subscription in `subs`, so only the explicit cancel before each rebind stops the old one.
- SharedObjects.SharedObject.Assign: requires the new value to have the field's declared type, which Swift's type checker guarantees.
- The composite example at Sources/ObjcUesrDefaults/ObjcUesrDefaults.swift:270-327 is modelled reduced and renamed: `A` is `T`, `A_B` is `T.Pet`, and only `level` of `A_B` is kept. The non-optional composite `ac: A_C` (lines 276, 285 and 311-313) is dropped: its child comes from the field's initializer, which is not modelled (see above), and `FieldsHydrated` already states that such a field is never hydrated.
- `assert` is modelled as a `Fail` outcome that ends the operation. The assertion is compiled out in release builds, where the write would go ahead; that path is not modelled.
- Running a `bind()` body stops at its first failing call, as the process would at a failing `assert`.

## Findings

| source | as written | input that shows it | evidently intended | confidence | as-written member | corrected member |
|---|---|---|---|---|---|---|
| Sources/ObjcUesrDefaults/ObjcUesrDefaults.swift:93-95 | an optional composite whose key is stored is hydrated by constructing the wrapped class, whose own `bind()` may do the same, with no check that the class is already being built | `class Node: ObjcSharedObject { @objc dynamic var next: Node? }` binding `bind("next", \Node.next)`, with `Node.next` stored: every `Node()` builds another `Node()` until the stack overflows | hydration ends: a chain of optional composites never leads back to a class already being built | not executed | Scenarios.SelfReferenceNeverFinishes | SharedObjects.RankedHydratesWithin |
