# Node editor core: model registry and port hit-testing

This project models two pieces of a visual node-graph editor library in Dafny
and proves properties of them.

1. **`NodeDelegateModelRegistry`**, the catalogue of pluggable node model
   types. It maps a model name to a creator (a zero-argument factory). For
   each name it also keeps a category and a display name. It keeps the set of
   categories seen and an optional display name per category. Model
   registration is first-wins. Category display names are last-wins.
   `create` calls a name's creator, or yields nothing for an unknown name.
2. **`AbstractNodeGeometry::checkPortHit`**, which resolves a node-local
   point to a port. It scans the ports of one direction in index order. It
   returns the first port strictly within `2 x ConnectionPointDiameter` of
   the point, or `InvalidPortIndex`.

Files:

- `wrappers.dfy`: module `Wrappers`, the `Option` type. It stands for a null
  pointer and for an absent static accessor.
- `registry.dfy`: module `ModelRegistry`.
  - `Catalogue` is the registry's five containers as a value. Its operations
    are functions: `WithModel`, `WithCategoryDisplayName`, `Create` and
    `CategoryDisplayName`. The lemmas relate several calls.
  - Class `NodeDelegateModelRegistry` holds the same five containers as
    fields and updates them in place. Each method is proved to produce
    exactly the state the matching `Catalogue` function describes, and to
    keep the invariant `Valid()`.
  - A model type is a value. It carries its optional static `Name()` and
    `DisplayName()` and the instance its default constructor builds. A
    creator is either a client factory with a fixed product or the type's
    default constructor.
  - The ghost field `invoked` logs every creator call. Lemmas
    `NameCallsMatch` and `DisplayNameCallsMatch` prove that the calls logged
    while computing the name and display name are exactly the creators those
    values depend on. So a static `Name()` provably spares the creator call,
    and `create` calls only the creator stored first.
- `geometry.dfy`: module `NodeGeometry`, with `CheckPortHit` as a method
  with a loop.
  - Coordinates are `real`.
  - The C++ code's `sqrt(p . p) < tolerance` becomes
    `0 < tolerance && p . p < tolerance * tolerance`. Lemma
    `SquaredTestMatchesDistance` proves the two tests agree for every
    non-negative distance and every tolerance.
  - The graph model's port counts (`nodeData`), the concrete geometry's
    `portPosition` and the style's connection point diameter are
    parameters.

Without a static `DisplayName()`, the display name is the instance's
`displayName()` (include/QtNodes/internal/NodeDelegateModelRegistry.hpp:137-145).
It does not fall back to the name.

A client creator may return a null pointer. `create` passes that result on
unchanged, so a registered name can still yield null. Reading `name()` or
`displayName()` of a null instance during registration is undefined in the
C++ code, so the registration functions and methods require that every instance
they read is non-null.

## Model

| member | source | states |
|---|---|---|
| `ModelRegistry.Invoke` | include/QtNodes/internal/NodeDelegateModelRegistry.hpp:57 | Calling a creator: the type's default constructor (`std::make_unique`) always yields an instance; a client factory yields what it returns, null included. This also models the `creator()` calls at include/QtNodes/internal/NodeDelegateModelRegistry.hpp:119 and 143, and at src/NodeDelegateModelRegistry.cpp:11 |
| `ModelRegistry.ComputeName` | include/QtNodes/internal/NodeDelegateModelRegistry.hpp:113-121 | The name is the static `Name()` when the type has one, otherwise `name()` of the creator's product; it requires that product to be non-null when it is read |
| `ModelRegistry.NameCallsMatch` | include/QtNodes/internal/NodeDelegateModelRegistry.hpp:116-120 | The creator calls logged for the name are those the name depends on. With none logged (static `Name()`), the name is the same for every creator. With the one call logged, the name is `name()` of that call's non-null instance |
| `ModelRegistry.DisplayNameCallsMatch` | include/QtNodes/internal/NodeDelegateModelRegistry.hpp:140-144 | The same for the display name: with no call logged it is independent of the creator, and otherwise it is `displayName()` of the logged call's instance |
| `ModelRegistry.ComputeDisplayName` | include/QtNodes/internal/NodeDelegateModelRegistry.hpp:137-145 | The display name is the static `DisplayName()` when present, otherwise `displayName()` of the creator's product; it requires that product to be non-null when it is read |
| `ModelRegistry.Catalogue.WithModel` | include/QtNodes/internal/NodeDelegateModelRegistry.hpp:41-52 | Keeps the invariant. A claimed name leaves every container unchanged. A new name gets (creator, category, display name) and its category joins the set. The creators' key set grows by exactly the name. Every other name's entry and the category display names are untouched |
| `ModelRegistry.Catalogue.WithCategoryDisplayName` | include/QtNodes/internal/NodeDelegateModelRegistry.hpp:82-85 | Afterwards the category's display name is the new one. Other categories' display names and all per-model containers are unchanged. The invariant is kept |
| `ModelRegistry.Catalogue.Create` | src/NodeDelegateModelRegistry.cpp:6-15 | For an unknown name, null. For a registered name, exactly what the stored creator returns, which may itself be null. A non-null result implies the name is registered |
| `ModelRegistry.Catalogue.CategoryDisplayName` | src/NodeDelegateModelRegistry.cpp:17-26 | The registered override when there is one, otherwise the category key unchanged |
| `ModelRegistry.RegisterAll` | include/QtNodes/internal/NodeDelegateModelRegistry.hpp:46-51 | Any sequence of registrations from a valid registry keeps the invariant: the three per-model maps share one key set, and every model's category is in the category set |
| `ModelRegistry.CanRegisterAllNamesReadable` | include/QtNodes/internal/NodeDelegateModelRegistry.hpp:45 | If every registration of a sequence can run in order, then every registration's name can be read. So the name-readability precondition of `RegisterAllFirstWins` and `RegisterAllNames` excludes no runnable sequence |
| `ModelRegistry.RegisterModelIdempotent` | include/QtNodes/internal/NodeDelegateModelRegistry.hpp:46 | Registering the same model twice equals registering it once |
| `ModelRegistry.SecondRegistrationIgnored` | include/QtNodes/internal/NodeDelegateModelRegistry.hpp:45-51 | A second registration under a claimed name, with any creator and category, leaves the registry exactly as the first left it |
| `ModelRegistry.RegisterAllKeepsEntry` | include/QtNodes/internal/NodeDelegateModelRegistry.hpp:46 | No later registration changes the entry of an already registered name |
| `ModelRegistry.RegisterAllFirstWins` | include/QtNodes/internal/NodeDelegateModelRegistry.hpp:45-51 | After a sequence of registrations, a name holds the entry of the first registration that claimed it, and `create` returns what that creator returns |
| `ModelRegistry.RegisterAllNames` | include/QtNodes/internal/NodeDelegateModelRegistry.hpp:45-51 | After a sequence of registrations, the registered names are the earlier ones plus every name the sequence claimed |
| `ModelRegistry.CategoryDisplayNameLastWins` | src/NodeDelegateModelRegistry.cpp:19-23 | After setting a category's display name to x and then to y, `categoryDisplayName` returns y |
| `ModelRegistry.NodeDelegateModelRegistry.constructor` | include/QtNodes/internal/NodeDelegateModelRegistry.hpp:30 | A new registry has all five containers empty, satisfies the invariant, and has called no creator |
| `ModelRegistry.NodeDelegateModelRegistry.RegisterModel` | include/QtNodes/internal/NodeDelegateModelRegistry.hpp:41-52 | Requires only that the instance it reads is non-null. The new state is `WithModel` of the old one, and the invariant is kept. The creator is called once for the name unless `Name()` is static. For a new name only, it is called once more for the display name unless `DisplayName()` is static. The default category is "Nodes" |
| `ModelRegistry.NodeDelegateModelRegistry.RegisterModelType` | include/QtNodes/internal/NodeDelegateModelRegistry.hpp:54-59 | Same as `RegisterModel`, with the type's default constructor as the creator and "Nodes" as the default category. It needs no precondition beyond the invariant, because a default-constructed instance is never null |
| `ModelRegistry.NodeDelegateModelRegistry.Create` | src/NodeDelegateModelRegistry.cpp:6-15 | Returns `Catalogue.Create` of the current state. It changes no container. It calls exactly the stored creator of a registered name, and calls nothing for an unknown name |
| `ModelRegistry.NodeDelegateModelRegistry.CategoryDisplayName` | src/NodeDelegateModelRegistry.cpp:17-26 | Returns the override or the key, as `Catalogue.CategoryDisplayName`, and changes nothing |
| `ModelRegistry.NodeDelegateModelRegistry.RegisterCategoryDisplayName` | include/QtNodes/internal/NodeDelegateModelRegistry.hpp:82-85 | The new state is `WithCategoryDisplayName` of the old one. It keeps the invariant and calls no creator |
| `NodeGeometry.Tolerance` | src/AbstractNodeGeometry.cpp:53 | The tolerance is twice the connection point diameter. It is positive exactly when the diameter is |
| `NodeGeometry.WithinTolerance` | src/AbstractNodeGeometry.cpp:64-66 | The test `sqrt(p . p) < tolerance` without the square root: a tolerance that is not positive admits nothing, and a hit has squared distance below the squared tolerance (`SquaredTestMatchesDistance` proves the equivalence) |
| `NodeGeometry.SquaredDistance` | src/AbstractNodeGeometry.cpp:63-64 | The squared distance `p . p` of the difference vector is never negative |
| `NodeGeometry.PortCountRole` | src/AbstractNodeGeometry.cpp:55-58 | The port count is read from `OutPortCount` exactly for `Out`, and from `InPortCount` for every other direction |
| `NodeGeometry.SquaredTestMatchesDistance` | src/AbstractNodeGeometry.cpp:64-66 | For a non-negative distance, the squared test holds exactly when distance < tolerance |
| `NodeGeometry.BoundaryIsNoHit` | src/AbstractNodeGeometry.cpp:66 | Any query point whose distance from a port is exactly the (non-negative) tolerance is not a hit |
| `NodeGeometry.InsideBoundaryIsHit` | src/AbstractNodeGeometry.cpp:66 | Any query point whose distance from a port is the tolerance minus some epsilon in (0, tolerance] is a hit |
| `NodeGeometry.CheckPortHit` | src/AbstractNodeGeometry.cpp:42-73 | Direction `None` gives `InvalidPortIndex`. Otherwise the result is either a port index below the direction's port count that is within tolerance, with no lower index within tolerance (first match), or `InvalidPortIndex` when no port of that direction is within tolerance |

## Left out

- Copy and move constructors and assignment operators: the registry is move-only in C++. Dafny has no ownership model for this, and no operation here depends on it.
- The read-only accessors `registeredModelCreators`, `registeredModelsCategoryAssociation`, `registeredModelsDisplayNameAssociation` and `categories` are the class's public fields. They have no separate member.
- Compile-time machinery: the `HasStaticMethodName`/`HasStaticMethodDisplayName` detection and the `UnwrapUniquePtr` static assertions. A model type instead carries its static accessors as `Option` values.
- `std::unique_ptr`/`std::function` ownership, and creators with side effects: a creator is a value whose call always yields the same result, an instance or null. `create`'s result is an `Option`.
- Iteration order of `std::unordered_map` and the ordering of `std::set`: Dafny `map` and `set` have no order.
- `QString` is modelled as `string`. Qt's string comparison and encoding are not modelled.
- `shape` and `portScenePosition` of the node geometry: they only build a Qt path from the subclass's rectangle or apply a Qt transform.
- The style singleton and the graph model: the connection point diameter, `nodeData` and `portPosition` are parameters of `CheckPortHit`.
- `CheckPortHit`: it does not model IEEE double rounding or `sqrt`. Coordinates are exact reals, and the distance test is the equivalent squared test.
- `CheckPortHit`: the port count is a `nat`. The C++ code reads it as an `unsigned int` (src/AbstractNodeGeometry.cpp:55), so it is at most 2^32 - 1 there. The model does not state that bound.
- `ModelRegistry.Catalogue.WithModel`: requires that every instance it reads is non-null. Dereferencing a null instance during registration is undefined behaviour in the C++ code.
- `ModelRegistry.ComputeName`: requires that every instance it reads is non-null. Dereferencing a null instance during registration is undefined behaviour in the C++ code.
- `ModelRegistry.ComputeDisplayName`: requires that every instance it reads is non-null. Dereferencing a null instance during registration is undefined behaviour in the C++ code.
- `ModelRegistry.NodeDelegateModelRegistry.RegisterModel`: requires that every instance it reads is non-null. Dereferencing a null instance during registration is undefined behaviour in the C++ code.
- `ModelRegistry.Catalogue.Valid` and the invariant kept by `RegisterModel` and `RegisterAll` hold only for creators that return. In C++, a creator that throws while the display name is computed leaves the registry broken. Example: a type with a static `Name()` but no static `DisplayName()`. Lines 47-48 of the header file add the category and the name's category entry. Then `computeDisplayName` throws at line 49, before line 50 stores the creator. The category map now has a key that the creator map lacks. The model has no exceptions, so it does not capture this partially updated state.
- Empty `std::function` creators are not modelled: every creator is callable. Calling an empty one throws `std::bad_function_call`, in `create` or during registration.
