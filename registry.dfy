/**
 The node delegate model registry
 (include/QtNodes/internal/NodeDelegateModelRegistry.hpp and
 src/NodeDelegateModelRegistry.cpp): a catalogue mapping a model name to the
 creator that builds instances of that model, with a category and a display
 name per model, the set of categories seen, and optional display names for
 categories.

 `Catalogue` is the registry's contents as a value, with the operations as
 functions and the properties as lemmas; `NodeDelegateModelRegistry` is the
 class whose methods update the five containers in place and are proved
 against those functions.
 */
module ModelRegistry {

  import opened Wrappers

  /** The category a model is filed under when registration names none. */
  const DefaultCategory: string := "Nodes"

  /** What a node model instance answers to `name()` and `displayName()`. */
  datatype NodeModel = NodeModel(name: string, displayName: string)

  /**
   A registrable model type: its static `Name()` and `DisplayName()` when it
   declares them, and the instance its default constructor builds.
   */
  datatype ModelType = ModelType(
    staticName: Option<string>,
    staticDisplayName: Option<string>,
    defaultInstance: NodeModel)

  /**
   A zero-argument creator. `Factory(p)` is a callable supplied by the client
   that returns `p`, where `None` is a null pointer; `MakeUnique(t)`
   default-constructs model type `t`.
   */
  datatype Creator = Factory(product: Option<NodeModel>) | MakeUnique(modelType: ModelType)

  /** What a call of the creator returns. */
  function Invoke(creator: Creator): (r: Option<NodeModel>)
    ensures creator.MakeUnique? ==> r == Some(creator.modelType.defaultInstance)
    ensures creator.Factory? ==> r == creator.product
  {
    match creator
    case Factory(product) => product
    case MakeUnique(t) => Some(t.defaultInstance)
  }

  /** `computeName` needs no dereference of a null instance. */
  predicate NameReadable(t: ModelType, creator: Creator) {
    t.staticName.Some? || Invoke(creator).Some?
  }

  /** `computeDisplayName` needs no dereference of a null instance. */
  predicate DisplayNameReadable(t: ModelType, creator: Creator) {
    t.staticDisplayName.Some? || Invoke(creator).Some?
  }

  /** The creator calls needed to read a value that a static accessor may supply. */
  function CallsUnlessStatic(accessor: Option<string>, creator: Creator): (calls: seq<Creator>)
    ensures accessor.Some? <==> calls == []
    ensures accessor.None? ==> calls == [creator]
  {
    if accessor.Some? then [] else [creator]
  }

  /**
   The registered name of a model: the type's static `Name()` when it has
   one, without calling the creator; otherwise `name()` of a freshly created
   instance.
   */
  function ComputeName(t: ModelType, creator: Creator): (name: string)
    requires NameReadable(t, creator)
    ensures t.staticName.Some? ==> name == t.staticName.value
    ensures t.staticName.None? ==> name == Invoke(creator).value.name
  {
    match t.staticName
    case Some(n) => n
    case None => Invoke(creator).value.name
  }

  /**
   The creator calls logged for the name are exactly the ones the name
   depends on: with no call logged the name is the same for every creator,
   and with one call logged it is that call's instance's `name()`.
   */
  lemma NameCallsMatch(t: ModelType, creator: Creator, other: Creator)
    requires NameReadable(t, creator) && NameReadable(t, other)
    ensures CallsUnlessStatic(t.staticName, creator) == [] ==>
              ComputeName(t, creator) == ComputeName(t, other)
    ensures CallsUnlessStatic(t.staticName, creator) == [creator] ==>
              Invoke(creator).Some? && ComputeName(t, creator) == Invoke(creator).value.name
  {
  }

  /** The display name analogue of `NameCallsMatch`. */
  lemma DisplayNameCallsMatch(t: ModelType, creator: Creator, other: Creator)
    requires DisplayNameReadable(t, creator) && DisplayNameReadable(t, other)
    ensures CallsUnlessStatic(t.staticDisplayName, creator) == [] ==>
              ComputeDisplayName(t, creator) == ComputeDisplayName(t, other)
    ensures CallsUnlessStatic(t.staticDisplayName, creator) == [creator] ==>
              && Invoke(creator).Some?
              && ComputeDisplayName(t, creator) == Invoke(creator).value.displayName
  {
  }

  /** The display name of a model, by the same rule with `DisplayName()`/`displayName()`. */
  function ComputeDisplayName(t: ModelType, creator: Creator): (displayName: string)
    requires DisplayNameReadable(t, creator)
    ensures t.staticDisplayName.Some? ==> displayName == t.staticDisplayName.value
    ensures t.staticDisplayName.None? ==> displayName == Invoke(creator).value.displayName
  {
    match t.staticDisplayName
    case Some(d) => d
    case None => Invoke(creator).value.displayName
  }

  /** Everything the registry holds about one registered name. */
  datatype Entry = Entry(creator: Creator, category: string, displayName: string)

  /** One call of `registerModel`. */
  datatype Registration = Registration(modelType: ModelType, creator: Creator, category: string)
  {
    function Name(): string
      requires NameReadable(modelType, creator)
    {
      ComputeName(modelType, creator)
    }

    function AsEntry(): Entry
      requires DisplayNameReadable(modelType, creator)
    {
      Entry(creator, category, ComputeDisplayName(modelType, creator))
    }
  }

  /** The contents of the registry's five containers. */
  datatype Catalogue = Catalogue(
    creators: map<string, Creator>,
    modelsCategory: map<string, string>,
    modelsDisplayName: map<string, string>,
    categories: set<string>,
    categoriesDisplayName: map<string, string>)
  {
    /**
     The three per-model maps share one key set, and every model's category
     is among the categories seen.
     */
    ghost predicate Valid() {
      && modelsCategory.Keys == creators.Keys
      && modelsDisplayName.Keys == creators.Keys
      && modelsCategory.Values <= categories
    }

    /** The entry registered under `name`, if any. */
    function EntryOf(name: string): Option<Entry> {
      if name in creators && name in modelsCategory && name in modelsDisplayName
      then Some(Entry(creators[name], modelsCategory[name], modelsDisplayName[name]))
      else None
    }

    /**
     The C++ `registerModel` can run on this state without dereferencing a
     null instance: the name is readable, and so is the display name when the
     name is new (the display name of a claimed name is never computed).
     */
    predicate CanRegister(t: ModelType, creator: Creator) {
      && NameReadable(t, creator)
      && (ComputeName(t, creator) !in creators ==> DisplayNameReadable(t, creator))
    }

    /**
     `registerModel`: a name that is already registered leaves everything as
     it is (first registration wins); a new name gets the creator, category
     and display name, and its category joins the category set.
     */
    function WithModel(t: ModelType, creator: Creator, category: string := DefaultCategory): (r: Catalogue)
      requires Valid()
      requires CanRegister(t, creator)
      ensures r.Valid()
      ensures ComputeName(t, creator) in creators ==> r == this
      ensures ComputeName(t, creator) !in creators ==>
                && r.EntryOf(ComputeName(t, creator))
                     == Some(Entry(creator, category, ComputeDisplayName(t, creator)))
                && r.categories == categories + {category}
      ensures r.creators.Keys == creators.Keys + {ComputeName(t, creator)}
      ensures forall n :: n != ComputeName(t, creator) ==> r.EntryOf(n) == EntryOf(n)
      ensures categories <= r.categories
      ensures r.categoriesDisplayName == categoriesDisplayName
    {
      var name := ComputeName(t, creator);
      if name in creators then this
      else
        Catalogue(
          creators[name := creator],
          modelsCategory[name := category],
          modelsDisplayName[name := ComputeDisplayName(t, creator)],
          categories + {category},
          categoriesDisplayName)
    }

    /** `registerCategoryDisplayName`: an unconditional upsert. */
    function WithCategoryDisplayName(category: string, displayName: string): (r: Catalogue)
      ensures r.CategoryDisplayName(category) == displayName
      ensures forall c :: c != category ==> r.CategoryDisplayName(c) == CategoryDisplayName(c)
      ensures r.categoriesDisplayName.Keys == categoriesDisplayName.Keys + {category}
      ensures && r.creators == creators && r.modelsCategory == modelsCategory
              && r.modelsDisplayName == modelsDisplayName && r.categories == categories
      ensures Valid() ==> r.Valid()
    {
      this.(categoriesDisplayName := categoriesDisplayName[category := displayName])
    }

    /**
     `create`: whatever the name's stored creator returns (null included),
     or null for an unknown name.
     */
    function Create(modelName: string): (r: Option<NodeModel>)
      ensures modelName !in creators ==> r == None
      ensures modelName in creators ==> r == Invoke(creators[modelName])
      ensures r.Some? ==> modelName in creators
    {
      if modelName in creators then Invoke(creators[modelName]) else None
    }

    /** `categoryDisplayName`: the override for `category`, else `category` itself. */
    function CategoryDisplayName(category: string): (r: string)
      ensures category in categoriesDisplayName ==> r == categoriesDisplayName[category]
      ensures category !in categoriesDisplayName ==> r == category
    {
      if category in categoriesDisplayName then categoriesDisplayName[category] else category
    }
  }

  /** The registry as its default constructor leaves it. */
  const Empty: Catalogue := Catalogue(map[], map[], map[], {}, map[])

  /** Every registration in the sequence can be run, each on the state the earlier ones leave. */
  predicate CanRegisterAll(c: Catalogue, regs: seq<Registration>)
    requires c.Valid()
    decreases |regs|
  {
    || regs == []
    || (&& c.CanRegister(regs[0].modelType, regs[0].creator)
        && CanRegisterAll(c.WithModel(regs[0].modelType, regs[0].creator, regs[0].category), regs[1..]))
  }

  /** Every registration in the sequence has a readable name. */
  predicate NamesReadable(regs: seq<Registration>) {
    forall i :: 0 <= i < |regs| ==> NameReadable(regs[i].modelType, regs[i].creator)
  }

  lemma NamesReadableTail(regs: seq<Registration>)
    requires regs != [] && NamesReadable(regs)
    ensures NamesReadable(regs[1..])
  {
    forall k | 0 <= k < |regs| - 1
      ensures NameReadable(regs[1..][k].modelType, regs[1..][k].creator)
    {
      assert regs[1..][k] == regs[k + 1];
    }
  }

  /** Applies a sequence of `registerModel` calls in order. */
  function RegisterAll(c: Catalogue, regs: seq<Registration>): (r: Catalogue)
    requires c.Valid()
    requires CanRegisterAll(c, regs)
    ensures r.Valid()
    decreases |regs|
  {
    if regs == [] then c
    else RegisterAll(c.WithModel(regs[0].modelType, regs[0].creator, regs[0].category), regs[1..])
  }

  /**
   A sequence that can be registered reads every registration's name: the
   `NamesReadable` precondition of `RegisterAllFirstWins` and
   `RegisterAllNames` excludes no sequence that `CanRegisterAll` admits.
   */
  lemma {:induction false} CanRegisterAllNamesReadable(c: Catalogue, regs: seq<Registration>)
    requires c.Valid()
    requires CanRegisterAll(c, regs)
    ensures NamesReadable(regs)
    decreases |regs|
  {
    if regs != [] {
      var next := c.WithModel(regs[0].modelType, regs[0].creator, regs[0].category);
      CanRegisterAllNamesReadable(next, regs[1..]);
      forall i | 0 <= i < |regs|
        ensures NameReadable(regs[i].modelType, regs[i].creator)
      {
        if i > 0 {
          assert regs[i] == regs[1..][i - 1];
        }
      }
    }
  }

  /** Registering the same model twice is the same as registering it once. */
  lemma RegisterModelIdempotent(c: Catalogue, t: ModelType, creator: Creator, category: string)
    requires c.Valid()
    requires c.CanRegister(t, creator)
    ensures c.WithModel(t, creator, category).WithModel(t, creator, category)
            == c.WithModel(t, creator, category)
  {
  }

  /**
   A second registration under an already claimed name changes nothing:
   `create` keeps returning the first creator's product.
   */
  lemma SecondRegistrationIgnored(c: Catalogue, first: Registration, second: Registration)
    requires c.Valid()
    requires c.CanRegister(first.modelType, first.creator)
    requires NameReadable(second.modelType, second.creator)
    requires first.Name() == second.Name()
    ensures var once := c.WithModel(first.modelType, first.creator, first.category);
            once.WithModel(second.modelType, second.creator, second.category) == once
  {
  }

  /** Once a name is registered, no later registration changes its entry. */
  lemma {:induction false} RegisterAllKeepsEntry(c: Catalogue, regs: seq<Registration>, name: string)
    requires c.Valid()
    requires CanRegisterAll(c, regs)
    requires name in c.creators
    ensures RegisterAll(c, regs).EntryOf(name) == c.EntryOf(name)
    decreases |regs|
  {
    if regs != [] {
      var next := c.WithModel(regs[0].modelType, regs[0].creator, regs[0].category);
      RegisterAllKeepsEntry(next, regs[1..], name);
    }
  }

  /**
   After a sequence of registrations, a name that was free beforehand holds
   the entry of the first registration that claimed it, and `create` calls
   that registration's creator.
   */
  lemma {:induction false} RegisterAllFirstWins(c: Catalogue, regs: seq<Registration>, i: nat)
    requires c.Valid()
    requires CanRegisterAll(c, regs)
    requires NamesReadable(regs)
    requires i < |regs|
    requires regs[i].Name() !in c.creators
    requires forall j :: 0 <= j < i ==> regs[j].Name() != regs[i].Name()
    ensures && DisplayNameReadable(regs[i].modelType, regs[i].creator)
            && RegisterAll(c, regs).EntryOf(regs[i].Name()) == Some(regs[i].AsEntry())
    ensures RegisterAll(c, regs).Create(regs[i].Name()) == Invoke(regs[i].creator)
    decreases |regs|
  {
    var next := c.WithModel(regs[0].modelType, regs[0].creator, regs[0].category);
    if i == 0 {
      RegisterAllKeepsEntry(next, regs[1..], regs[0].Name());
    } else {
      NamesReadableTail(regs);
      RegisterAllFirstWins(next, regs[1..], i - 1);
    }
  }

  /** The names a sequence of registrations claims. */
  function Names(regs: seq<Registration>): set<string>
    requires NamesReadable(regs)
    decreases |regs|
  {
    if regs == [] then {}
    else
      NamesReadableTail(regs);
      {regs[0].Name()} + Names(regs[1..])
  }

  /** The names registered after a sequence of registrations are the old ones plus every name claimed. */
  lemma {:induction false} RegisterAllNames(c: Catalogue, regs: seq<Registration>)
    requires c.Valid()
    requires CanRegisterAll(c, regs)
    requires NamesReadable(regs)
    ensures RegisterAll(c, regs).creators.Keys == c.creators.Keys + Names(regs)
    decreases |regs|
  {
    if regs != [] {
      var next := c.WithModel(regs[0].modelType, regs[0].creator, regs[0].category);
      NamesReadableTail(regs);
      RegisterAllNames(next, regs[1..]);
    }
  }

  /** Category display names are last-write-wins. */
  lemma CategoryDisplayNameLastWins(c: Catalogue, category: string, x: string, y: string)
    ensures c.WithCategoryDisplayName(category, x).WithCategoryDisplayName(category, y)
              .CategoryDisplayName(category) == y
  {
  }

  /** The registry as a C++ object: five containers updated in place. */
  class NodeDelegateModelRegistry {
    var registeredItemCreators: map<string, Creator>
    var registeredModelsCategory: map<string, string>
    var registeredModelsDisplayName: map<string, string>
    var categories: set<string>
    var categoriesDisplayName: map<string, string>

    /** Every creator call made so far, oldest first. */
    ghost var invoked: seq<Creator>

    function State(): Catalogue
      reads this
    {
      Catalogue(registeredItemCreators, registeredModelsCategory,
                registeredModelsDisplayName, categories, categoriesDisplayName)
    }

    ghost predicate Valid()
      reads this
    {
      State().Valid()
    }

    constructor ()
      ensures Valid()
      ensures State() == Empty && invoked == []
    {
      registeredItemCreators := map[];
      registeredModelsCategory := map[];
      registeredModelsDisplayName := map[];
      categories := {};
      categoriesDisplayName := map[];
      invoked := [];
    }

    /**
     `registerModel<ModelType>(creator, category)`. The creator is called to
     learn the name unless the type has a static `Name()`, and, for a new
     name only, to learn the display name unless it has a static
     `DisplayName()`.
     */
    method RegisterModel(t: ModelType, creator: Creator, category: string := DefaultCategory)
      requires Valid()
      requires State().CanRegister(t, creator)
      modifies this
      ensures Valid()
      ensures State() == old(State()).WithModel(t, creator, category)
      ensures invoked == old(invoked) + CallsUnlessStatic(t.staticName, creator)
                         + (if ComputeName(t, creator) in old(registeredItemCreators) then []
                            else CallsUnlessStatic(t.staticDisplayName, creator))
    {
      var name := ComputeName(t, creator);
      invoked := invoked + CallsUnlessStatic(t.staticName, creator);
      if name !in registeredItemCreators {
        categories := categories + {category};
        registeredModelsCategory := registeredModelsCategory[name := category];
        var displayName := ComputeDisplayName(t, creator);
        invoked := invoked + CallsUnlessStatic(t.staticDisplayName, creator);
        registeredModelsDisplayName := registeredModelsDisplayName[name := displayName];
        registeredItemCreators := registeredItemCreators[name := creator];
      }
    }

    /** `registerModel<ModelType>(category)`: registers the type's default constructor. */
    method RegisterModelType(t: ModelType, category: string := DefaultCategory)
      requires Valid()
      modifies this
      ensures Valid()
      ensures State() == old(State()).WithModel(t, MakeUnique(t), category)
      ensures invoked == old(invoked) + CallsUnlessStatic(t.staticName, MakeUnique(t))
                         + (if ComputeName(t, MakeUnique(t)) in old(registeredItemCreators) then []
                            else CallsUnlessStatic(t.staticDisplayName, MakeUnique(t)))
    {
      RegisterModel(t, MakeUnique(t), category);
    }

    /** `create`: calls the stored creator of `modelName`, if there is one. */
    method Create(modelName: string) returns (model: Option<NodeModel>)
      modifies this`invoked
      ensures State() == old(State())
      ensures model == State().Create(modelName)
      ensures invoked == old(invoked) + (if modelName in registeredItemCreators
                                         then [registeredItemCreators[modelName]] else [])
    {
      if modelName in registeredItemCreators {
        var creator := registeredItemCreators[modelName];
        invoked := invoked + [creator];
        return Invoke(creator);
      }
      return None;
    }

    /** `categoryDisplayName`: reads the override map; changes nothing. */
    method CategoryDisplayName(category: string) returns (displayName: string)
      ensures displayName == State().CategoryDisplayName(category)
    {
      if category in categoriesDisplayName {
        return categoriesDisplayName[category];
      }
      return category;
    }

    /** `registerCategoryDisplayName`: overwrites the entry for `category`. */
    method RegisterCategoryDisplayName(category: string, displayName: string)
      requires Valid()
      modifies this
      ensures Valid() && invoked == old(invoked)
      ensures State() == old(State()).WithCategoryDisplayName(category, displayName)
    {
      categoriesDisplayName := categoriesDisplayName[category := displayName];
    }
  }
}
