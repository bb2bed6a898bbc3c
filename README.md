# Leontitas world generator and system composite, in Dafny

Leontitas is a typed layer over the LeoEcsLite entity-component-system library.
An incremental source generator reads two things from the user's assembly:

- the `[assembly: WorldDeclaration("Game")]` attributes, which name the worlds;
- the structs that implement `IComponent` and carry a world's tag attribute (`[Game]`).

For each world it emits a singleton world class and an entity type. It also emits:

- a packed handle that survives entity reuse;
- a pool wrapper;
- an `AllOf(...).NoneOf(...)` matcher;
- a component lookup table giving each component a dense index;
- three index-to-type switch tables that `GetGroup` uses to build its filter mask;
- per-component accessors on the entity: a boolean property for a field-less "flag" component, and `Add`/`Replace`/`Change`/`Remove` for the others.

A separate runtime class, `Feature`, groups systems into four phase lists (initialize, execute, cleanup, tear-down) and runs each phase over its list.

The project models this in seven modules:

- `Wrappers` holds `Option`, `Result` and `Outcome`.
- `Schema` models what the generator extracts from the compilation:
  - world names (a pure filter);
  - struct extraction: nested loops that collect tag names, then a loop over the members for public fields, each proved against a specification function;
  - the API name of a component.
- `Assembly` models the per-world component list (an order-preserving filter), the lookup table, `MaxComponentsCount` and the three switch tables, as data. Its lemmas prove that all of these agree index by index, and that every index outside `[0, N)` reaches a throwing default.
- `Engine` is the storage engine the emitted code calls. It is a class holding:
  - the world's liveness;
  - a generation per entity slot;
  - the live ids;
  - the attached components;
  - a trace of every pool call.

  Its method bodies are the behaviour the model assumes of LeoEcsLite. They are not a rendering of that library's code.
- `Runtime` models the emitted runtime:
  - the static `_instance` field with `Create` / `Instance` / `Destroy`;
  - entity creation, deletion and packing, and `TryUnpack`;
  - the flag and field accessors;
  - the matcher and the `GetGroup` fold.
- `Systems` models `Feature` as a class with four sequences, whose phase methods return the calls they make.
- `Scenario` runs the consumer project's `Game` world through the model. Its components are `Id`, `Hp`, `Alive` and `Quaternion`, and it builds the group `AllOf(Id).NoneOf(Quaternion)`.

Component field values are integers in the model. The generated code only stores and returns them, so the consumer's float fields need nothing more.

`GetWorldNames` (WorldGenerator.cs:33-41) keeps every occurrence of a world name, in declaration order; nothing de-duplicates the list (`Schema.WorldNamesKeepDuplicates`).

## Model

| member | source | states |
|---|---|---|
| Schema.GetWorldNames | src/Leontitas/LeontitasCodeGenerator/WorldGenerator.cs:33-41 | never more names than attributes, and every name is non-empty |
| Schema.WorldNamesMembership | src/Leontitas/LeontitasCodeGenerator/WorldGenerator.cs:37-39 | a string is a world name iff some assembly attribute of class WorldDeclarationAttribute has it as a non-null, non-empty first argument |
| Schema.WorldNamesConcat | src/Leontitas/LeontitasCodeGenerator/WorldGenerator.cs:35-40 | the names of two runs of attributes are the names of the first followed by those of the second, so declaration order is kept |
| Schema.WorldNamesKeepDuplicates | src/Leontitas/LeontitasCodeGenerator/WorldGenerator.cs:33-41 | declaring the same world twice yields that name twice; nothing de-duplicates |
| Schema.NormalizeAttributeName | src/Leontitas/LeontitasCodeGenerator/WorldGenerator.cs:63-66 | a name ending in "Attribute" loses exactly that suffix (appending it back gives the original); any other name is unchanged |
| Schema.GetStructInfo | src/Leontitas/LeontitasCodeGenerator/WorldGenerator.cs:43-102 | the imperative extraction yields exactly the specification StructInfoOf: no symbol or no IComponent gives nothing, no surviving tag gives nothing, else tags, name, namespace and public fields |
| Schema.CollectWorldAttributeNames | src/Leontitas/LeontitasCodeGenerator/WorldGenerator.cs:55-73 | the nested loops over attribute lists yield the tags of all attributes, list after list, in order |
| Schema.CollectListTags | src/Leontitas/LeontitasCodeGenerator/WorldGenerator.cs:59-72 | the inner loop appends, to the names collected so far, the tags of one attribute list in order |
| Schema.StripAttributeSuffix | src/Leontitas/LeontitasCodeGenerator/WorldGenerator.cs:61-66 | the suffix strip of one attribute name is the normalization: "Attribute" removed once from the end when present |
| Schema.WorldTagsConcat | src/Leontitas/LeontitasCodeGenerator/WorldGenerator.cs:57-73 | the tags of two runs of attributes are the tags of the first followed by those of the second, so the list-by-list loop collects the same tags as one flat loop |
| Schema.CollectPublicFields | src/Leontitas/LeontitasCodeGenerator/WorldGenerator.cs:78-89 | the member loop yields the public fields in member order |
| Schema.FlattenMembership | src/Leontitas/LeontitasCodeGenerator/WorldGenerator.cs:57-59 | an attribute is visited iff it is in one of the struct's attribute lists |
| Schema.WorldTagsMembership | src/Leontitas/LeontitasCodeGenerator/WorldGenerator.cs:59-72 | a tag is collected iff some attribute normalizes to it and it is not Serializable, Obsolete or Flags |
| Schema.PublicFieldsConcat | src/Leontitas/LeontitasCodeGenerator/WorldGenerator.cs:79-89 | the fields of two runs of members are those of the first followed by those of the second (member order is kept) |
| Schema.PublicFieldsMembership | src/Leontitas/LeontitasCodeGenerator/WorldGenerator.cs:81-88 | a field is captured iff it is a public field member with that name and type; non-public fields and other members never are |
| Schema.StructInfoAdmission | src/Leontitas/LeontitasCodeGenerator/WorldGenerator.cs:48-101 | a struct is admitted iff it has a symbol, lists IComponent and keeps at least one tag; an admitted struct carries its symbol's name, its namespace name (`NamespaceName`: "" for the global namespace, else the display string), exactly its tags and exactly its public fields |
| Schema.DenyListSeesStrippedName | src/Leontitas/LeontitasCodeGenerator/WorldGenerator.cs:63-71 | the deny-list is applied after stripping, so "SerializableAttribute" is rejected; the bare name "Attribute" becomes the empty tag; "GameAttribute" becomes "Game" |
| Schema.GetComponentApiName | src/Leontitas/LeontitasCodeGenerator/WorldGenerator.cs:612-619 | the API name is a prefix of the component name; it differs iff the name ends in "Component" and is strictly longer than it, and then it is non-empty and followed by "Component" gives the name back |
| Assembly.CollectComponents | src/Leontitas/LeontitasCodeGenerator/WorldGenerator.cs:22-25 | the extracted components are never more than the candidate structs (rejected ones are dropped) |
| Assembly.CollectedFromSomeDeclaration | src/Leontitas/LeontitasCodeGenerator/WorldGenerator.cs:22-25 | every collected component is what some candidate struct extracts to |
| Assembly.AdmittedDeclarationCollected | src/Leontitas/LeontitasCodeGenerator/WorldGenerator.cs:22-25 | every candidate struct that extraction admits contributes its component |
| Assembly.CollectComponentsMembership | src/Leontitas/LeontitasCodeGenerator/WorldGenerator.cs:22-25 | a component is collected iff some candidate struct extracts to it |
| Assembly.CollectComponentsConcat | src/Leontitas/LeontitasCodeGenerator/WorldGenerator.cs:22-25 | the components of two runs of structs are those of the first followed by those of the second, so discovery order is kept |
| Assembly.SingleDeclarationCollected | src/Leontitas/LeontitasCodeGenerator/WorldGenerator.cs:22-25 | one admitted struct on its own yields exactly its component |
| Assembly.WorldComponents | src/Leontitas/LeontitasCodeGenerator/WorldGenerator.cs:112-115 | a world keeps at most the components it is given, and only components tagged with it |
| Assembly.TaggedPositionsExact | src/Leontitas/LeontitasCodeGenerator/WorldGenerator.cs:112-115 | the positions a world keeps lie inside the input, strictly increase, and are exactly the positions of components tagged with it |
| Assembly.WorldComponentsAtPositions | src/Leontitas/LeontitasCodeGenerator/WorldGenerator.cs:112-115 | the k-th component of a world is the input's component at the k-th tagged position |
| Assembly.WorldComponentsIsOrderedFilter | src/Leontitas/LeontitasCodeGenerator/WorldGenerator.cs:112-115 | a world's component list is an order-preserving filter: element k is the input at the k-th tagged position, positions strictly increase, and they are exactly the positions of components tagged with that world |
| Assembly.GenerateComponentsLookup | src/Leontitas/LeontitasCodeGenerator/WorldGenerator.cs:568-586 | the lookup loop emits, for every position i, the entry naming component i with value i |
| Assembly.GenerateCaseTable | src/Leontitas/LeontitasCodeGenerator/WorldGenerator.cs:231-239 | each switch-building loop emits the arm `case i` returning component i's full type name, for every i in order |
| Assembly.DispatchConsecutive | src/Leontitas/LeontitasCodeGenerator/WorldGenerator.cs:228-242 | a switch whose arms are numbered consecutively from an offset dispatches an index to the arm at index minus offset, and any index outside the arms to the throwing default |
| Assembly.LookupByNameFindsFirst | src/Leontitas/LeontitasCodeGenerator/WorldGenerator.cs:577-580 | a lookup property resolves to the value of the first line with that name |
| Assembly.AccessorParameters | src/Leontitas/LeontitasCodeGenerator/WorldGenerator.cs:638-760 | the accessor parameters are the component's fields in declaration order; the shape is a flag iff there are no fields and single-field iff there is one; the accessors are named with `GetComponentApiName` of the component name |
| Assembly.WorldCodeFor | src/Leontitas/LeontitasCodeGenerator/WorldGenerator.cs:110-133 | one world's code: named after the world, over exactly the components tagged with it, well formed (MaxComponentsCount and all three switches cover those components), the matcher indices equal to the lookup table that gives component i the value i, and accessor k is the one built for component k |
| Assembly.GenerateWorlds | src/Leontitas/LeontitasCodeGenerator/WorldGenerator.cs:104-135 | one world's code per world name, in order and under that name; none when there are no names |
| Assembly.TablesAgree | src/Leontitas/LeontitasCodeGenerator/WorldGenerator.cs:145-285 | MaxComponentsCount, the lookup table, the matcher indices and the three switches agree. Lookup entry i names component i with value i. All three switches send i to component i's type, and every index outside [0, N) to the throwing default |
| Assembly.WellFormedDispatch | src/Leontitas/LeontitasCodeGenerator/WorldGenerator.cs:226-285 | in well-formed world code the Filter, Inc and Exc switches agree on every index, and send exactly the indices in range to a component |
| Assembly.LookupIndicesDense | src/Leontitas/LeontitasCodeGenerator/WorldGenerator.cs:577-580 | the lookup values are exactly 0..N-1, with no gaps and no repeats |
| Assembly.NamedIndexRoundTrip | src/Leontitas/LeontitasCodeGenerator/WorldGenerator.cs:579-603 | with distinct component names, the lookup property and the matcher property named after component i both give i, and each of the Filter, Include and Exclude switches sends i back to component i |
| Assembly.GeneratedWorldsConsistent | src/Leontitas/LeontitasCodeGenerator/WorldGenerator.cs:110-133 | every emitted world is well formed, and a component belongs to a world's code iff it was extracted and carries that world's tag |
| Assembly.ExtractedWorldsConsistent | src/Leontitas/LeontitasCodeGenerator/WorldGenerator.cs:104-135 | over the candidate structs themselves: every emitted world is well formed, and a component belongs to a world's code iff some struct extracts to it and it carries that world's tag |
| Engine.WithoutEntity | src/Leontitas/LeontitasCodeGenerator/WorldGenerator.cs:328-331 | deleting an entity drops exactly its components and keeps every other one unchanged (assumed engine behaviour) |
| Engine.EcsWorld.constructor | src/Leontitas/LeontitasCodeGenerator/WorldGenerator.cs:162-164 | a new world is alive, with no entities, no components and no pool calls (assumed engine behaviour) |
| Engine.EcsWorld.Destroy | src/Leontitas/LeontitasCodeGenerator/WorldGenerator.cs:185 | tearing the world down makes it dead (assumed engine behaviour) |
| Engine.EcsWorld.NewEntity | src/Leontitas/LeontitasCodeGenerator/WorldGenerator.cs:189-192 | a new entity id is in range, was not live and now is; existing generations are kept (assumed engine behaviour) |
| Engine.EcsWorld.DelEntity | src/Leontitas/LeontitasCodeGenerator/WorldGenerator.cs:328-331 | deleting a live id bumps its generation, makes it dead and drops its components; a dead id is a no-op; an id out of range faults (assumed engine behaviour) |
| Engine.EcsWorld.GetEntityGen | src/Leontitas/LeontitasCodeGenerator/WorldGenerator.cs:376 | the generation of an id in range, and a fault for any other id (assumed engine behaviour) |
| Engine.EcsWorld.PoolHas | src/Leontitas/LeontitasCodeGenerator/WorldGenerator.cs:439-442 | Has answers whether the component is attached, and is recorded in the call trace |
| Engine.EcsWorld.PoolAdd | src/Leontitas/LeontitasCodeGenerator/WorldGenerator.cs:429-432 | Add attaches a component with default fields, or faults when one is already attached (assumed engine behaviour) |
| Engine.EcsWorld.PoolGet | src/Leontitas/LeontitasCodeGenerator/WorldGenerator.cs:434-437 | Get returns the attached component, or faults when none is attached (assumed engine behaviour) |
| Engine.EcsWorld.PoolWrite | src/Leontitas/LeontitasCodeGenerator/WorldGenerator.cs:685 | a write through the reference from Add or Get replaces that component's value and nothing else |
| Engine.EcsWorld.PoolDel | src/Leontitas/LeontitasCodeGenerator/WorldGenerator.cs:444-447 | Remove detaches the component, and is a no-op on an absent one (assumed engine behaviour) |
| Runtime.InstanceGuardAsWritten | src/Leontitas/LeontitasCodeGenerator/WorldGenerator.cs:151-153 | the guard as written faults iff `_instance` is null, and then the fault is the null dereference in `!_instance.IsAlive()` |
| Runtime.InstanceGuardIntended | src/Leontitas/LeontitasCodeGenerator/WorldGenerator.cs:151-153 | the guard its message describes faults iff the instance is missing or dead |
| Runtime.GuardsDisagreeOnDeadInstance | src/Leontitas/LeontitasCodeGenerator/WorldGenerator.cs:151 | the two guards differ exactly on a present but dead instance, which the written guard lets through |
| Runtime.Unpack | src/Leontitas/LeontitasCodeGenerator/WorldGenerator.cs:379-406 | unpacking succeeds iff the world is alive, the id is in range and its generation equals the captured one. On success the entity carries the packed id, and otherwise the default entity |
| Runtime.PackUnpackRoundTrip | src/Leontitas/LeontitasCodeGenerator/WorldGenerator.cs:373-406 | a handle packed from an entity unpacks to that entity while its generation is unchanged and the world is alive |
| Runtime.StaleHandleRejected | src/Leontitas/LeontitasCodeGenerator/WorldGenerator.cs:399-402 | once the slot's generation has moved on, the older handle fails and yields the default entity, whether or not the world is alive |
| Runtime.WorldRegistry.constructor | src/Leontitas/LeontitasCodeGenerator/WorldGenerator.cs:160 | `_instance` starts out null |
| Runtime.WorldRegistry.Create | src/Leontitas/LeontitasCodeGenerator/WorldGenerator.cs:166-181 | Create fails, leaving the instance, while an alive world exists. Otherwise it installs and returns a fresh, alive and empty world: no entity slots, no live ids, no components and no pool calls |
| Runtime.WorldRegistry.Instance | src/Leontitas/LeontitasCodeGenerator/WorldGenerator.cs:147-158 | Instance faults iff the field is null, and otherwise returns the instance, whether it is alive or dead |
| Runtime.WorldRegistry.InstanceIntended | src/Leontitas/LeontitasCodeGenerator/WorldGenerator.cs:147-158 | the corrected getter never hands out a dead or missing world: it faults exactly then |
| Runtime.WorldRegistry.Destroy | src/Leontitas/LeontitasCodeGenerator/WorldGenerator.cs:183-187 | Destroy faults when there is no instance (including a second Destroy, or one before any Create). Otherwise it kills the world and changes nothing else of it: its generations, live ids, components and pool calls stay as they were. Either way the field is null afterwards |
| Runtime.WorldRegistry.CreateEntity | src/Leontitas/LeontitasCodeGenerator/WorldGenerator.cs:323-326 | creating an entity goes through Instance (faulting without one), yields a fresh in-range id that becomes live, and keeps existing generations; the world's components, liveness and pool calls do not change |
| Runtime.WorldRegistry.DestroyEntity | src/Leontitas/LeontitasCodeGenerator/WorldGenerator.cs:328-331 | destroying an entity goes through Instance (faulting without one). An id outside the allocated slots faults in the engine and an allocated but dead id is a no-op; in both cases generations, live set and components are unchanged. A live entity's generation moves on, the entity leaves the live set and exactly its components are dropped. The world's liveness and pool calls never change |
| Runtime.WorldRegistry.Pack | src/Leontitas/LeontitasCodeGenerator/WorldGenerator.cs:333-336 | packing captures the id with its current generation, through Instance |
| Runtime.WorldRegistry.TryUnpack | src/Leontitas/LeontitasCodeGenerator/WorldGenerator.cs:379-406 | TryUnpack faults only through Instance; otherwise it answers Unpack on the instance's liveness and generations (alive, then range, then generation) |
| Runtime.Defaults | src/Leontitas/LeontitasCodeGenerator/WorldGenerator.cs:684 | a freshly added component has one field per declared field, each holding the default value 0 |
| Runtime.AssignFields | src/Leontitas/LeontitasCodeGenerator/WorldGenerator.cs:726-729 | the per-field assignments write parameter k into field k, so the component ends up equal to the parameters |
| Runtime.HasComponent | src/Leontitas/LeontitasCodeGenerator/WorldGenerator.cs:678 | Has is the pool's Has, and is one Has call |
| Runtime.FlagAssignmentIdempotent | src/Leontitas/LeontitasCodeGenerator/WorldGenerator.cs:650-663 | after a flag assignment Has equals the value, other components are untouched, assigning the same value again changes nothing, and assigning the value already held changes nothing |
| Runtime.SetFlag | src/Leontitas/LeontitasCodeGenerator/WorldGenerator.cs:648-663 | the setter asks Has first. It adds only when setting true while absent, and removes only when setting false while present; afterwards Has equals the value |
| Runtime.SetFlagChained | src/Leontitas/LeontitasCodeGenerator/WorldGenerator.cs:667-671 | Set…Flag returns the same entity; the components afterwards are exactly FlagAssigned of the old ones, so Has equals the value and a repeated assignment changes no component; the pool calls are one Has, then an Add or a Del only when the value changes |
| Runtime.GetFieldValue | src/Leontitas/LeontitasCodeGenerator/WorldGenerator.cs:680 | the single-field getter reads the field through Get, and faults when the component is absent |
| Runtime.AddComponent | src/Leontitas/LeontitasCodeGenerator/WorldGenerator.cs:682-687 | Add attaches the component with its captured public fields holding exactly the parameters and returns the entity; on an already attached component the engine faults and nothing changes |
| Runtime.ChangeComponent | src/Leontitas/LeontitasCodeGenerator/WorldGenerator.cs:701-706 | Change overwrites the attached component's captured public fields with exactly the parameters; on an absent one the engine faults and nothing changes |
| Runtime.ReplaceComponent | src/Leontitas/LeontitasCodeGenerator/WorldGenerator.cs:733-743 | Replace never faults and leaves the component's captured public fields holding exactly the parameters, going through Change when it is present and Add when it is absent, after one Has |
| Runtime.RemoveComponent | src/Leontitas/LeontitasCodeGenerator/WorldGenerator.cs:755-759 | Remove deletes through the pool with no Has call first, and returns the entity |
| Runtime.Matcher.AllOf | src/Leontitas/LeontitasCodeGenerator/WorldGenerator.cs:465-472 | AllOf makes a matcher with those include indices and no exclude indices |
| Runtime.Matcher.NoneOf | src/Leontitas/LeontitasCodeGenerator/WorldGenerator.cs:474-478 | NoneOf replaces the exclude indices, keeps the includes and returns the same matcher |
| Runtime.FilterByComponentIndex | src/Leontitas/LeontitasCodeGenerator/WorldGenerator.cs:226-243 | in well-formed world code the filter switch succeeds iff the index is a component index, and then starts the mask with exactly that component's type; any other index reaches the throwing default |
| Runtime.IncludeByComponentIndex | src/Leontitas/LeontitasCodeGenerator/WorldGenerator.cs:249-267 | in well-formed world code the include switch succeeds iff the index is a component index, and then appends that component's type to the includes and leaves the excludes; any other index reaches the throwing default |
| Runtime.ExcludeByComponentIndex | src/Leontitas/LeontitasCodeGenerator/WorldGenerator.cs:269-287 | in well-formed world code the exclude switch succeeds iff the index is a component index, and then appends that component's type to the excludes and leaves the includes; any other index reaches the throwing default |
| Runtime.TypesOf | src/Leontitas/LeontitasCodeGenerator/WorldGenerator.cs:234-238 | one component type per index, in order |
| Runtime.GetGroup | src/Leontitas/LeontitasCodeGenerator/WorldGenerator.cs:200-218 | an empty include array faults on element 0, and an index outside the world's components faults in a switch. Otherwise the mask includes exactly the include types in matcher order and excludes exactly the exclude types in order |
| Runtime.AllOfNoneOfMembership | src/Leontitas/LeontitasCodeGenerator/WorldGenerator.cs:200-218 | the group of "all of a and b, none of c" holds exactly the live entities having a and b and lacking c; attaching c or detaching a takes an entity out |
| Systems.Invocations | src/Leontitas.Unity/Systems/Runtime/Feature.cs:32-62 | a phase makes one call per list entry |
| Systems.AddAppendsOnlyToMatchingLists | src/Leontitas.Unity/Systems/Runtime/Feature.cs:12-30 | Add keeps each list as a prefix and grows it by one iff the system implements that phase; the new last entry is the system; membership changes only in matching lists |
| Systems.AddTwiceRunsTwice | src/Leontitas.Unity/Systems/Runtime/Feature.cs:12-30 | without a duplicate check, adding a system twice raises its count in each of its lists by two, and the phase calls it twice at the end |
| Systems.AddedSystemIsInvoked | src/Leontitas.Unity/Systems/Runtime/Feature.cs:14-29 | each of the four independent checks puts the system in that phase's list, so every phase it implements calls it |
| Systems.Invoke | src/Leontitas.Unity/Systems/Runtime/Feature.cs:34-37 | the foreach calls every system of the list for the phase, once each, in list order |
| Systems.Feature.constructor | src/Leontitas.Unity/Systems/Runtime/Feature.cs:7-10 | a feature starts with four empty lists |
| Systems.Feature.Add | src/Leontitas.Unity/Systems/Runtime/Feature.cs:12-30 | after Add the four lists are exactly the old ones with the system appended to each list whose interface it implements |
| Systems.Feature.Initialize | src/Leontitas.Unity/Systems/Runtime/Feature.cs:32-38 | Initialize calls exactly the initialize systems, in insertion order, and changes no list |
| Systems.Feature.Execute | src/Leontitas.Unity/Systems/Runtime/Feature.cs:40-46 | Execute calls exactly the execute systems, in insertion order, and changes no list |
| Systems.Feature.Cleanup | src/Leontitas.Unity/Systems/Runtime/Feature.cs:48-54 | Cleanup calls exactly the cleanup systems, in insertion order, and changes no list |
| Systems.Feature.TearDown | src/Leontitas.Unity/Systems/Runtime/Feature.cs:56-62 | TearDown calls exactly the tear-down systems, in insertion order, and changes no list |
| Scenario.ConsumerStructAdmitted | src/Leontitas/Consumer/Components.cs:5-16 | a `[Game]` struct listing IComponent in namespace Consumer is admitted to Game under its own name with its public fields |
| Scenario.ConsumerFields | src/Leontitas/Consumer/Components.cs:5-16 | the public fields of Id and Hp are one int Value, those of Quaternion are X, Y, Z, W floats in order |
| Scenario.ConsumerComponents | src/Leontitas/Consumer/Components.cs:5-16 | extraction of the consumer structs yields Id and Hp with an int Value, Alive with no field, and Quaternion with X, Y, Z, W, in that order |
| Scenario.AllTaggedKept | src/Leontitas/LeontitasCodeGenerator/WorldGenerator.cs:112-115 | when every component carries a world's tag, that world keeps them all, in order |
| Scenario.GeneratedGameWorld | src/Leontitas/LeontitasCodeGenerator/WorldGenerator.cs:104-135 | generating the one world Game over the consumer structs emits exactly the Game world code the other scenario lemmas describe |
| Scenario.GameWorldComponents | src/Leontitas/Consumer/Components.cs:5-16 | the Game world's components are the four consumer structs in declaration order |
| Scenario.GameLookupAndAccessors | src/Leontitas/Consumer/Components.cs:5-16 | the Game world has the indices Id 0, Hp 1, Alive 2 and Quaternion 3, and MaxComponentsCount 4; Id and Hp get int accessors, Alive a flag and Quaternion four parameters |
| Scenario.GameDispatch | src/Leontitas/Consumer/Components.cs:5-16 | the Game world's code is well formed, its switches send 0 to Consumer.Id and 3 to Consumer.Quaternion, and 4 to the throwing default |
| Scenario.GameMatcherIndices | src/Leontitas/Consumer/Program.cs:19-20 | the matcher properties `GameMatcher.Id` and `GameMatcher.Quaternion`, resolved by name, are 0 and 3 |
| Scenario.GameGroupTypes | src/Leontitas/Consumer/Program.cs:18-20 | indices 0 and 3 are in range and name Consumer.Id and Consumer.Quaternion |
| Scenario.IdWithoutQuaternion | src/Leontitas/Consumer/Program.cs:18-20 | `AllOf(GameMatcher.Id).NoneOf(GameMatcher.Quaternion)`, with the indices resolved by name, builds the mask including Consumer.Id and excluding Consumer.Quaternion |
| Scenario.IdWithoutQuaternionMembers | src/Leontitas/Consumer/Program.cs:18-25 | an entity is in that group iff it is live, has an Id and has no Quaternion |
| Scenario.EmptyAllOf | src/Leontitas/LeontitasCodeGenerator/WorldGenerator.cs:203 | a matcher with no include indices makes GetGroup fault before any switch |
| Scenario.SpawnConsumerEntities | src/Leontitas/Consumer/Program.cs:11-16 | the two entities are distinct and live; entity 1 holds Id 1, entity 2 holds Id 2 and Quaternion (1, 1, 1, 1), and no other component is attached |
| Scenario.ConsumerProgram | src/Leontitas/Consumer/Program.cs:9-34 | the program's group holds entity 1 and not entity 2 at the first enumeration; after `entity1.Destroy()` it holds neither; the final `GameWorld.Destroy()` succeeds |
| Scenario.HandleFromEarlierWorld | src/Leontitas/LeontitasCodeGenerator/WorldGenerator.cs:162-164 | a handle packed in one world fails to unpack, giving the default entity, in the world created after it is destroyed, because the new world has no slots |
| Scenario.PackedHandleLifecycle | src/Leontitas/LeontitasCodeGenerator/WorldGenerator.cs:323-406 | a handle packed from a new entity unpacks to it; after the entity is destroyed it unpacks to nothing (failure and the default entity); after the world is destroyed a second Destroy faults on the missing instance |

## Left out

- Roslyn plumbing is not modelled: `Initialize`, the syntax provider and its `AttributeLists.Count > 0` pre-filter, the semantic model, `RegisterSourceOutput` and `AddSource` hint names. The pre-filter only drops structs that extraction would reject anyway. The inputs are plain datatypes instead.
- Emitting the same hint names twice is not modelled. A world declared twice would do this, and so would two components of one world with the same name in different namespaces (the per-component hint `{worldName}Entity_{ComponentName}.g.cs`, WorldGenerator.cs:765); `AddSource` rejects the duplicate before anything is compiled.
- The emitted C# text is not modelled: its formatting, the `GameAttribute` class emitted per world, the interfaces `IAllOf…Matcher` / `INoneOf…Matcher`, the `Get…Pool` wrapper construction and the `in Config` overload of `Create`. The model states what the emitted code does.
- Exception messages are not modelled; only which fault is raised is. The messages hard-code "GameWorld" whatever the world is called.
- LeoEcsLite (`EcsWorld`, `EcsPool`, `EcsFilter`, `Mask`) is foreign code. `Engine` states the behaviour the emitted code relies on, by assumption:
  - slot reuse with kept generations;
  - a generation bump on delete;
  - Add on an attached component faults;
  - Get on an absent one faults;
  - Del on an absent one does nothing;
  - an entity stays live after its last component is removed. LeoEcsLite deletes such an entity (and moves its generation on); the model does not.
  - `EcsWorld.Destroy` only marks the world dead. LeoEcsLite also deletes every entity that has components and clears its pools; `Runtime.WorldRegistry.Destroy` builds on the model's assumption.
  - a dead slot keeps its bumped generation as a positive value. LeoEcsLite stores it negated, so a handle packed from an already dead entity unpacks as true in the model once the id is reused, and as false in LeoEcsLite.
- Group enumeration, `GetEnumerator`, `Current` and `Dispose` are not modelled: they forward to the foreign filter enumerator. Which entities a group holds is stated by `Runtime.Matches` instead.
- Entity `ToString` and the `Ref` accessors returning a `ref` are not modelled. `ToString` is a display string built by a foreign `GetComponents` call, and a write through the reference is `Engine.EcsWorld.PoolWrite`.
- Runtime accessors take the pool of the world that `Instance` resolves; resolving `Instance` again on every access is not repeated in each accessor.
- Entity.Create and Destroy on a dead-but-present instance are passed to the engine. The generated code does the same, because the written guard lets a dead instance through.
- Generations are unbounded integers. LeoEcsLite's `short` generation counter and its wrap-around are not modelled.
- `AllOf` and `NoneOf` take `params int[]` arrays. The matcher keeps the caller's array without copying it; the model keeps a copied sequence, so aliasing between the caller's array and the matcher is not modelled. A null array (`AllOf(null)`, `NoneOf(null)`, legal for `params int[]`) is not modelled either: `GetGroup` would then throw NullReferenceException on its first access to the array (WorldGenerator.cs:203, 213).
- `Feature.Add` is virtual; overrides in subclasses are not modelled.
- A system that calls `Add` on the feature running it, during a phase, is not modelled. The phase's `foreach` (Feature.cs:34, 42, 50, 58) would then see its list change and throw InvalidOperationException; the model's phase calls have no effect on the feature, so its phase methods never fault.
- Nested features are not modelled beyond their list entry. A feature added to a feature is a system implementing all four phases, and its own lists are not expanded.
- `Feature.Add(null)` is not modelled. It matches none of the `is` checks and adds nothing; a `System` value is never null.
- Runtime.AllOfNoneOfMembership: the membership statement is proved for a two-include, one-exclude matcher, not for matchers of every length.
- Runtime.GetFieldValue: the single-field getter is modelled for integer field values only. The field's declared type is kept as a name, not as a value domain.
- Schema.GetWorldNames: an assembly attribute is matched by its class's simple name only (WorldGenerator.cs:37), so an unrelated `WorldDeclarationAttribute` in another namespace also counts; the model carries the name alone, as the code compares it. Every attribute has a first-argument slot in the model, while an attribute of that name with no constructor arguments makes `ConstructorArguments[0]` (line 38) throw and the generator fail; that failure is not modelled.
- A component value is abstracted to its captured public fields. A non-public field, or a property, of the real struct is left at its default by Add and keeps its old value through Change and Replace; the model has no such part.
- Schema.EndsWith: `string.EndsWith(string)` (WorldGenerator.cs:63, 614) compares with the current culture; the model compares characters ordinally. For the ASCII suffixes "Attribute" and "Component" the two agree except under cultures with unusual collation.
- The benchmark harness, the Unity dependency installer and both `WorldDeclarationAttribute` holders are not modelled: they are a harness, editor I/O, and attribute definitions with no logic.

## Findings

| source | as written | input that shows it | evidently intended | confidence | as-written member | corrected member |
|---|---|---|---|---|---|---|
| src/Leontitas/LeontitasCodeGenerator/WorldGenerator.cs:151 | `if(_instance == null && !_instance.IsAlive())` faults with a null dereference when there is no instance, and returns a destroyed world whenever the field still holds one | a world torn down through `((Leopotam.EcsLite.EcsWorld)world).Destroy()`, which leaves `_instance` set (present = true, alive = false): the getter returns the dead world | a logical or in place of the and: throw the "not created or already destroyed" exception when the instance is missing or dead | not executed | Runtime.GuardsDisagreeOnDeadInstance | Runtime.WorldRegistry.InstanceIntended |

The registry's `Instance`, `Destroy`, `CreateEntity`, `DestroyEntity`, `Pack` and `TryUnpack` model the emitted code, so they keep the guard as written. The static `Destroy` clears the field, so the guard's missing-instance case is what the lifecycle reaches. `Runtime.InstanceGuardIntended` and `Runtime.WorldRegistry.InstanceIntended` state the corrected getter: it never hands out a dead world.
