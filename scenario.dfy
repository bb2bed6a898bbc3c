/**
  The consumer project's Game world, run through the model: four component
  structs in namespace Consumer, all tagged [Game] — Id and Hp with one int
  field, Alive with none, Quaternion with four float fields — and the program
  that builds a group of the entities with an Id and without a Quaternion.
*/
module Scenario {
  import opened Wrappers
  import opened Schema
  import opened Assembly
  import opened Engine
  import opened Runtime

  function ConsumerStruct(name: string, members: seq<Member>): StructDecl {
    StructDecl([["Game"]], Some(TypeSymbol(name, NamedNamespace("Consumer"), ["IComponent"], members)))
  }

  function PublicField(name: string, typeName: string): Member {
    FieldMember(name, typeName, Public)
  }

  const ConsumerDecls: seq<StructDecl> := [
    ConsumerStruct("Id", [PublicField("Value", "int")]),
    ConsumerStruct("Hp", [PublicField("Value", "int")]),
    ConsumerStruct("Alive", []),
    ConsumerStruct("Quaternion", [PublicField("X", "float"), PublicField("Y", "float"),
                                  PublicField("Z", "float"), PublicField("W", "float")])
  ]

  /** What extraction yields for the consumer structs. */
  const GameComponents: seq<StructInfo> := [
    StructInfo(["Game"], "Id", "Consumer", [ComponentField("Value", "int")]),
    StructInfo(["Game"], "Hp", "Consumer", [ComponentField("Value", "int")]),
    StructInfo(["Game"], "Alive", "Consumer", []),
    StructInfo(["Game"], "Quaternion", "Consumer",
               [ComponentField("X", "float"), ComponentField("Y", "float"),
                ComponentField("Z", "float"), ComponentField("W", "float")])
  ]

  /** The Game world's code, over the components extracted from the consumer structs
      (ConsumerComponents shows that extraction yields GameComponents). */
  function GameCode(): WorldCode {
    WorldCodeFor("Game", GameComponents)
  }

  /** Every consumer struct is admitted to Game, under its own name, in namespace
      Consumer, with its public fields. */
  lemma {:induction false} ConsumerStructAdmitted(name: string, members: seq<Member>)
    ensures StructInfoOf(ConsumerStruct(name, members)) == Some(StructInfo(["Game"], name, "Consumer", PublicFields(members)))
  {
    assert Flatten([["Game"]]) == Flatten([]) + ["Game"];
    assert !EndsWith("Game", AttributeSuffix);
    assert ["Game"][..0] == [];
    assert WorldTags(["Game"]) == ["Game"];
  }

  /** The public fields of the one-int structs and of Quaternion. */
  lemma {:induction false} ConsumerFields()
    ensures PublicFields([PublicField("Value", "int")]) == [ComponentField("Value", "int")]
    ensures PublicFields([PublicField("X", "float"), PublicField("Y", "float"),
                          PublicField("Z", "float"), PublicField("W", "float")])
         == [ComponentField("X", "float"), ComponentField("Y", "float"),
             ComponentField("Z", "float"), ComponentField("W", "float")]
  {
    var int1 := [PublicField("Value", "int")];
    var quat := [PublicField("X", "float"), PublicField("Y", "float"),
                 PublicField("Z", "float"), PublicField("W", "float")];
    assert int1[..0] == [];
    var x, y, z, w := ComponentField("X", "float"), ComponentField("Y", "float"),
                      ComponentField("Z", "float"), ComponentField("W", "float");
    assert quat[..1][..0] == [];
    assert PublicFields(quat[..1]) == [x];
    assert quat[..2][..1] == quat[..1];
    assert PublicFields(quat[..2]) == [x, y];
    assert quat[..3][..2] == quat[..2];
    assert PublicFields(quat[..3]) == [x, y, z];
    assert quat[..4][..3] == quat[..3];
    assert quat[..4] == quat;
  }

  lemma {:induction false} ConsumerComponents()
    ensures CollectComponents(ConsumerDecls) == GameComponents
  {
    var d, g := ConsumerDecls, GameComponents;
    ConsumerFields();
    ConsumerStructAdmitted("Id", [PublicField("Value", "int")]);
    ConsumerStructAdmitted("Hp", [PublicField("Value", "int")]);
    ConsumerStructAdmitted("Alive", []);
    ConsumerStructAdmitted("Quaternion", [PublicField("X", "float"), PublicField("Y", "float"),
                                          PublicField("Z", "float"), PublicField("W", "float")]);
    SingleDeclarationCollected(d[0], g[0]);
    SingleDeclarationCollected(d[1], g[1]);
    SingleDeclarationCollected(d[2], g[2]);
    SingleDeclarationCollected(d[3], g[3]);
    CollectComponentsConcat([d[0]], [d[1]]);
    CollectComponentsConcat([d[0]] + [d[1]], [d[2]]);
    CollectComponentsConcat([d[0]] + [d[1]] + [d[2]], [d[3]]);
    FourParts(d);
    FourParts(g);
  }

  lemma FourParts<T>(s: seq<T>)
    requires |s| == 4
    ensures s == [s[0]] + [s[1]] + [s[2]] + [s[3]]
  {
  }

  /** A world whose every component carries its tag keeps them all, in order. */
  lemma {:induction false} AllTaggedKept(world: string, comps: seq<StructInfo>)
    requires forall k :: 0 <= k < |comps| ==> Tagged(world, comps[k])
    ensures WorldComponents(world, comps) == comps
  {
    if comps != [] {
      AllTaggedKept(world, comps[..|comps| - 1]);
      assert comps == comps[..|comps| - 1] + [comps[|comps| - 1]];
    }
  }

  /** The generator, run over the consumer structs with the one world name Game,
      emits exactly the Game code below. */
  lemma {:induction false} GeneratedGameWorld()
    ensures GenerateWorlds(["Game"], CollectComponents(ConsumerDecls)) == [GameCode()]
  {
    ConsumerComponents();
  }

  /** Every consumer struct carries the Game tag, so the Game world has all four. */
  lemma {:induction false} GameWorldComponents()
    ensures GameCode().components == GameComponents
  {
    var comps := GameComponents;
    assert forall k :: 0 <= k < |comps| ==> comps[k].worldNames == ["Game"];
    AllTaggedKept("Game", comps);
  }

  /** The Game world's indices and accessors: Id 0, Hp 1, Alive 2, Quaternion 3, a
      MaxComponentsCount of 4, an int accessor for Id and Hp, a flag for Alive and a
      four-parameter accessor for Quaternion. */
  lemma {:induction false} GameLookupAndAccessors()
    ensures var code := GameCode();
      && code.components == GameComponents
      && code.maxComponentsCount == 4
      && code.lookup == [LookupEntry("Id", 0), LookupEntry("Hp", 1), LookupEntry("Alive", 2), LookupEntry("Quaternion", 3)]
      && code.accessors == [
           SingleFieldAccessor("Id", ComponentField("Value", "int")),
           SingleFieldAccessor("Hp", ComponentField("Value", "int")),
           FlagAccessor("Alive"),
           MultiFieldAccessor("Quaternion",
                              [ComponentField("X", "float"), ComponentField("Y", "float"),
                               ComponentField("Z", "float"), ComponentField("W", "float")])]
  {
    GameWorldComponents();
    assert !EndsWith("Id", ComponentSuffix) && !EndsWith("Hp", ComponentSuffix);
    assert !EndsWith("Alive", ComponentSuffix) && !EndsWith("Quaternion", ComponentSuffix);
  }

  /** The Game world's switches: 0 goes to Consumer.Id, 3 to Consumer.Quaternion, and
      4 to the throwing default; the code is well formed. */
  lemma {:induction false} GameDispatch()
    ensures var code := GameCode();
      && Dispatch(code.filterCases, 0) == Some("Consumer.Id")
      && Dispatch(code.excludeCases, 3) == Some("Consumer.Quaternion")
      && Dispatch(code.includeCases, 4) == None
      && WellFormedCode(code)
  {
    GameWorldComponents();
    var code := GameCode();
    WellFormedDispatch(code, 0);
    WellFormedDispatch(code, 3);
    WellFormedDispatch(code, 4);
    assert FullName(GameComponents[0]) == "Consumer" + "." + "Id" == "Consumer.Id";
    assert FullName(GameComponents[3]) == "Consumer" + "." + "Quaternion" == "Consumer.Quaternion";
  }

  /** The Game matcher's index properties resolve by name: Id is 0, Quaternion 3. */
  lemma {:induction false} GameMatcherIndices()
    ensures var code := GameCode();
      && LookupByName(code.matcherIndices, "Id") == Some(0)
      && LookupByName(code.matcherIndices, "Quaternion") == Some(3)
  {
    GameLookupAndAccessors();
    var indices := GameCode().matcherIndices;
    LookupByNameFindsFirst(indices, 0);
    assert indices[3].componentName == "Quaternion";
    assert forall j :: 0 <= j < 3 ==> |indices[j].componentName| < 10;
    LookupByNameFindsFirst(indices, 3);
  }

  /** The consumer program's group: all of Id, none of Quaternion, with the indices
      read from the matcher class by name. */
  method IdWithoutQuaternion() returns (r: Result<Group, Fault>)
    ensures r == Success(Group(Mask(["Consumer.Id"], ["Consumer.Quaternion"])))
  {
    GameMatcherIndices();
    GameGroupTypes();
    var code := GameCode();
    var idIndex := LookupByName(code.matcherIndices, "Id").value;
    var quaternionIndex := LookupByName(code.matcherIndices, "Quaternion").value;
    var matcher := new Matcher.AllOf([idIndex]);
    matcher := matcher.NoneOf([quaternionIndex]);
    r := GetGroup(code, matcher);
  }

  /** The Game types that indices 0 and 3 name. */
  lemma {:induction false} GameGroupTypes()
    ensures var code := GameCode();
      && InRange(code, [0]) && InRange(code, [3])
      && TypesOf(code, [0]) == ["Consumer.Id"] && TypesOf(code, [3]) == ["Consumer.Quaternion"]
  {
    GameWorldComponents();
    var code := GameCode();
    assert FullName(GameComponents[0]) == "Consumer" + "." + "Id" == "Consumer.Id";
    assert TypesOf(code, [0]) == [FullName(code.components[0])];
    assert FullName(GameComponents[3]) == "Consumer" + "." + "Quaternion" == "Consumer.Quaternion";
    assert TypesOf(code, [3]) == [FullName(code.components[3])];
  }

  /** An empty AllOf faults on the first element before any switch is consulted. */
  method EmptyAllOf() returns (r: Result<Group, Fault>)
    ensures r == Failure(IndexOutOfRange)
  {
    GameDispatch();
    var matcher := new Matcher.AllOf([]);
    r := GetGroup(GameCode(), matcher);
  }

  /** The program's two entities: entity 1 with Id 1, entity 2 with Id 2 and the
      Quaternion (1, 1, 1, 1), each built by chaining the Add accessors. */
  method SpawnConsumerEntities(registry: WorldRegistry, world: EcsWorld) returns (entity1: Entity, entity2: Entity)
    requires registry.Valid() && registry.instance == world && world.attached == map[]
    modifies world
    ensures registry.Valid() && world.alive == old(world.alive)
    ensures entity1.instanceId != entity2.instanceId
    ensures world.live == old(world.live) + {entity1.instanceId, entity2.instanceId}
    ensures world.attached == map[Slot("Consumer.Id", entity1.instanceId) := [1],
                                  Slot("Consumer.Id", entity2.instanceId) := [2],
                                  Slot("Consumer.Quaternion", entity2.instanceId) := [1, 1, 1, 1]]
  {
    var ids := Pool(world, "Consumer.Id", 1);
    var quaternions := Pool(world, "Consumer.Quaternion", 4);
    var first := registry.CreateEntity();
    var withId1 := AddComponent(ids, first.value, [1]);
    entity1 := withId1.value;
    var second := registry.CreateEntity();
    var withId2 := AddComponent(ids, second.value, [2]);
    var withQuaternion := AddComponent(quaternions, withId2.value, [1, 1, 1, 1]);
    entity2 := withQuaternion.value;
  }

  /** Membership in the program's group, spelled out. */
  lemma IdWithoutQuaternionMembers(attached: map<Slot, seq<FieldValue>>, live: set<int>, id: int)
    ensures Matches(attached, live, Mask(["Consumer.Id"], ["Consumer.Quaternion"]), id) <==>
      id in live && Slot("Consumer.Id", id) in attached && Slot("Consumer.Quaternion", id) !in attached
  {
    var filter := Mask(["Consumer.Id"], ["Consumer.Quaternion"]);
    assert "Consumer.Id" in filter.included && "Consumer.Quaternion" in filter.excluded;
  }

  /** The consumer program: entity 1 gets an Id, entity 2 an Id and a Quaternion; the
      group of Id-without-Quaternion then holds entity 1 and not entity 2, and after
      entity 1 is destroyed it holds neither; destroying the world succeeds. */
  method ConsumerProgram() returns (entity1Before: bool, entity2Before: bool,
                                    entity1After: bool, entity2After: bool, destroyed: Outcome<Fault>)
    ensures entity1Before && !entity2Before
    ensures !entity1After && !entity2After
    ensures destroyed == Pass
  {
    var group := IdWithoutQuaternion();
    var filter := group.value.filter;
    var registry := new WorldRegistry();
    var created := registry.Create();
    var world := created.value;
    var entity1, entity2 := SpawnConsumerEntities(registry, world);
    IdWithoutQuaternionMembers(world.attached, world.live, entity1.instanceId);
    IdWithoutQuaternionMembers(world.attached, world.live, entity2.instanceId);

    entity1Before := Matches(world.attached, world.live, filter, entity1.instanceId);
    entity2Before := Matches(world.attached, world.live, filter, entity2.instanceId);

    var gone := registry.DestroyEntity(entity1);
    IdWithoutQuaternionMembers(world.attached, world.live, entity1.instanceId);
    IdWithoutQuaternionMembers(world.attached, world.live, entity2.instanceId);
    entity1After := Matches(world.attached, world.live, filter, entity1.instanceId);
    entity2After := Matches(world.attached, world.live, filter, entity2.instanceId);

    destroyed := registry.Destroy();
  }

  /** A handle packed from a live entity unpacks to that entity while it lives and not
      after it is destroyed; once the world is destroyed, a second Destroy faults on
      the missing instance. */
  method PackedHandleLifecycle() returns (e: Entity, before: Result<(bool, Entity), Fault>,
                                         after: Result<(bool, Entity), Fault>, secondDestroy: Outcome<Fault>)
    ensures before == Success((true, e))
    ensures after == Success((false, DefaultEntity))
    ensures secondDestroy == Fail(NullReference)
  {
    var registry := new WorldRegistry();
    var created := registry.Create();
    var entity := registry.CreateEntity();
    e := entity.value;
    var packed := registry.Pack(e);
    before := registry.TryUnpack(packed.value);
    var destroyed := registry.DestroyEntity(e);
    after := registry.TryUnpack(packed.value);
    var first := registry.Destroy();
    secondDestroy := registry.Destroy();
  }

  /** A handle packed in one world does not unpack in the world created after it:
      the new world has no slots, so the packed id is out of range. */
  method HandleFromEarlierWorld() returns (r: Result<(bool, Entity), Fault>)
    ensures r == Success((false, DefaultEntity))
  {
    var registry := new WorldRegistry();
    var first := registry.Create();
    var entity := registry.CreateEntity();
    var packed := registry.Pack(entity.value);
    var destroyed := registry.Destroy();
    var second := registry.Create();
    r := registry.TryUnpack(packed.value);
  }
}
