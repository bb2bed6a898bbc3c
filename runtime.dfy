/**
  What the emitted code does at run time, for one world: the world singleton and
  its lifecycle, entity handles, packed (generation-checked) handles, the pool
  wrapper, the component accessors of the three shapes, the matcher and the
  mask fold of GetGroup. The storage engine is the Engine module's EcsWorld.
*/
module Runtime {
  import opened Wrappers
  import opened Assembly
  import opened Engine

  /** The exceptions the generated code lets escape. */
  datatype Fault =
    | NullReference            // a member access on the null `_instance`
    | IndexOutOfRange          // reading IncludeIndices[0] of an empty array
    | UnknownComponentIndex    // the `default: throw` of a dispatch switch
    | AlreadyCreated           // Create while an alive world exists
    | NotCreated               // the intended Instance guard (see InstanceIntended)
    | Engine(cause: EngineFault)

  /** An entity handle: just the id. `default` is id 0. */
  datatype Entity = Entity(instanceId: int)

  const DefaultEntity := Entity(0)

  // ---------------------------------------------------------------------------
  // The Instance guard
  // ---------------------------------------------------------------------------

  datatype GuardResult = GuardFault(fault: Fault) | GuardPasses

  /** The guard `_instance == null && !_instance.IsAlive()` as C# evaluates it. With
      no instance the left operand holds and the right one calls a method on null;
      with an instance the left operand is false, `&&` stops there, and the guard
      lets the instance through whether it is alive or not. */
  function InstanceGuardAsWritten(present: bool, alive: bool): (g: GuardResult)
    ensures g.GuardFault? <==> !present
    ensures !present ==> g == GuardFault(NullReference)
  {
    if present then GuardPasses
    else GuardFault(NullReference)
  }

  /** The guard the exception message describes: fail when there is no instance or
      it is no longer alive. */
  function InstanceGuardIntended(present: bool, alive: bool): (g: GuardResult)
    ensures g.GuardFault? <==> !present || !alive
  {
    if present && alive then GuardPasses
    else GuardFault(NotCreated)
  }

  /** The two guards disagree exactly on a present but dead instance, which the
      guard as written hands out. */
  lemma GuardsDisagreeOnDeadInstance(present: bool, alive: bool)
    ensures InstanceGuardAsWritten(present, alive).GuardFault? != InstanceGuardIntended(present, alive).GuardFault?
            <==> present && !alive
    ensures InstanceGuardAsWritten(true, false) == GuardPasses
    ensures InstanceGuardIntended(true, false) == GuardFault(NotCreated)
  {
  }

  // ---------------------------------------------------------------------------
  // Packed entities
  // ---------------------------------------------------------------------------

  /** A weak handle: the id and the generation it had when packed. */
  datatype PackedEntity = PackedEntity(instanceId: int, gen: int)

  /** TryUnpack against a world's liveness and generations: fails, leaving the
      default entity, when the world is dead, the id is outside the generation
      array, or the generation moved on; succeeds with the packed id otherwise. */
  function Unpack(worldAlive: bool, gens: seq<int>, p: PackedEntity): (r: (bool, Entity))
    ensures r.0 <==> worldAlive && 0 <= p.instanceId < |gens| && gens[p.instanceId] == p.gen
    ensures r.1 == if r.0 then Entity(p.instanceId) else DefaultEntity
  {
    if !worldAlive then (false, DefaultEntity)
    else if !(0 <= p.instanceId < |gens|) then (false, DefaultEntity)
    else if gens[p.instanceId] != p.gen then (false, DefaultEntity)
    else (true, Entity(p.instanceId))
  }

  /** Packing then unpacking in an unchanged alive world gives the entity back. */
  lemma PackUnpackRoundTrip(gens: seq<int>, e: Entity)
    requires 0 <= e.instanceId < |gens|
    ensures Unpack(true, gens, PackedEntity(e.instanceId, gens[e.instanceId])) == (true, e)
  {
  }

  /** A handle packed before its entity was deleted never unpacks afterwards, even
      when the id is handed out again: deletion moves the generation on, and
      allocation never moves a generation back. */
  lemma StaleHandleRejected(gensAtPack: seq<int>, gensNow: seq<int>, e: Entity, alive: bool)
    requires 0 <= e.instanceId < |gensAtPack| <= |gensNow|
    requires gensNow[e.instanceId] > gensAtPack[e.instanceId]
    ensures Unpack(alive, gensNow, PackedEntity(e.instanceId, gensAtPack[e.instanceId])) == (false, DefaultEntity)
  {
  }

  // ---------------------------------------------------------------------------
  // The world singleton
  // ---------------------------------------------------------------------------

  /** The static `_instance` field of the generated world class, with the static
      members that go through it. */
  class WorldRegistry {
    var instance: EcsWorld?

    ghost predicate Valid()
      reads this, instance
    {
      instance != null ==> instance.Valid()
    }

    constructor ()
      ensures instance == null && Valid()
    {
      instance := null;
    }

    /** Create: fails while an alive world exists, else installs a fresh world. */
    method Create() returns (r: Result<EcsWorld, Fault>)
      modifies this
      ensures old(instance) != null && old(instance.alive) ==> r == Failure(AlreadyCreated) && instance == old(instance)
      ensures !(old(instance) != null && old(instance.alive)) ==>
        && r.Success? && fresh(r.value) && instance == r.value && Valid()
        && r.value.alive && r.value.live == {} && r.value.attached == map[]
        && r.value.gens == [] && r.value.calls == []
    {
      if instance != null && instance.IsAlive() {
        return Failure(AlreadyCreated);
      }
      var world := new EcsWorld();
      instance := world;
      r := Success(world);
    }

    /** The Instance getter as generated: faults only when there is no instance, and
        hands out a dead one. */
    method Instance() returns (r: Result<EcsWorld, Fault>)
      ensures instance == null ==> r == Failure(NullReference)
      ensures instance != null ==> r == Success(instance)
    {
      var guard := InstanceGuardAsWritten(instance != null, instance != null && instance.IsAlive());
      if guard.GuardFault? {
        return Failure(guard.fault);
      }
      r := Success(instance);
    }

    /** The Instance getter with the guard its message describes. */
    method InstanceIntended() returns (r: Result<EcsWorld, Fault>)
      ensures instance == null || !instance.alive ==> r == Failure(NotCreated)
      ensures instance != null && instance.alive ==> r == Success(instance)
    {
      var guard := InstanceGuardIntended(instance != null, instance != null && instance.IsAlive());
      if guard.GuardFault? {
        return Failure(guard.fault);
      }
      r := Success(instance);
    }

    /** Destroy: resolves Instance (faulting when there is none), tears that world
        down and clears the field. */
    method Destroy() returns (r: Outcome<Fault>)
      modifies this, instance
      ensures instance == null
      ensures old(instance) == null ==> r == Fail(NullReference)
      ensures old(instance) != null ==> r == Pass && !old(instance).alive
      ensures old(instance) != null ==>
        && old(instance).gens == old(instance.gens) && old(instance).live == old(instance.live)
        && old(instance).attached == old(instance.attached) && old(instance).calls == old(instance.calls)
    {
      var world := Instance();
      if world.Failure? {
        return Fail(world.error);
      }
      world.value.Destroy();
      instance := null;
      r := Pass;
    }

    /** Entity.Create(): a new entity of the Instance world. Only the world's entity
        bookkeeping changes: its liveness, components and pool calls stay as they were. */
    method CreateEntity() returns (r: Result<Entity, Fault>)
      requires Valid()
      modifies instance
      ensures Valid()
      ensures instance == null ==> r == Failure(NullReference)
      ensures instance != null ==>
        && r.Success? && 0 <= r.value.instanceId < |instance.gens|
        && r.value.instanceId !in old(instance.live) && instance.live == old(instance.live) + {r.value.instanceId}
        && |old(instance.gens)| <= |instance.gens| && instance.gens[..|old(instance.gens)|] == old(instance.gens)
        && instance.attached == old(instance.attached)
        && instance.alive == old(instance.alive) && instance.calls == old(instance.calls)
    {
      var world := Instance();
      if world.Failure? {
        return Failure(world.error);
      }
      var id := world.value.NewEntity();
      r := Success(Entity(id));
    }

    /** Entity.Destroy(): deletes the entity from the Instance world. An id outside
        the allocated slots faults in the engine and an allocated id that is not live
        is a no-op; either way nothing changes. The world's liveness and pool calls
        never change. */
    method DestroyEntity(e: Entity) returns (r: Outcome<Fault>)
      requires Valid()
      modifies instance
      ensures Valid()
      ensures instance == null ==> r == Fail(NullReference)
      ensures instance != null ==> instance.alive == old(instance.alive) && instance.calls == old(instance.calls)
      ensures instance != null && !(0 <= e.instanceId < |old(instance.gens)|) ==>
        && r == Fail(Engine(EntityOutOfRange))
        && instance.gens == old(instance.gens) && instance.live == old(instance.live)
        && instance.attached == old(instance.attached)
      ensures instance != null && 0 <= e.instanceId < |old(instance.gens)| && e.instanceId !in old(instance.live) ==>
        && r == Pass
        && instance.gens == old(instance.gens) && instance.live == old(instance.live)
        && instance.attached == old(instance.attached)
      ensures instance != null && 0 <= e.instanceId < |old(instance.gens)| && e.instanceId in old(instance.live) ==>
        && r == Pass
        && instance.gens == old(instance.gens)[e.instanceId := old(instance.gens)[e.instanceId] + 1]
        && instance.live == old(instance.live) - {e.instanceId}
        && instance.attached == WithoutEntity(old(instance.attached), e.instanceId)
    {
      var world := Instance();
      if world.Failure? {
        return Fail(world.error);
      }
      var deleted := world.value.DelEntity(e.instanceId);
      if deleted.Fail? {
        return Fail(Engine(deleted.error));
      }
      r := Pass;
    }

    /** Entity.Pack(): captures the id and its current generation. */
    method Pack(e: Entity) returns (r: Result<PackedEntity, Fault>)
      ensures instance == null ==> r == Failure(NullReference)
      ensures instance != null && !(0 <= e.instanceId < |instance.gens|) ==> r == Failure(Engine(EntityOutOfRange))
      ensures instance != null && 0 <= e.instanceId < |instance.gens| ==>
        r == Success(PackedEntity(e.instanceId, instance.gens[e.instanceId]))
    {
      var world := Instance();
      if world.Failure? {
        return Failure(world.error);
      }
      var gen := world.value.GetEntityGen(e.instanceId);
      if gen.Failure? {
        return Failure(Engine(gen.error));
      }
      r := Success(PackedEntity(e.instanceId, gen.value));
    }

    /** PackedEntity.TryUnpack(): resolves Instance (the only way it can fault), then
        checks liveness, range and generation in that order; a generation read out of
        range is caught and reported as failure. */
    method TryUnpack(p: PackedEntity) returns (r: Result<(bool, Entity), Fault>)
      ensures instance == null ==> r == Failure(NullReference)
      ensures instance != null ==> r == Success(Unpack(instance.alive, instance.gens, p))
    {
      var entity := DefaultEntity;
      var world := Instance();
      if world.Failure? {
        return Failure(world.error);
      }
      if !world.value.IsAlive() {
        return Success((false, entity));
      }
      var currentGen := world.value.GetEntityGen(p.instanceId);
      if currentGen.Failure? {
        return Success((false, entity));
      }
      if currentGen.value != p.gen {
        return Success((false, entity));
      }
      entity := Entity(p.instanceId);
      r := Success((true, entity));
    }
  }

  // ---------------------------------------------------------------------------
  // Pools and component accessors
  // ---------------------------------------------------------------------------

  /** The generated pool wrapper for one component type with `arity` fields. */
  datatype Pool = Pool(world: EcsWorld, componentType: string, arity: nat)

  function SlotOf(p: Pool, e: Entity): Slot {
    Slot(p.componentType, e.instanceId)
  }

  /** The value a freshly added component holds before its fields are written. */
  function Defaults(arity: nat): (component: seq<FieldValue>)
    ensures |component| == arity
    ensures forall k :: 0 <= k < arity ==> component[k] == 0
  {
    seq(arity, _ => 0)
  }

  /** The field assignments Add and Change emit, one per field in declaration order:
      field k receives parameter k, and nothing of the previous value survives. */
  method AssignFields(component: seq<FieldValue>, values: seq<FieldValue>) returns (written: seq<FieldValue>)
    requires |component| == |values|
    ensures written == values
  {
    written := component;
    for k := 0 to |values|
      invariant |written| == |values|
      invariant written[..k] == values[..k]
    {
      written := written[k := values[k]];
    }
    assert written[..|values|] == written;
  }

  /** `Has<Name>` and the getter of a flag: the pool's Has. */
  method HasComponent(p: Pool, e: Entity) returns (has: bool)
    modifies p.world`calls
    ensures has == (SlotOf(p, e) in p.world.attached)
    ensures p.world.calls == old(p.world.calls) + [HasCall(SlotOf(p, e))]
  {
    has := p.world.PoolHas(SlotOf(p, e));
  }

  /** The components after setting a flag: added (with no fields) only when set
      while absent, removed only when cleared while present, untouched otherwise. */
  function FlagAssigned(attached: map<Slot, seq<FieldValue>>, slot: Slot, value: bool): map<Slot, seq<FieldValue>> {
    var had := slot in attached;
    if value && !had then attached[slot := []]
    else if !value && had then attached - {slot}
    else attached
  }

  /** After the assignment Has answers the assigned value, every other component is
      untouched, and assigning the same value again changes nothing. */
  lemma FlagAssignmentIdempotent(attached: map<Slot, seq<FieldValue>>, slot: Slot, value: bool, other: Slot)
    ensures var after := FlagAssigned(attached, slot, value);
      && (slot in after <==> value)
      && (other != slot ==> (other in after <==> other in attached) && (other in attached ==> after[other] == attached[other]))
      && FlagAssigned(after, slot, value) == after
      && ((slot in attached) == value ==> after == attached)
  {
  }

  /** The setter of a flag property: asks Has first either way, then adds or
      removes as FlagAssigned says. */
  method SetFlag(p: Pool, e: Entity, value: bool)
    requires p.arity == 0
    modifies p.world`attached, p.world`calls
    ensures (SlotOf(p, e) in p.world.attached) == value
    ensures var slot := SlotOf(p, e);
      var had := slot in old(p.world.attached);
      && p.world.attached == FlagAssigned(old(p.world.attached), slot, value)
      && p.world.calls == old(p.world.calls) + [HasCall(slot)]
           + (if value && !had then [AddCall(slot)] else if !value && had then [DelCall(slot)] else [])
  {
    var slot := SlotOf(p, e);
    if value {
      var has := p.world.PoolHas(slot);
      if !has {
        var added := p.world.PoolAdd(slot, Defaults(p.arity));
      }
    } else {
      var has := p.world.PoolHas(slot);
      if has {
        p.world.PoolDel(slot);
      }
    }
  }

  /** `Set<Name>Flag`: the setter, returning the same entity for chaining. */
  method SetFlagChained(p: Pool, e: Entity, value: bool) returns (same: Entity)
    requires p.arity == 0
    modifies p.world`attached, p.world`calls
    ensures same == e
    ensures (SlotOf(p, e) in p.world.attached) == value
    ensures p.world.attached == FlagAssigned(old(p.world.attached), SlotOf(p, e), value)
    ensures (SlotOf(p, e) in old(p.world.attached)) == value ==> p.world.attached == old(p.world.attached)
    ensures var slot := SlotOf(p, e);
      var had := slot in old(p.world.attached);
      p.world.calls == old(p.world.calls) + [HasCall(slot)]
        + (if value && !had then [AddCall(slot)] else if !value && had then [DelCall(slot)] else [])
  {
    SetFlag(p, e, value);
    same := e;
  }

  /** The single-field value getter, `pool.Get(this).<Field>`. */
  method GetFieldValue(p: Pool, e: Entity) returns (r: Result<FieldValue, Fault>)
    requires p.arity == 1
    requires SlotOf(p, e) in p.world.attached ==> |p.world.attached[SlotOf(p, e)]| == 1
    modifies p.world`calls
    ensures p.world.calls == old(p.world.calls) + [GetCall(SlotOf(p, e))]
    ensures SlotOf(p, e) !in p.world.attached ==> r == Failure(Engine(NotAttached))
    ensures SlotOf(p, e) in p.world.attached ==> r == Success(p.world.attached[SlotOf(p, e)][0])
  {
    var component := p.world.PoolGet(SlotOf(p, e));
    if component.Failure? {
      return Failure(Engine(component.error));
    }
    r := Success(component.value[0]);
  }

  /** `Add<Name>(...)`: attaches the component, then writes every parameter into its
      field; the engine faults when the component is already attached. */
  method AddComponent(p: Pool, e: Entity, values: seq<FieldValue>) returns (r: Result<Entity, Fault>)
    requires |values| == p.arity
    modifies p.world`attached, p.world`calls
    ensures p.world.calls == old(p.world.calls) + [AddCall(SlotOf(p, e))]
    ensures SlotOf(p, e) !in old(p.world.attached) ==>
      r == Success(e) && p.world.attached == old(p.world.attached)[SlotOf(p, e) := values]
    ensures SlotOf(p, e) in old(p.world.attached) ==>
      r == Failure(Engine(AlreadyAttached)) && p.world.attached == old(p.world.attached)
  {
    var slot := SlotOf(p, e);
    var added := p.world.PoolAdd(slot, Defaults(p.arity));
    if added.Fail? {
      return Failure(Engine(added.error));
    }
    var component := AssignFields(p.world.attached[slot], values);
    p.world.PoolWrite(slot, component);
    r := Success(e);
  }

  /** `Change<Name>(...)`: gets the attached component and overwrites its fields; the
      engine faults when none is attached. */
  method ChangeComponent(p: Pool, e: Entity, values: seq<FieldValue>) returns (r: Result<Entity, Fault>)
    requires |values| == p.arity
    requires SlotOf(p, e) in p.world.attached ==> |p.world.attached[SlotOf(p, e)]| == p.arity
    modifies p.world`attached, p.world`calls
    ensures p.world.calls == old(p.world.calls) + [GetCall(SlotOf(p, e))]
    ensures SlotOf(p, e) in old(p.world.attached) ==>
      r == Success(e) && p.world.attached == old(p.world.attached)[SlotOf(p, e) := values]
    ensures SlotOf(p, e) !in old(p.world.attached) ==>
      r == Failure(Engine(NotAttached)) && p.world.attached == old(p.world.attached)
  {
    var slot := SlotOf(p, e);
    var component := p.world.PoolGet(slot);
    if component.Failure? {
      return Failure(Engine(component.error));
    }
    var written := AssignFields(component.value, values);
    p.world.PoolWrite(slot, written);
    r := Success(e);
  }

  /** `Replace<Name>(...)`: Change when attached, Add otherwise; either way the
      component ends up holding exactly the parameters, and it never faults. */
  method ReplaceComponent(p: Pool, e: Entity, values: seq<FieldValue>) returns (r: Result<Entity, Fault>)
    requires |values| == p.arity
    requires SlotOf(p, e) in p.world.attached ==> |p.world.attached[SlotOf(p, e)]| == p.arity
    modifies p.world`attached, p.world`calls
    ensures r == Success(e)
    ensures p.world.attached == old(p.world.attached)[SlotOf(p, e) := values]
    ensures p.world.calls == old(p.world.calls) + [HasCall(SlotOf(p, e))]
      + (if SlotOf(p, e) in old(p.world.attached) then [GetCall(SlotOf(p, e))] else [AddCall(SlotOf(p, e))])
  {
    var has := p.world.PoolHas(SlotOf(p, e));
    if has {
      r := ChangeComponent(p, e, values);
    } else {
      r := AddComponent(p, e, values);
    }
  }

  /** `Remove<Name>()`: deletes through the pool with no Has check first. */
  method RemoveComponent(p: Pool, e: Entity) returns (same: Entity)
    modifies p.world`attached, p.world`calls
    ensures same == e
    ensures p.world.attached == old(p.world.attached) - {SlotOf(p, e)}
    ensures p.world.calls == old(p.world.calls) + [DelCall(SlotOf(p, e))]
  {
    p.world.PoolDel(SlotOf(p, e));
    same := e;
  }

  // ---------------------------------------------------------------------------
  // Matchers, masks and groups
  // ---------------------------------------------------------------------------

  /** The generated matcher: AllOf fixes the include indices, NoneOf the exclude ones. */
  class Matcher {
    var includeIndices: seq<int>
    var excludeIndices: seq<int>

    constructor AllOf(indices: seq<int>)
      ensures includeIndices == indices && excludeIndices == []
    {
      includeIndices := indices;
      excludeIndices := [];
    }

    method NoneOf(indices: seq<int>) returns (same: Matcher)
      modifies this
      ensures same == this
      ensures includeIndices == old(includeIndices) && excludeIndices == indices
    {
      excludeIndices := indices;
      same := this;
    }
  }

  /** A filter mask under construction: the component types it includes and excludes,
      in the order they were added. */
  datatype Mask = Mask(included: seq<string>, excluded: seq<string>)

  /** The group GetGroup returns: the finished filter. */
  datatype Group = Group(filter: Mask)

  /** `FilterByComponentIndex`: starts a mask from the component with that index; in
      the emitted code an index outside the world's components reaches the throwing
      default. */
  function FilterByComponentIndex(code: WorldCode, index: int): (r: Result<Mask, Fault>)
    ensures r.Failure? ==> r.error == UnknownComponentIndex
    ensures WellFormedCode(code) ==> (r.Success? <==> 0 <= index < |code.components|)
    ensures WellFormedCode(code) && 0 <= index < |code.components| ==>
      r.value == Mask([FullName(code.components[index])], [])
  {
    WellFormedDispatch(code, index);
    match Dispatch(code.filterCases, index)
    case Some(t) => Success(Mask([t], []))
    case None => Failure(UnknownComponentIndex)
  }

  /** `IncludeByComponentIndex`: appends the component with that index to the
      includes, leaving the excludes alone. */
  function IncludeByComponentIndex(code: WorldCode, mask: Mask, index: int): (r: Result<Mask, Fault>)
    ensures r.Failure? ==> r.error == UnknownComponentIndex
    ensures WellFormedCode(code) ==> (r.Success? <==> 0 <= index < |code.components|)
    ensures WellFormedCode(code) && 0 <= index < |code.components| ==>
      r.value == Mask(mask.included + [FullName(code.components[index])], mask.excluded)
  {
    WellFormedDispatch(code, index);
    match Dispatch(code.includeCases, index)
    case Some(t) => Success(Mask(mask.included + [t], mask.excluded))
    case None => Failure(UnknownComponentIndex)
  }

  /** `ExcludeByComponentIndex`: appends the component with that index to the
      excludes, leaving the includes alone. */
  function ExcludeByComponentIndex(code: WorldCode, mask: Mask, index: int): (r: Result<Mask, Fault>)
    ensures r.Failure? ==> r.error == UnknownComponentIndex
    ensures WellFormedCode(code) ==> (r.Success? <==> 0 <= index < |code.components|)
    ensures WellFormedCode(code) && 0 <= index < |code.components| ==>
      r.value == Mask(mask.included, mask.excluded + [FullName(code.components[index])])
  {
    WellFormedDispatch(code, index);
    match Dispatch(code.excludeCases, index)
    case Some(t) => Success(Mask(mask.included, mask.excluded + [t]))
    case None => Failure(UnknownComponentIndex)
  }

  predicate InRange(code: WorldCode, indices: seq<int>) {
    forall k :: 0 <= k < |indices| ==> 0 <= indices[k] < |code.components|
  }

  /** The component types that the indices name, in order. */
  function TypesOf(code: WorldCode, indices: seq<int>): (types: seq<string>)
    requires InRange(code, indices)
    ensures |types| == |indices|
  {
    seq(|indices|, k requires 0 <= k < |indices| => FullName(code.components[indices[k]]))
  }

  /** GetGroup: the first include starts the mask, the other includes are folded in
      order, then the excludes in order. An empty include array faults on reading
      its first element; an index outside the world's components faults in the
      switch. On success the mask holds the named types in matcher order. */
  method GetGroup(code: WorldCode, matcher: Matcher) returns (r: Result<Group, Fault>)
    requires WellFormedCode(code)
    ensures matcher.includeIndices == [] ==> r == Failure(IndexOutOfRange)
    ensures matcher.includeIndices != [] && !(InRange(code, matcher.includeIndices) && InRange(code, matcher.excludeIndices)) ==>
      r == Failure(UnknownComponentIndex)
    ensures matcher.includeIndices != [] && InRange(code, matcher.includeIndices) && InRange(code, matcher.excludeIndices) ==>
      r == Success(Group(Mask(TypesOf(code, matcher.includeIndices), TypesOf(code, matcher.excludeIndices))))
  {
    var includes := matcher.includeIndices;
    var excludes := matcher.excludeIndices;
    if includes == [] {
      return Failure(IndexOutOfRange);
    }
    var first := FilterByComponentIndex(code, includes[0]);
    if first.Failure? {
      return Failure(first.error);
    }
    var filterMask := first.value;
    var k := 1;
    while k < |includes|
      invariant 1 <= k <= |includes|
      invariant InRange(code, includes[..k])
      invariant filterMask == Mask(TypesOf(code, includes[..k]), [])
    {
      var next := IncludeByComponentIndex(code, filterMask, includes[k]);
      if next.Failure? {
        return Failure(next.error);
      }
      filterMask := next.value;
      assert includes[..k + 1] == includes[..k] + [includes[k]];
      k := k + 1;
    }
    assert includes[..k] == includes;
    var j := 0;
    while j < |excludes|
      invariant 0 <= j <= |excludes|
      invariant InRange(code, excludes[..j])
      invariant filterMask == Mask(TypesOf(code, includes), TypesOf(code, excludes[..j]))
    {
      var next := ExcludeByComponentIndex(code, filterMask, excludes[j]);
      if next.Failure? {
        return Failure(next.error);
      }
      filterMask := next.value;
      assert excludes[..j + 1] == excludes[..j] + [excludes[j]];
      j := j + 1;
    }
    assert excludes[..j] == excludes;
    r := Success(Group(filterMask));
  }

  /** An entity is in a group when it is live, has every included component and none
      of the excluded ones. */
  predicate Matches(attached: map<Slot, seq<FieldValue>>, live: set<int>, filter: Mask, id: int) {
    && id in live
    && (forall t :: t in filter.included ==> Slot(t, id) in attached)
    && (forall t :: t in filter.excluded ==> Slot(t, id) !in attached)
  }

  /** A group built from "all of {a, b}, none of {c}" holds exactly the live entities
      having a and b and lacking c; attaching c, or detaching a, takes a member out
      of the next enumeration. */
  lemma AllOfNoneOfMembership(code: WorldCode, a: int, b: int, c: int,
                              attached: map<Slot, seq<FieldValue>>, live: set<int>, id: int, v: seq<FieldValue>)
    requires WellFormedCode(code)
    requires 0 <= a < |code.components| && 0 <= b < |code.components| && 0 <= c < |code.components|
    ensures var filter := Mask(TypesOf(code, [a, b]), TypesOf(code, [c]));
      var ta, tb, tc := FullName(code.components[a]), FullName(code.components[b]), FullName(code.components[c]);
      && (Matches(attached, live, filter, id) <==>
            id in live && Slot(ta, id) in attached && Slot(tb, id) in attached && Slot(tc, id) !in attached)
      && !Matches(attached[Slot(tc, id) := v], live, filter, id)
      && !Matches(attached - {Slot(ta, id)}, live, filter, id)
  {
    var filter := Mask(TypesOf(code, [a, b]), TypesOf(code, [c]));
    assert filter.included == [FullName(code.components[a]), FullName(code.components[b])];
    assert filter.excluded == [FullName(code.components[c])];
  }
}
