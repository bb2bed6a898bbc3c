/**
  The storage engine the generated code runs on (an external ECS library).
  Only what the generated code relies on is represented: entity ids with a
  per-id generation counter, a liveness flag for the world, the components
  attached to each entity, and, for the pools, a record of every call the
  generated code makes on them. The bodies below are the behaviour this model
  assumes of the library; they are not a verified rendering of it.
*/
module Engine {
  import opened Wrappers

  /** A component field value. The generated code only stores and returns these. */
  type FieldValue = int

  /** The component of one type attached to one entity id. */
  datatype Slot = Slot(componentType: string, entity: int)

  /** A call made on a component pool. */
  datatype PoolCall = HasCall(slot: Slot) | AddCall(slot: Slot) | GetCall(slot: Slot) | DelCall(slot: Slot)

  /** The faults the library raises on misuse that the generated code does not guard. */
  datatype EngineFault = AlreadyAttached | NotAttached | EntityOutOfRange

  /** The components left after an entity is deleted. */
  function WithoutEntity(attached: map<Slot, seq<FieldValue>>, id: int): (rest: map<Slot, seq<FieldValue>>)
    ensures forall s :: s in rest <==> s in attached && s.entity != id
    ensures forall s :: s in rest ==> rest[s] == attached[s]
  {
    map s | s in attached && s.entity != id :: attached[s]
  }

  class EcsWorld {
    var alive: bool
    /** The generation of every entity slot the world has allocated. */
    var gens: seq<int>
    var live: set<int>
    var attached: map<Slot, seq<FieldValue>>
    var calls: seq<PoolCall>

    ghost predicate Valid()
      reads this
    {
      forall id :: id in live ==> 0 <= id < |gens|
    }

    constructor ()
      ensures Valid()
      ensures alive && gens == [] && live == {} && attached == map[] && calls == []
    {
      alive := true;
      gens := [];
      live := {};
      attached := map[];
      calls := [];
    }

    function IsAlive(): bool
      reads this
    {
      alive
    }

    /** Tears the world down. */
    method Destroy()
      modifies this`alive
      ensures !alive
    {
      alive := false;
    }

    /** Allocates an entity: a free slot is reused with the generation it has, or
        a new slot is added with generation 1. Existing generations do not change. */
    method NewEntity() returns (id: int)
      requires Valid()
      modifies this`gens, this`live
      ensures Valid()
      ensures 0 <= id < |gens| && id !in old(live) && live == old(live) + {id}
      ensures |old(gens)| <= |gens| && gens[..|old(gens)|] == old(gens)
    {
      if exists k :: 0 <= k < |gens| && k !in live {
        id :| 0 <= id < |gens| && id !in live;
      } else {
        id := |gens|;
        gens := gens + [1];
      }
      live := live + {id};
    }

    /** Deletes an entity: its components go, and its generation moves on, so that
        handles packed before the deletion no longer match. */
    method DelEntity(id: int) returns (r: Outcome<EngineFault>)
      requires Valid()
      modifies this`gens, this`live, this`attached
      ensures Valid()
      ensures !(0 <= id < |old(gens)|) ==>
        r == Fail(EntityOutOfRange) && gens == old(gens) && live == old(live) && attached == old(attached)
      ensures 0 <= id < |old(gens)| && id !in old(live) ==>
        r == Pass && gens == old(gens) && live == old(live) && attached == old(attached)
      ensures 0 <= id < |old(gens)| && id in old(live) ==>
        && r == Pass
        && gens == old(gens)[id := old(gens)[id] + 1]
        && live == old(live) - {id}
        && attached == WithoutEntity(old(attached), id)
    {
      if !(0 <= id < |gens|) {
        return Fail(EntityOutOfRange);
      }
      if id in live {
        attached := WithoutEntity(attached, id);
        gens := gens[id := gens[id] + 1];
        live := live - {id};
      }
      r := Pass;
    }

    /** The generation of an id; reading outside the allocated slots faults. */
    function GetEntityGen(id: int): (r: Result<int, EngineFault>)
      reads this
      ensures r.Success? <==> 0 <= id < |gens|
      ensures r.Success? ==> r.value == gens[id]
    {
      if 0 <= id < |gens| then Success(gens[id]) else Failure(EntityOutOfRange)
    }

    method PoolHas(slot: Slot) returns (has: bool)
      modifies this`calls
      ensures has == (slot in attached)
      ensures calls == old(calls) + [HasCall(slot)]
    {
      calls := calls + [HasCall(slot)];
      has := slot in attached;
    }

    /** Attaches a component holding `initial`; attaching twice faults. */
    method PoolAdd(slot: Slot, initial: seq<FieldValue>) returns (r: Outcome<EngineFault>)
      modifies this`attached, this`calls
      ensures calls == old(calls) + [AddCall(slot)]
      ensures slot in old(attached) ==> r == Fail(AlreadyAttached) && attached == old(attached)
      ensures slot !in old(attached) ==> r == Pass && attached == old(attached)[slot := initial]
    {
      calls := calls + [AddCall(slot)];
      if slot in attached {
        return Fail(AlreadyAttached);
      }
      attached := attached[slot := initial];
      r := Pass;
    }

    /** The attached component; getting an absent one faults. */
    method PoolGet(slot: Slot) returns (r: Result<seq<FieldValue>, EngineFault>)
      modifies this`calls
      ensures calls == old(calls) + [GetCall(slot)]
      ensures slot !in attached ==> r == Failure(NotAttached)
      ensures slot in attached ==> r == Success(attached[slot])
    {
      calls := calls + [GetCall(slot)];
      if slot !in attached {
        return Failure(NotAttached);
      }
      r := Success(attached[slot]);
    }

    /** A write through the reference that Add or Get handed out. */
    method PoolWrite(slot: Slot, component: seq<FieldValue>)
      requires slot in attached
      modifies this`attached
      ensures attached == old(attached)[slot := component]
    {
      attached := attached[slot := component];
    }

    /** Detaches a component; detaching an absent one leaves the world as it was. */
    method PoolDel(slot: Slot)
      modifies this`attached, this`calls
      ensures calls == old(calls) + [DelCall(slot)]
      ensures attached == old(attached) - {slot}
    {
      calls := calls + [DelCall(slot)];
      attached := attached - {slot};
    }
  }
}
