/**
  The system composite: a feature keeps one list per phase interface, adds a
  system to every list whose interface it implements, and runs a phase by
  calling the systems of that phase's list in the order they were added.
*/
module Systems {

  datatype Phase = InitializePhase | ExecutePhase | CleanupPhase | TearDownPhase

  /** A system, known by its identity and the phase interfaces it implements.
      A nested feature is a system implementing all four. */
  datatype System = System(id: nat, phases: set<Phase>)

  /** One call a phase method makes: `system.Initialize()`, `system.Execute()`, ... */
  datatype Invocation = Invocation(system: System, phase: Phase)

  /** The four lists of a feature. */
  datatype PhaseLists = PhaseLists(initialize: seq<System>, execute: seq<System>,
                                   cleanup: seq<System>, tearDown: seq<System>)

  function ListOf(lists: PhaseLists, phase: Phase): seq<System> {
    match phase
    case InitializePhase => lists.initialize
    case ExecutePhase => lists.execute
    case CleanupPhase => lists.cleanup
    case TearDownPhase => lists.tearDown
  }

  /** One of Add's four independent checks. */
  function Enlist(list: seq<System>, s: System, phase: Phase): seq<System> {
    if phase in s.phases then list + [s] else list
  }

  /** The lists after Add(s). */
  function Added(lists: PhaseLists, s: System): PhaseLists {
    PhaseLists(Enlist(lists.initialize, s, InitializePhase),
               Enlist(lists.execute, s, ExecutePhase),
               Enlist(lists.cleanup, s, CleanupPhase),
               Enlist(lists.tearDown, s, TearDownPhase))
  }

  /** The calls a phase makes over a list: one per entry, in list order. */
  function Invocations(systems: seq<System>, phase: Phase): (calls: seq<Invocation>)
    ensures |calls| == |systems|
  {
    seq(|systems|, k requires 0 <= k < |systems| => Invocation(systems[k], phase))
  }

  /** Add keeps every list's existing entries in place and appends the system to each
      list whose interface it implements, and only to those. */
  lemma AddAppendsOnlyToMatchingLists(lists: PhaseLists, s: System, phase: Phase)
    ensures var before, after := ListOf(lists, phase), ListOf(Added(lists, s), phase);
      && before <= after
      && |after| == |before| + (if phase in s.phases then 1 else 0)
      && (phase in s.phases ==> after[|after| - 1] == s)
      && (s in after <==> s in before || phase in s.phases)
  {
  }

  /** Add has no duplicate check: adding a system twice puts it in each of its lists
      twice, and the phase then calls it twice in a row. */
  lemma {:induction false} AddTwiceRunsTwice(lists: PhaseLists, s: System, phase: Phase)
    requires phase in s.phases
    ensures var after := ListOf(Added(Added(lists, s), s), phase);
      && multiset(after)[s] == multiset(ListOf(lists, phase))[s] + 2
      && Invocations(after, phase)[|after| - 2..] == [Invocation(s, phase), Invocation(s, phase)]
  {
    var before := ListOf(lists, phase);
    var after := ListOf(Added(Added(lists, s), s), phase);
    assert after == before + [s] + [s];
    assert after == before + [s, s];
  }

  /** A system added to several lists is called by each of those phases. */
  lemma {:induction false} AddedSystemIsInvoked(lists: PhaseLists, s: System, phase: Phase)
    requires phase in s.phases
    ensures Invocation(s, phase) in Invocations(ListOf(Added(lists, s), phase), phase)
  {
    var after := ListOf(Added(lists, s), phase);
    assert after[|after| - 1] == s;
    assert Invocations(after, phase)[|after| - 1] == Invocation(s, phase);
  }

  /** Calls every system of the list for the phase, in list order (the foreach of a
      phase method). */
  method Invoke(systems: seq<System>, phase: Phase) returns (calls: seq<Invocation>)
    ensures calls == Invocations(systems, phase)
  {
    calls := [];
    for k := 0 to |systems|
      invariant calls == Invocations(systems[..k], phase)
    {
      assert systems[..k + 1] == systems[..k] + [systems[k]];
      calls := calls + [Invocation(systems[k], phase)];
    }
    assert systems[..|systems|] == systems;
  }

  class Feature {
    var initializeSystems: seq<System>
    var executeSystems: seq<System>
    var cleanupSystems: seq<System>
    var tearDownSystems: seq<System>

    function Lists(): PhaseLists
      reads this
    {
      PhaseLists(initializeSystems, executeSystems, cleanupSystems, tearDownSystems)
    }

    constructor ()
      ensures Lists() == PhaseLists([], [], [], [])
    {
      initializeSystems := [];
      executeSystems := [];
      cleanupSystems := [];
      tearDownSystems := [];
    }

    /** Four independent checks, one per phase interface. */
    method Add(system: System)
      modifies this
      ensures Lists() == Added(old(Lists()), system)
    {
      if InitializePhase in system.phases {
        initializeSystems := initializeSystems + [system];
      }
      if ExecutePhase in system.phases {
        executeSystems := executeSystems + [system];
      }
      if CleanupPhase in system.phases {
        cleanupSystems := cleanupSystems + [system];
      }
      if TearDownPhase in system.phases {
        tearDownSystems := tearDownSystems + [system];
      }
    }

    method Initialize() returns (calls: seq<Invocation>)
      ensures calls == Invocations(ListOf(Lists(), InitializePhase), InitializePhase)
    {
      calls := Invoke(initializeSystems, InitializePhase);
    }

    method Execute() returns (calls: seq<Invocation>)
      ensures calls == Invocations(ListOf(Lists(), ExecutePhase), ExecutePhase)
    {
      calls := Invoke(executeSystems, ExecutePhase);
    }

    method Cleanup() returns (calls: seq<Invocation>)
      ensures calls == Invocations(ListOf(Lists(), CleanupPhase), CleanupPhase)
    {
      calls := Invoke(cleanupSystems, CleanupPhase);
    }

    method TearDown() returns (calls: seq<Invocation>)
      ensures calls == Invocations(ListOf(Lists(), TearDownPhase), TearDownPhase)
    {
      calls := Invoke(tearDownSystems, TearDownPhase);
    }
  }
}
