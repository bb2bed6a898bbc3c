/**
  World assembly: for each declared world, the components tagged with it, and the
  tables the generator emits over them. Position i of a world's component list
  is the component's index everywhere: in the lookup table, in the matcher's
  index properties, in MaxComponentsCount and in the three switch tables that
  the world class dispatches mask construction through.
*/
module Assembly {
  import opened Wrappers
  import opened Schema

  // ---------------------------------------------------------------------------
  // Component admission into a world
  // ---------------------------------------------------------------------------

  /** The extracted components, in discovery order (declarations that extraction
      rejects are dropped). */
  function CollectComponents(decls: seq<StructDecl>): (comps: seq<StructInfo>)
    ensures |comps| <= |decls|
  {
    if decls == [] then []
    else
      var last := StructInfoOf(decls[|decls| - 1]);
      CollectComponents(decls[..|decls| - 1]) + (if last.Some? then [last.value] else [])
  }

  /** Every collected component is what some declaration extracts to. */
  lemma {:induction false} CollectedFromSomeDeclaration(decls: seq<StructDecl>, c: StructInfo)
    requires c in CollectComponents(decls)
    ensures exists k :: 0 <= k < |decls| && StructInfoOf(decls[k]) == Some(c)
  {
    var n := |decls| - 1;
    var init := decls[..n];
    var last := StructInfoOf(decls[n]);
    assert CollectComponents(decls) == CollectComponents(init) + (if last.Some? then [last.value] else []);
    if c in CollectComponents(init) {
      CollectedFromSomeDeclaration(init, c);
      var k :| 0 <= k < n && StructInfoOf(init[k]) == Some(c);
      assert decls[k] == init[k];
    } else {
      assert StructInfoOf(decls[n]) == Some(c);
    }
  }

  /** Every declaration that extraction admits contributes its component. */
  lemma AdmittedDeclarationCollected(decls: seq<StructDecl>, k: nat, c: StructInfo)
    requires k < |decls| && StructInfoOf(decls[k]) == Some(c)
    ensures c in CollectComponents(decls)
  {
    var before, one, after := decls[..k], [decls[k]], decls[k + 1..];
    SplitAround(decls, k);
    CollectComponentsConcat(before + one, after);
    CollectComponentsConcat(before, one);
    SingleDeclarationCollected(decls[k], c);
  }

  lemma SplitAround<T>(s: seq<T>, k: nat)
    requires k < |s|
    ensures s == s[..k] + [s[k]] + s[k + 1..]
  {
  }

  /** A single admitted declaration yields its component alone. */
  lemma SingleDeclarationCollected(d: StructDecl, c: StructInfo)
    requires StructInfoOf(d) == Some(c)
    ensures CollectComponents([d]) == [c]
  {
    assert [d][..0] == [];
  }

  /** A component is collected exactly when some declaration extracts to it. */
  lemma CollectComponentsMembership(decls: seq<StructDecl>, c: StructInfo)
    ensures c in CollectComponents(decls) <==> exists k :: 0 <= k < |decls| && StructInfoOf(decls[k]) == Some(c)
  {
    if c in CollectComponents(decls) {
      CollectedFromSomeDeclaration(decls, c);
    }
    if exists k :: 0 <= k < |decls| && StructInfoOf(decls[k]) == Some(c) {
      var k :| 0 <= k < |decls| && StructInfoOf(decls[k]) == Some(c);
      AdmittedDeclarationCollected(decls, k, c);
    }
  }

  /** Collection keeps discovery order: the components of two runs of declarations
      are those of the first run followed by those of the second. */
  lemma {:induction false} CollectComponentsConcat(a: seq<StructDecl>, b: seq<StructDecl>)
    ensures CollectComponents(a + b) == CollectComponents(a) + CollectComponents(b)
    decreases |b|
  {
    if b == [] {
      assert a + b == a;
    } else {
      var n := |b| - 1;
      var tail := if StructInfoOf(b[n]).Some? then [StructInfoOf(b[n]).value] else [];
      CollectComponentsConcat(a, b[..n]);
      assert (a + b)[..|a + b| - 1] == a + b[..n];
      assert (a + b)[|a + b| - 1] == b[n];
      assert CollectComponents(a + b) == CollectComponents(a + b[..n]) + tail;
      assert CollectComponents(b) == CollectComponents(b[..n]) + tail;
    }
  }

  predicate Tagged(world: string, c: StructInfo) {
    world in c.worldNames
  }

  /** The components of one world, in discovery order. */
  function WorldComponents(world: string, comps: seq<StructInfo>): (wc: seq<StructInfo>)
    ensures |wc| <= |comps|
    ensures forall c :: c in wc ==> Tagged(world, c)
  {
    if comps == [] then []
    else
      var last := comps[|comps| - 1];
      WorldComponents(world, comps[..|comps| - 1]) + (if Tagged(world, last) then [last] else [])
  }

  /** The positions, in the input, of the components tagged with the world. */
  function TaggedPositions(world: string, comps: seq<StructInfo>): seq<nat> {
    if comps == [] then []
    else
      var n := |comps| - 1;
      TaggedPositions(world, comps[..n]) + (if Tagged(world, comps[n]) then [n] else [])
  }

  predicate StrictlyIncreasing(s: seq<nat>) {
    forall a, b :: 0 <= a < b < |s| ==> s[a] < s[b]
  }

  /** The tagged positions lie inside the input, increase, and are exactly the
      positions of tagged components. */
  lemma {:induction false} TaggedPositionsExact(world: string, comps: seq<StructInfo>)
    ensures var positions := TaggedPositions(world, comps);
      && (forall k :: 0 <= k < |positions| ==> positions[k] < |comps|)
      && StrictlyIncreasing(positions)
      && (forall j :: j in positions <==> 0 <= j < |comps| && Tagged(world, comps[j]))
  {
    if comps != [] {
      var n := |comps| - 1;
      var init := comps[..n];
      TaggedPositionsExact(world, init);
      var positions := TaggedPositions(world, comps);
      forall j ensures j in positions <==> 0 <= j < |comps| && Tagged(world, comps[j]) {
        if 0 <= j < n {
          assert comps[j] == init[j];
        }
      }
    }
  }

  /** The k-th component of a world is the input's component at the k-th tagged
      position. */
  lemma {:induction false} WorldComponentsAtPositions(world: string, comps: seq<StructInfo>)
    ensures var positions := TaggedPositions(world, comps);
      && |WorldComponents(world, comps)| == |positions|
      && (forall k :: 0 <= k < |positions| ==>
            positions[k] < |comps| && WorldComponents(world, comps)[k] == comps[positions[k]])
  {
    if comps != [] {
      var n := |comps| - 1;
      var init := comps[..n];
      WorldComponentsAtPositions(world, init);
      var positions, initPositions := TaggedPositions(world, comps), TaggedPositions(world, init);
      var wc, initWc := WorldComponents(world, comps), WorldComponents(world, init);
      assert |initWc| == |initPositions|;
      forall k | 0 <= k < |positions|
        ensures positions[k] < |comps| && wc[k] == comps[positions[k]]
      {
        if k < |initPositions| {
          assert positions[k] == initPositions[k] && wc[k] == initWc[k];
          assert init[initPositions[k]] == comps[initPositions[k]];
        } else {
          assert positions[k] == n && wc[k] == comps[n];
        }
      }
    }
  }

  /** A world's component list is the order-preserving filter of the input: its k-th
      element is the input's element at the k-th tagged position, the positions
      increase, and they are exactly the positions of tagged components. */
  lemma WorldComponentsIsOrderedFilter(world: string, comps: seq<StructInfo>)
    ensures var positions := TaggedPositions(world, comps);
      && |WorldComponents(world, comps)| == |positions|
      && StrictlyIncreasing(positions)
      && (forall k :: 0 <= k < |positions| ==>
            positions[k] < |comps| && WorldComponents(world, comps)[k] == comps[positions[k]])
      && (forall j :: j in positions <==> 0 <= j < |comps| && Tagged(world, comps[j]))
  {
    TaggedPositionsExact(world, comps);
    WorldComponentsAtPositions(world, comps);
  }

  // ---------------------------------------------------------------------------
  // Index tables
  // ---------------------------------------------------------------------------

  /** One line of the lookup class: `public static readonly int <name> = <index>;`. */
  datatype LookupEntry = LookupEntry(componentName: string, index: int)

  /** One arm of a switch: `case <index>:` returning the mask step for the component type. */
  datatype CaseArm = CaseArm(index: int, componentType: string)

  /** The type name the switch arms use: qualified unless the namespace is empty. */
  function FullName(c: StructInfo): string {
    if c.fullNamespace == "" then c.componentName else c.fullNamespace + "." + c.componentName
  }

  function LookupTable(comps: seq<StructInfo>): seq<LookupEntry> {
    seq(|comps|, i requires 0 <= i < |comps| => LookupEntry(comps[i].componentName, i))
  }

  function CaseTable(comps: seq<StructInfo>): seq<CaseArm> {
    seq(|comps|, i requires 0 <= i < |comps| => CaseArm(i, FullName(comps[i])))
  }

  /** The component type a switch returns for an index; None is the throwing default. */
  function Dispatch(arms: seq<CaseArm>, index: int): Option<string> {
    if arms == [] then None
    else if arms[0].index == index then Some(arms[0].componentType)
    else Dispatch(arms[1..], index)
  }

  /** The value of the lookup property with the given name (the first such line). */
  function LookupByName(lookup: seq<LookupEntry>, name: string): Option<int> {
    if lookup == [] then None
    else if lookup[0].componentName == name then Some(lookup[0].index)
    else LookupByName(lookup[1..], name)
  }

  /** The lookup loop: line i names component i and gives it the value i. */
  method GenerateComponentsLookup(comps: seq<StructInfo>) returns (lookup: seq<LookupEntry>)
    ensures lookup == LookupTable(comps)
  {
    lookup := [];
    for i := 0 to |comps|
      invariant |lookup| == i
      invariant forall k :: 0 <= k < i ==> lookup[k] == LookupEntry(comps[k].componentName, k)
    {
      lookup := lookup + [LookupEntry(comps[i].componentName, i)];
    }
  }

  /** The loop that writes one switch (the generator runs it once for each of the
      Filter, Inc and Exc dispatchers): arm i returns the step for component i. */
  method GenerateCaseTable(comps: seq<StructInfo>) returns (arms: seq<CaseArm>)
    ensures arms == CaseTable(comps)
  {
    arms := [];
    for i := 0 to |comps|
      invariant |arms| == i
      invariant forall k :: 0 <= k < i ==> arms[k] == CaseArm(k, FullName(comps[k]))
    {
      arms := arms + [CaseArm(i, FullName(comps[i]))];
    }
  }

  /** Dispatch through arms numbered consecutively from `offset` finds arm
      `index - offset` for an index in range, and reaches the default otherwise. */
  lemma {:induction false} DispatchConsecutive(arms: seq<CaseArm>, offset: int, index: int)
    requires forall k :: 0 <= k < |arms| ==> arms[k].index == offset + k
    ensures Dispatch(arms, index) ==
      if offset <= index < offset + |arms| then Some(arms[index - offset].componentType) else None
  {
    if arms != [] && arms[0].index != index {
      DispatchConsecutive(arms[1..], offset + 1, index);
    }
  }

  lemma {:induction false} LookupByNameFindsFirst(lookup: seq<LookupEntry>, k: nat)
    requires k < |lookup|
    requires forall j :: 0 <= j < k ==> lookup[j].componentName != lookup[k].componentName
    ensures LookupByName(lookup, lookup[k].componentName) == Some(lookup[k].index)
  {
    if k > 0 {
      LookupByNameFindsFirst(lookup[1..], k - 1);
    }
  }

  // ---------------------------------------------------------------------------
  // The emitted world
  // ---------------------------------------------------------------------------

  /** The accessor shape emitted for a component, chosen by its number of fields. */
  datatype Accessor =
    | FlagAccessor(apiName: string)
    | SingleFieldAccessor(apiName: string, field: ComponentField)
    | MultiFieldAccessor(apiName: string, fields: seq<ComponentField>)

  function AccessorFor(c: StructInfo): Accessor {
    var apiName := GetComponentApiName(c.componentName);
    if |c.fields| == 0 then FlagAccessor(apiName)
    else if |c.fields| == 1 then SingleFieldAccessor(apiName, c.fields[0])
    else MultiFieldAccessor(apiName, c.fields)
  }

  /** The parameters of Add, Replace and Change, in order (none for a flag). */
  function Parameters(a: Accessor): seq<ComponentField> {
    match a
    case FlagAccessor(_) => []
    case SingleFieldAccessor(_, f) => [f]
    case MultiFieldAccessor(_, fs) => fs
  }

  /** Every field becomes a parameter in declaration order, and the accessor shape is
      the one that field count selects; a flag's property is named after the API name. */
  lemma AccessorParameters(c: StructInfo)
    ensures Parameters(AccessorFor(c)) == c.fields
    ensures AccessorFor(c).FlagAccessor? <==> c.fields == []
    ensures AccessorFor(c).SingleFieldAccessor? <==> |c.fields| == 1
    ensures AccessorFor(c).apiName == GetComponentApiName(c.componentName)
    ensures AccessorFor(c).apiName <= c.componentName
  {
    if |c.fields| == 1 {
      assert c.fields == [c.fields[0]];
    }
  }

  /** What the generator emits for one world, as data. */
  datatype WorldCode = WorldCode(
    name: string,
    components: seq<StructInfo>,
    maxComponentsCount: int,
    lookup: seq<LookupEntry>,
    matcherIndices: seq<LookupEntry>,
    filterCases: seq<CaseArm>,
    includeCases: seq<CaseArm>,
    excludeCases: seq<CaseArm>,
    accessors: seq<Accessor>)

  /** The code emitted for one world: its components are the ones tagged with it, the
      lookup and matcher classes give component i the value i, and the switches and
      MaxComponentsCount cover exactly those components. */
  function WorldCodeFor(world: string, comps: seq<StructInfo>): (code: WorldCode)
    ensures code.name == world && code.components == WorldComponents(world, comps)
    ensures WellFormedCode(code)
    ensures code.matcherIndices == code.lookup == LookupTable(code.components)
    ensures |code.accessors| == |code.components|
    ensures forall k :: 0 <= k < |code.accessors| ==> code.accessors[k] == AccessorFor(code.components[k])
  {
    var worldComponents := WorldComponents(world, comps);
    WorldCode(
      world,
      worldComponents,
      |worldComponents|,
      LookupTable(worldComponents),
      LookupTable(worldComponents),
      CaseTable(worldComponents),
      CaseTable(worldComponents),
      CaseTable(worldComponents),
      seq(|worldComponents|, i requires 0 <= i < |worldComponents| => AccessorFor(worldComponents[i])))
  }

  /** The world code the generator emits, one per world name (none when there is none). */
  function GenerateWorlds(worldNames: seq<string>, comps: seq<StructInfo>): (worlds: seq<WorldCode>)
    ensures |worlds| == |worldNames|
    ensures forall w :: 0 <= w < |worlds| ==> worlds[w].name == worldNames[w]
  {
    seq(|worldNames|, w requires 0 <= w < |worldNames| => WorldCodeFor(worldNames[w], comps))
  }

  /** The switch tables of emitted world code cover exactly its components, in order. */
  predicate WellFormedCode(code: WorldCode) {
    && code.maxComponentsCount == |code.components|
    && code.filterCases == CaseTable(code.components)
    && code.includeCases == CaseTable(code.components)
    && code.excludeCases == CaseTable(code.components)
  }

  /** The indices of a world are exactly 0 .. N-1, without gaps or repeats, N is
      MaxComponentsCount, and every table maps index i to component i: the lookup
      entry i carries i, and all three switches dispatch i to component i's type and
      every index outside the range to the throwing default. */
  lemma {:induction false} TablesAgree(world: string, comps: seq<StructInfo>, index: int)
    ensures var code := WorldCodeFor(world, comps);
      var n := |code.components|;
      && code.maxComponentsCount == n == |code.lookup| == |code.accessors|
      && (0 <= index < n ==>
            && code.lookup[index] == LookupEntry(code.components[index].componentName, index)
            && code.matcherIndices[index] == code.lookup[index]
            && Dispatch(code.filterCases, index) == Some(FullName(code.components[index]))
            && Dispatch(code.includeCases, index) == Some(FullName(code.components[index]))
            && Dispatch(code.excludeCases, index) == Some(FullName(code.components[index])))
      && (!(0 <= index < n) ==>
            && Dispatch(code.filterCases, index) == None
            && Dispatch(code.includeCases, index) == None
            && Dispatch(code.excludeCases, index) == None)
  {
    var code := WorldCodeFor(world, comps);
    DispatchConsecutive(code.filterCases, 0, index);
  }

  /** In well-formed world code every switch dispatches an index in range to that
      component's type and every other index to the throwing default. */
  lemma WellFormedDispatch(code: WorldCode, index: int)
    ensures WellFormedCode(code) ==>
      && Dispatch(code.filterCases, index) == Dispatch(code.includeCases, index) == Dispatch(code.excludeCases, index)
      && Dispatch(code.includeCases, index) ==
           if 0 <= index < |code.components| then Some(FullName(code.components[index])) else None
  {
    if WellFormedCode(code) {
      DispatchConsecutive(code.includeCases, 0, index);
    }
  }

  /** The values the lookup class assigns. */
  function LookupValues(lookup: seq<LookupEntry>): set<int> {
    set e | e in lookup :: e.index
  }

  /** The lookup values are exactly 0, ..., N-1, and no two entries share one. */
  lemma LookupIndicesDense(comps: seq<StructInfo>)
    ensures forall i :: i in LookupValues(LookupTable(comps)) <==> 0 <= i < |comps|
    ensures forall a, b :: 0 <= a < b < |comps| ==> LookupTable(comps)[a].index != LookupTable(comps)[b].index
  {
    var table := LookupTable(comps);
    forall i | 0 <= i < |comps| ensures i in LookupValues(table) {
      assert table[i] in table;
    }
  }

  /** When component names are distinct (otherwise the emitted lookup class declares
      one property twice and the per-component hint names clash), the property named after component i, in the lookup class and in
      the matcher alike, has the value i, and the switches dispatch that value back
      to component i. */
  lemma NamedIndexRoundTrip(world: string, comps: seq<StructInfo>, i: nat)
    requires var wc := WorldComponents(world, comps);
      forall a, b :: 0 <= a < b < |wc| ==> wc[a].componentName != wc[b].componentName
    requires i < |WorldComponents(world, comps)|
    ensures var code := WorldCodeFor(world, comps);
      && LookupByName(code.lookup, code.components[i].componentName) == Some(i)
      && LookupByName(code.matcherIndices, code.components[i].componentName) == Some(i)
      && Dispatch(code.filterCases, i) == Some(FullName(code.components[i]))
      && Dispatch(code.includeCases, i) == Some(FullName(code.components[i]))
      && Dispatch(code.excludeCases, i) == Some(FullName(code.components[i]))
  {
    var code := WorldCodeFor(world, comps);
    LookupByNameFindsFirst(code.lookup, i);
    TablesAgree(world, comps, i);
  }

  /** Every world the generator emits satisfies the agreement of its tables, and a
      component belongs to a world's code exactly when it carries that world's tag. */
  lemma GeneratedWorldsConsistent(worldNames: seq<string>, comps: seq<StructInfo>, w: nat, c: StructInfo)
    requires w < |worldNames|
    ensures var code := GenerateWorlds(worldNames, comps)[w];
      && WellFormedCode(code)
      && code.maxComponentsCount == |code.components| == |code.lookup|
      && (c in code.components <==> c in comps && Tagged(worldNames[w], c))
  {
    var world := worldNames[w];
    WorldComponentsIsOrderedFilter(world, comps);
    var wc := WorldComponents(world, comps);
    var positions := TaggedPositions(world, comps);
    if c in wc {
      var k :| 0 <= k < |wc| && wc[k] == c;
      assert comps[positions[k]] == c;
    }
    if c in comps && Tagged(world, c) {
      var j :| 0 <= j < |comps| && comps[j] == c;
      assert j in positions;
      var k :| 0 <= k < |positions| && positions[k] == j;
      assert wc[k] == c;
    }
  }

  /** The same, stated over the declarations the generator extracts from: a component
      belongs to a world's code exactly when some declaration extracts to it and it
      carries that world's tag. */
  lemma ExtractedWorldsConsistent(worldNames: seq<string>, decls: seq<StructDecl>, w: nat, c: StructInfo)
    requires w < |worldNames|
    ensures var code := GenerateWorlds(worldNames, CollectComponents(decls))[w];
      && WellFormedCode(code)
      && (c in code.components <==>
            (exists k :: 0 <= k < |decls| && StructInfoOf(decls[k]) == Some(c)) && Tagged(worldNames[w], c))
  {
    GeneratedWorldsConsistent(worldNames, CollectComponents(decls), w, c);
    CollectComponentsMembership(decls, c);
  }
}
