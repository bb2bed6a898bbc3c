/**
  Schema extraction: what the generator reads out of the compilation before it
  emits anything. The compiler's symbols are replaced by plain data: the
  assembly's attribute applications, and for each candidate struct its
  attribute lists (as written in the syntax) and its resolved type symbol.
*/
module Schema {
  import opened Wrappers

  // ---------------------------------------------------------------------------
  // Strings
  // ---------------------------------------------------------------------------

  /** Ordinal suffix test, as `string.EndsWith` behaves on the ASCII names involved. */
  predicate EndsWith(s: string, suffix: string) {
    |suffix| <= |s| && s[|s| - |suffix|..] == suffix
  }

  // ---------------------------------------------------------------------------
  // World declarations
  // ---------------------------------------------------------------------------

  const WorldDeclarationClass: string := "WorldDeclarationAttribute"

  /** One attribute applied to the assembly: the simple name of its class (None when
      the class did not resolve) and the value of its first constructor argument
      (None when that value is null). */
  datatype AssemblyAttribute = AssemblyAttribute(className: Option<string>, firstArgument: Option<string>)

  /** The attribute is a world declaration whose argument is neither null nor empty. */
  predicate DeclaresWorld(a: AssemblyAttribute) {
    a.className == Some(WorldDeclarationClass) && a.firstArgument.Some? && a.firstArgument.value != ""
  }

  /** The name one assembly attribute contributes: its argument if it declares a world. */
  function WorldNameOf(a: AssemblyAttribute): seq<string> {
    if DeclaresWorld(a) then [a.firstArgument.value] else []
  }

  /** The world names, in the order the assembly attributes are listed.
      Null and empty names are dropped; repeated names are kept. */
  function GetWorldNames(attributes: seq<AssemblyAttribute>): (names: seq<string>)
    ensures |names| <= |attributes|
    ensures forall n :: n in names ==> n != ""
  {
    if attributes == [] then []
    else WorldNameOf(attributes[0]) + GetWorldNames(attributes[1..])
  }

  /** A name is a world name exactly when some world declaration carries it. */
  lemma {:induction false} WorldNamesMembership(attributes: seq<AssemblyAttribute>, n: string)
    ensures n in GetWorldNames(attributes) <==>
      exists k :: 0 <= k < |attributes| && DeclaresWorld(attributes[k]) && attributes[k].firstArgument.value == n
  {
    if attributes != [] {
      WorldNamesMembership(attributes[1..], n);
      if n in GetWorldNames(attributes[1..]) {
        var k :| 0 <= k < |attributes[1..]| && DeclaresWorld(attributes[1..][k]) && attributes[1..][k].firstArgument.value == n;
        assert attributes[k + 1] == attributes[1..][k];
      }
      if exists k :: 0 <= k < |attributes| && DeclaresWorld(attributes[k]) && attributes[k].firstArgument.value == n {
        var k :| 0 <= k < |attributes| && DeclaresWorld(attributes[k]) && attributes[k].firstArgument.value == n;
        if k > 0 {
          assert attributes[1..][k - 1] == attributes[k];
        }
      }
    }
  }

  /** The extraction keeps declaration order: it distributes over concatenation. */
  lemma {:induction false} WorldNamesConcat(a: seq<AssemblyAttribute>, b: seq<AssemblyAttribute>)
    ensures GetWorldNames(a + b) == GetWorldNames(a) + GetWorldNames(b)
  {
    if a == [] {
      assert a + b == b;
    } else {
      assert (a + b)[0] == a[0];
      assert (a + b)[1..] == a[1..] + b;
      WorldNamesConcat(a[1..], b);
    }
  }

  /** Declaring the same world twice yields it twice: nothing is deduplicated. */
  lemma WorldNamesKeepDuplicates(n: string)
    requires n != ""
    ensures var decl := AssemblyAttribute(Some(WorldDeclarationClass), Some(n));
      GetWorldNames([decl, decl]) == [n, n]
  {
    var decl := AssemblyAttribute(Some(WorldDeclarationClass), Some(n));
    assert [decl, decl][1..] == [decl];
    assert [decl][1..] == [];
  }

  // ---------------------------------------------------------------------------
  // Component structs
  // ---------------------------------------------------------------------------

  const AttributeSuffix: string := "Attribute"
  const ComponentInterface: string := "IComponent"

  datatype Accessibility = Public | NonPublic

  /** A member of the struct's type symbol; only fields matter to the generator. */
  datatype Member =
    | FieldMember(name: string, typeName: string, access: Accessibility)
    | OtherMember(name: string)

  datatype Namespace = GlobalNamespace | NamedNamespace(displayName: string)

  /** The resolved symbol of a struct: its name, namespace, the simple names of the
      interfaces it lists directly, and its members in declaration order. */
  datatype TypeSymbol = TypeSymbol(name: string, containingNamespace: Namespace,
                                   interfaces: seq<string>, members: seq<Member>)

  /** A struct declaration: its attribute lists as written, and its symbol (None when
      the semantic model does not resolve one). */
  datatype StructDecl = StructDecl(attributeLists: seq<seq<string>>, symbol: Option<TypeSymbol>)

  datatype ComponentField = ComponentField(name: string, typeName: string)

  /** What the generator keeps of an admitted component struct. */
  datatype StructInfo = StructInfo(worldNames: seq<string>, componentName: string,
                                   fullNamespace: string, fields: seq<ComponentField>)

  /** An attribute name with one trailing "Attribute" removed. There is no length
      guard: the name "Attribute" itself becomes the empty name. */
  function NormalizeAttributeName(raw: string): (name: string)
    ensures EndsWith(raw, AttributeSuffix) ==> name + AttributeSuffix == raw
    ensures !EndsWith(raw, AttributeSuffix) ==> name == raw
  {
    if EndsWith(raw, AttributeSuffix) then raw[..|raw| - |AttributeSuffix|] else raw
  }

  /** The attributes that are never taken for world tags. */
  predicate Denied(name: string) {
    name == "Serializable" || name == "Obsolete" || name == "Flags"
  }

  /** The attributes of all lists, one list after the other. */
  function Flatten(lists: seq<seq<string>>): seq<string> {
    if lists == [] then [] else Flatten(lists[..|lists| - 1]) + lists[|lists| - 1]
  }

  /** The world tags an attribute contributes: its normalized name unless denied. */
  function TagOf(raw: string): seq<string> {
    var name := NormalizeAttributeName(raw);
    if Denied(name) then [] else [name]
  }

  /** The world tags of a run of attributes, in order. */
  function WorldTags(attributes: seq<string>): seq<string> {
    if attributes == [] then []
    else WorldTags(attributes[..|attributes| - 1]) + TagOf(attributes[|attributes| - 1])
  }

  /** The public fields among the members, in member order. */
  function PublicFields(members: seq<Member>): seq<ComponentField> {
    if members == [] then []
    else
      var m := members[|members| - 1];
      PublicFields(members[..|members| - 1])
        + (if m.FieldMember? && m.access == Public then [ComponentField(m.name, m.typeName)] else [])
  }

  function NamespaceName(ns: Namespace): string {
    match ns
    case GlobalNamespace => ""
    case NamedNamespace(display) => display
  }

  /** What extraction yields for a declaration. */
  function StructInfoOf(decl: StructDecl): Option<StructInfo> {
    match decl.symbol
    case None => None
    case Some(sym) =>
      if ComponentInterface !in sym.interfaces then None
      else
        var tags := WorldTags(Flatten(decl.attributeLists));
        if tags == [] then None
        else Some(StructInfo(tags, sym.name, NamespaceName(sym.containingNamespace), PublicFields(sym.members)))
  }

  /** Extraction of one struct declaration: the world tags are collected by two
      nested loops over the attribute lists, then the public fields by a loop over
      the symbol's members. */
  method GetStructInfo(decl: StructDecl) returns (info: Option<StructInfo>)
    ensures info == StructInfoOf(decl)
  {
    if decl.symbol.None? {
      return None;
    }
    var sym := decl.symbol.value;
    if ComponentInterface !in sym.interfaces {
      return None;
    }
    var worldAttributeNames := CollectWorldAttributeNames(decl.attributeLists);
    if worldAttributeNames == [] {
      return None;
    }
    var fields := CollectPublicFields(sym.members);
    info := Some(StructInfo(worldAttributeNames, sym.name, NamespaceName(sym.containingNamespace), fields));
  }

  /** The nested attribute loops of the extraction: the outer loop over the lists. */
  method CollectWorldAttributeNames(lists: seq<seq<string>>) returns (names: seq<string>)
    ensures names == WorldTags(Flatten(lists))
  {
    names := [];
    var i := 0;
    while i < |lists|
      invariant 0 <= i <= |lists|
      invariant names == WorldTags(Flatten(lists[..i]))
    {
      names := CollectListTags(names, lists[i]);
      FlattenSnoc(lists, i);
      WorldTagsConcat(Flatten(lists[..i]), lists[i]);
      i := i + 1;
    }
    assert lists[..i] == lists;
  }

  /** The inner loop over one attribute list: strip the suffix, apply the deny-list,
      append what survives. */
  method CollectListTags(names: seq<string>, attributes: seq<string>) returns (extended: seq<string>)
    ensures extended == names + WorldTags(attributes)
  {
    extended := names;
    var j := 0;
    while j < |attributes|
      invariant 0 <= j <= |attributes|
      invariant extended == names + WorldTags(attributes[..j])
    {
      var attrName := StripAttributeSuffix(attributes[j]);
      ghost var previous := extended;
      if !Denied(attrName) {
        extended := extended + [attrName];
      }
      assert extended == previous + TagOf(attributes[j]);
      WorldTagsPrefixStep(attributes, j);
      j := j + 1;
    }
    assert attributes[..j] == attributes;
  }

  lemma WorldTagsPrefixStep(attributes: seq<string>, j: nat)
    requires j < |attributes|
    ensures WorldTags(attributes[..j + 1]) == WorldTags(attributes[..j]) + TagOf(attributes[j])
  {
    assert attributes[..j + 1] == attributes[..j] + [attributes[j]];
    WorldTagsSnoc(attributes[..j], attributes[j]);
  }

  /** The suffix strip of one attribute name. */
  method StripAttributeSuffix(raw: string) returns (name: string)
    ensures name == NormalizeAttributeName(raw)
  {
    name := raw;
    if EndsWith(name, AttributeSuffix) {
      name := name[..|name| - |AttributeSuffix|];
    }
  }

  lemma {:induction false} WorldTagsConcat(a: seq<string>, b: seq<string>)
    ensures WorldTags(a + b) == WorldTags(a) + WorldTags(b)
    decreases |b|
  {
    if b == [] {
      assert a + b == a;
    } else {
      var init := b[..|b| - 1];
      assert (a + b)[..|a + b| - 1] == a + init;
      assert (a + b)[|a + b| - 1] == b[|b| - 1];
      WorldTagsConcat(a, init);
    }
  }

  lemma FlattenSnoc(lists: seq<seq<string>>, i: nat)
    requires i < |lists|
    ensures Flatten(lists[..i + 1]) == Flatten(lists[..i]) + lists[i]
  {
    assert lists[..i + 1][..i] == lists[..i];
  }

  lemma WorldTagsSnoc(s: seq<string>, raw: string)
    ensures WorldTags(s + [raw]) == WorldTags(s) + TagOf(raw)
  {
    assert (s + [raw])[..|s|] == s;
  }

  /** The member loop of the extraction. */
  method CollectPublicFields(members: seq<Member>) returns (fields: seq<ComponentField>)
    ensures fields == PublicFields(members)
  {
    fields := [];
    var k := 0;
    while k < |members|
      invariant 0 <= k <= |members|
      invariant fields == PublicFields(members[..k])
    {
      var m := members[k];
      if m.FieldMember? && m.access == Public {
        fields := fields + [ComponentField(m.name, m.typeName)];
      }
      assert members[..k + 1][..k] == members[..k];
      k := k + 1;
    }
    assert members[..k] == members;
  }

  /** An attribute of the lists is one of the flattened attributes, and back. */
  lemma {:induction false} FlattenMembership(lists: seq<seq<string>>, raw: string)
    ensures raw in Flatten(lists) <==> exists i :: 0 <= i < |lists| && raw in lists[i]
  {
    if lists != [] {
      var init := lists[..|lists| - 1];
      FlattenMembership(init, raw);
      if exists i :: 0 <= i < |init| && raw in init[i] {
        var i :| 0 <= i < |init| && raw in init[i];
        assert lists[i] == init[i];
      }
      if exists i :: 0 <= i < |lists| && raw in lists[i] {
        var i :| 0 <= i < |lists| && raw in lists[i];
        if i < |init| {
          assert init[i] == lists[i];
        }
      }
    }
  }

  /** A tag is collected exactly when some attribute normalizes to it and it is not denied. */
  lemma {:induction false} WorldTagsMembership(attributes: seq<string>, tag: string)
    ensures tag in WorldTags(attributes) <==>
      !Denied(tag) && exists raw :: raw in attributes && NormalizeAttributeName(raw) == tag
  {
    if attributes != [] {
      var init := attributes[..|attributes| - 1];
      var last := attributes[|attributes| - 1];
      WorldTagsMembership(init, tag);
      assert attributes == init + [last];
      if exists raw :: raw in attributes && NormalizeAttributeName(raw) == tag {
        var raw :| raw in attributes && NormalizeAttributeName(raw) == tag;
        if raw != last {
          assert raw in init;
        }
      }
    }
  }

  /** Public fields are collected in member order: collection distributes over concatenation. */
  lemma {:induction false} PublicFieldsConcat(a: seq<Member>, b: seq<Member>)
    ensures PublicFields(a + b) == PublicFields(a) + PublicFields(b)
  {
    if b != [] {
      var init := b[..|b| - 1];
      assert (a + b)[..|a + b| - 1] == a + init;
      assert (a + b)[|a + b| - 1] == b[|b| - 1];
      PublicFieldsConcat(a, init);
    } else {
      assert a + b == a;
    }
  }

  /** A field is captured exactly when some member is a public field of that name and type. */
  lemma {:induction false} PublicFieldsMembership(members: seq<Member>, f: ComponentField)
    ensures f in PublicFields(members) <==> FieldMember(f.name, f.typeName, Public) in members
  {
    if members != [] {
      var init := members[..|members| - 1];
      PublicFieldsMembership(init, f);
      assert members == init + [members[|members| - 1]];
    }
  }

  /** A struct is admitted exactly when it resolves, lists IComponent among its
      interfaces and carries at least one attribute that survives the filter; an
      admitted struct keeps its symbol's name, namespace and public fields. */
  lemma StructInfoAdmission(decl: StructDecl)
    ensures StructInfoOf(decl).Some? <==>
      && decl.symbol.Some?
      && ComponentInterface in decl.symbol.value.interfaces
      && exists i, raw :: 0 <= i < |decl.attributeLists| && raw in decl.attributeLists[i]
                          && !Denied(NormalizeAttributeName(raw))
    ensures StructInfoOf(decl).Some? ==>
      var info := StructInfoOf(decl).value;
      && info.componentName == decl.symbol.value.name
      && info.fullNamespace == NamespaceName(decl.symbol.value.containingNamespace)
      && info.fields == PublicFields(decl.symbol.value.members)
      && (forall tag :: tag in info.worldNames <==>
            !Denied(tag) && exists i, raw :: 0 <= i < |decl.attributeLists| && raw in decl.attributeLists[i]
                                             && NormalizeAttributeName(raw) == tag)
  {
    var flat := Flatten(decl.attributeLists);
    forall tag
      ensures tag in WorldTags(flat) <==>
        !Denied(tag) && exists i, raw :: 0 <= i < |decl.attributeLists| && raw in decl.attributeLists[i]
                                         && NormalizeAttributeName(raw) == tag
    {
      WorldTagsMembership(flat, tag);
      if exists raw :: raw in flat && NormalizeAttributeName(raw) == tag {
        var raw :| raw in flat && NormalizeAttributeName(raw) == tag;
        FlattenMembership(decl.attributeLists, raw);
      }
      if exists i, raw :: 0 <= i < |decl.attributeLists| && raw in decl.attributeLists[i]
                          && NormalizeAttributeName(raw) == tag {
        var i, raw :| 0 <= i < |decl.attributeLists| && raw in decl.attributeLists[i]
                      && NormalizeAttributeName(raw) == tag;
        FlattenMembership(decl.attributeLists, raw);
      }
    }
    if exists i, raw :: 0 <= i < |decl.attributeLists| && raw in decl.attributeLists[i]
                        && !Denied(NormalizeAttributeName(raw)) {
      var i, raw :| 0 <= i < |decl.attributeLists| && raw in decl.attributeLists[i]
                    && !Denied(NormalizeAttributeName(raw));
      assert NormalizeAttributeName(raw) in WorldTags(flat);
    }
    if WorldTags(flat) != [] {
      var tag := WorldTags(flat)[0];
      assert tag in WorldTags(flat);
    }
  }

  /** The deny-list is applied after stripping: "SerializableAttribute" is denied,
      while "Attribute" alone becomes the empty tag. */
  lemma DenyListSeesStrippedName()
    ensures TagOf("SerializableAttribute") == []
    ensures TagOf("Attribute") == [""]
    ensures TagOf("GameAttribute") == ["Game"]
  {
    assert "SerializableAttribute"[..|"SerializableAttribute"| - |AttributeSuffix|] == "Serializable";
    assert "Attribute"[..0] == "";
    assert "GameAttribute"[..|"GameAttribute"| - |AttributeSuffix|] == "Game";
  }

  // ---------------------------------------------------------------------------
  // API names
  // ---------------------------------------------------------------------------

  const ComponentSuffix: string := "Component"

  /** The name used in the generated accessors: one trailing "Component" is removed,
      but only from names strictly longer than "Component". */
  function GetComponentApiName(componentName: string): (apiName: string)
    ensures apiName <= componentName
    ensures apiName != componentName <==> EndsWith(componentName, ComponentSuffix) && |componentName| > |ComponentSuffix|
    ensures apiName != componentName ==> apiName != "" && apiName + ComponentSuffix == componentName
  {
    if EndsWith(componentName, ComponentSuffix) && |componentName| > |ComponentSuffix| then
      componentName[..|componentName| - |ComponentSuffix|]
    else
      componentName
  }
}
