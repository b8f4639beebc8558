/**
 * The rewriter itself: a `GodotDllModifier` holds the resolved handles and the
 * module's type definitions, and its methods edit those definitions in place,
 * proved against the functions of module Passes.
 */
module DllModifier {
  import opened Wrappers
  import opened Cil
  import opened Metadata
  import opened IL
  import opened Scanner
  import opened LinkCode
  import opened Passes

  /** The prefix of `s` one longer ends with the next element. */
  lemma TakeOneMore(s: seq<nat>, j: nat)
    requires j < |s|
    ensures s[..j + 1] == s[..j] + [s[j]]
  {
  }

  class GodotDllModifier {
    /** The debug-checks switch and the types the module resolved at load time. */
    const cfg: Config
    /** `_targetModule.Types`. */
    const types: seq<TypeDefinition>

    ghost predicate Valid()
      reads this, types
    {
      Distinct(types) && ValidModule(cfg, DefsOf(types))
    }

    /** The modifier for a loaded module. */
    constructor(cfg: Config, types: seq<TypeDefinition>)
      requires Distinct(types) && ValidModule(cfg, DefsOf(types))
      ensures Valid() && this.cfg == cfg && this.types == types
    {
      this.cfg := cfg;
      this.types := types;
    }

    /** The `_Ready` method of `typeDef`, appended as `ReadyStub` when missing. */
    method GetOrCreateReadyMethod(typeDef: TypeDefinition) returns (k: nat)
      modifies typeDef
      ensures typeDef.def == WithReadyMethod(old(typeDef.def)).0
      ensures k == WithReadyMethod(old(typeDef.def)).1
    {
      var methodDef := FindMethodBySimpleName(typeDef.def, "_Ready");
      if methodDef.None? {
        k := |typeDef.def.methods|;
        typeDef.def := typeDef.def.(methods := typeDef.def.methods + [ReadyStub]);
      } else {
        k := methodDef.value;
      }
    }

    /** Inserts `instructions` in front of the body of method `k` of `typeDef`,
        one at a time from the last, each before the current first instruction;
        the body must have a first instruction when anything is inserted. */
    method InsertInstructionsIntoExistingMethod(typeDef: TypeDefinition, k: nat, instructions: Fragment)
      requires k < |typeDef.def.methods|
      requires |instructions| > 0 ==> |typeDef.def.methods[k].body| > 0
      modifies typeDef
      ensures typeDef.def == PrependToMethod(old(typeDef.def), k, instructions)
    {
      var body := typeDef.def.methods[k].body;
      var n := |instructions|;
      while n > 0
        invariant 0 <= n <= |instructions|
        invariant n > 0 ==> |body| > 0
        invariant body == instructions[n..] + old(typeDef.def).methods[k].body
      {
        n := n - 1;
        var first := body[0];
        body := [instructions[n], first] + body[1..];
      }
      typeDef.def := WithBody(typeDef.def, k, body);
    }

    /** Appends the exported `NodePath` field to `typeDef`. */
    method InjectEditorLinkField(typeDef: TypeDefinition, exportedName: string, exportHint: string)
      returns (exportedField: FieldDef)
      requires cfg.exportAttr.Some?
      modifies typeDef
      ensures exportedField == EditorLinkField(cfg, exportedName, exportHint)
      ensures typeDef.def == old(typeDef.def).(fields := old(typeDef.def).fields + [exportedField])
    {
      exportedField := EditorLinkField(cfg, exportedName, exportHint);
      typeDef.def := typeDef.def.(fields := typeDef.def.fields + [exportedField]);
    }

    /** `readyMethod ??= GetOrCreateReadyMethod(typeDef)`: the cached `_Ready`
        of `typeDef`, found or created on first use. */
    method CachedReadyMethod(typeDef: TypeDefinition, readyMethod: Option<nat>) returns (k: nat)
      requires readyMethod.Some? ==> FindMethodBySimpleName(typeDef.def, "_Ready") == readyMethod
      modifies typeDef
      ensures typeDef.def == WithReadyMethod(old(typeDef.def)).0
      ensures k == WithReadyMethod(old(typeDef.def)).1
    {
      ReadyMethodSpec(typeDef.def);
      if readyMethod.None? {
        k := GetOrCreateReadyMethod(typeDef);
      } else {
        k := readyMethod.value;
      }
    }

    /** Generates the set-link code of member `m` for `nodePath`, numbered
        from the first label free in `_Ready`, and inserts it in front of
        `_Ready`, which is found or created through the loop's cache. */
    method LinkSetMember(typeDef: TypeDefinition, m: MemberRef, nodePath: string, readyMethod: Option<nat>)
      returns (k: nat)
      requires ValidMember(typeDef.def, m) && ReadyBodyNonEmpty(typeDef.def)
      requires readyMethod.Some? ==> FindMethodBySimpleName(typeDef.def, "_Ready") == readyMethod
      modifies typeDef
      ensures var (t1, k1) := WithReadyMethod(old(typeDef.def));
        && k == k1 && ValidMember(t1, m)
        && typeDef.def == PrependToMethod(t1, k,
             SetLinkFromPath(cfg.debugChecksEnabled, t1, m, nodePath, NextFreeLabel(t1.methods[k].body)))
      ensures FindMethodBySimpleName(typeDef.def, "_Ready") == Some(k)
    {
      ReadyBodyOfValidClass(typeDef.def);
      k := CachedReadyMethod(typeDef, readyMethod);
      ghost var t1 := typeDef.def;
      var instructions := GenerateSetLinkFromPathInstructions(cfg.debugChecksEnabled, typeDef.def, m, nodePath,
        NextFreeLabel(typeDef.def.methods[k].body));
      PrependToReady(t1, instructions);
      InsertInstructionsIntoExistingMethod(typeDef, k, instructions);
    }

    /** The loop body of `ProcessGetLinks` / `ProcessAutoloadLinks` for member
        `m`; `readyMethod` is the loop's cached `_Ready`. */
    method ProcessSetLink(typeDef: TypeDefinition, kind: SetLinkKind, m: MemberRef, readyMethod: Option<nat>)
      returns (readyMethod': Option<nat>)
      requires ValidConfig(cfg) && ValidClass(cfg, typeDef.def) && ValidMember(typeDef.def, m)
      requires readyMethod.Some? ==> FindMethodBySimpleName(typeDef.def, "_Ready") == readyMethod
      modifies typeDef
      ensures typeDef.def == SetLinkStep(cfg, kind, old(typeDef.def), m)
      ensures readyMethod'.Some? ==> FindMethodBySimpleName(typeDef.def, "_Ready") == readyMethod'
    {
      readyMethod' := readyMethod;
      var marker := SetLinkMarkerOf(cfg, kind, typeDef.def, m);
      if marker.None? {
        return;
      }
      SetLinkStepVia(cfg, kind, typeDef.def, m, WithReadyMethod(typeDef.def).0, WithReadyMethod(typeDef.def).1);
      SetLinkMarkerLinked(cfg, kind, typeDef.def, m);
      LinkedReady(cfg, typeDef.def, m);
      var k := LinkSetMember(typeDef, m, SetLinkPath(kind, typeDef.def, m, marker.value), readyMethod);
      readyMethod' := Some(k);
    }

    /** `ProcessGetLinks` (kind `GetKind`) and `ProcessAutoloadLinks` (kind
        `AutoloadKind`): one step per field and property of `typeDef`, over the
        member list taken when the pass starts. */
    method ProcessSetLinks(typeDef: TypeDefinition, kind: SetLinkKind)
      requires ValidConfig(cfg) && ValidClass(cfg, typeDef.def)
      modifies typeDef
      ensures typeDef.def == Over(cfg, PassOf(kind), old(typeDef.def), Members(old(typeDef.def)))
    {
      ghost var t0 := typeDef.def;
      var members := Members(typeDef.def);
      var readyMethod: Option<nat> := None;
      var n := 0;
      while n < |members|
        invariant 0 <= n <= |members|
        invariant typeDef.def == Over(cfg, PassOf(kind), t0, members[..n])
        invariant readyMethod.Some? ==> FindMethodBySimpleName(typeDef.def, "_Ready") == readyMethod
      {
        OverSnoc(cfg, PassOf(kind), t0, members, n);
        StepOfKind(cfg, kind, typeDef.def, members[n]);
        readyMethod := ProcessSetLink(typeDef, kind, members[n], readyMethod);
        n := n + 1;
      }
      assert members[..n] == members;
    }

    method ProcessGetLinks(typeDef: TypeDefinition)
      requires ValidConfig(cfg) && ValidClass(cfg, typeDef.def)
      modifies typeDef
      ensures typeDef.def == Over(cfg, GetPass, old(typeDef.def), Members(old(typeDef.def)))
    {
      ProcessSetLinks(typeDef, GetKind);
    }

    method ProcessAutoloadLinks(typeDef: TypeDefinition)
      requires ValidConfig(cfg) && ValidClass(cfg, typeDef.def)
      modifies typeDef
      ensures typeDef.def == Over(cfg, AutoloadPass, old(typeDef.def), Members(old(typeDef.def)))
    {
      ProcessSetLinks(typeDef, AutoloadKind);
    }

    /** The loop body of `ProcessEditorLinks` for member `m`: the member is
        skipped unless it is node-typed, has `[Export]` and an unused name can
        be found. */
    method ProcessEditorLink(typeDef: TypeDefinition, m: MemberRef, readyMethod: Option<nat>)
      returns (readyMethod': Option<nat>)
      requires ValidConfig(cfg) && ValidClass(cfg, typeDef.def) && ValidMember(typeDef.def, m)
      requires readyMethod.Some? ==> FindMethodBySimpleName(typeDef.def, "_Ready") == readyMethod
      modifies typeDef
      ensures typeDef.def == EditorStep(cfg, old(typeDef.def), m)
      ensures readyMethod'.Some? ==> FindMethodBySimpleName(typeDef.def, "_Ready") == readyMethod'
    {
      readyMethod' := readyMethod;
      EditorStepSpec(cfg, typeDef.def, m);
      var exportAttrAt := ExportAttrOf(cfg, typeDef.def, m);
      if exportAttrAt.None? {
        return;
      }
      var selected := SelectNonUsedNameForEditorLinkField(typeDef.def, ExportedName(cfg, typeDef.def, m));
      if selected.None? {
        return;
      }
      readyMethod' := LinkEditorMember(typeDef, m, exportAttrAt.value, selected.value, readyMethod);
    }

    /** The editor link of member `m`, whose `[Export]` is attribute `e`, with
        the exported field named `exportedName`. */
    method LinkEditorMember(typeDef: TypeDefinition, m: MemberRef, e: nat, exportedName: string, readyMethod: Option<nat>)
      returns (readyMethod': Option<nat>)
      requires ValidConfig(cfg) && ValidClass(cfg, typeDef.def) && ValidMember(typeDef.def, m)
      requires ExportAttrOf(cfg, typeDef.def, m) == Some(e)
      requires readyMethod.Some? ==> FindMethodBySimpleName(typeDef.def, "_Ready") == readyMethod
      modifies typeDef
      ensures typeDef.def == ApplyEditorLink(cfg, old(typeDef.def), m, e, exportedName)
      ensures readyMethod'.Some? ==> FindMethodBySimpleName(typeDef.def, "_Ready") == readyMethod'
    {
      ghost var u := typeDef.def;
      var k, exportedField;
      k, exportedField := AddExportedField(typeDef, m, e, exportedName, readyMethod);
      readyMethod' := Some(k);
      ghost var t2 := WithReadyMethod(WithMemberAttributes(u, m, RemoveAt(MemberAttributes(u, m), e))).0;
      ApplyEditorLinkUnfold(cfg, u, m, e, exportedName, t2, k);
      ghost var t3 := typeDef.def;
      FindMethodSameNames(t2, t3, "_Ready");
      var instructions := GenerateEditorLinkInstructions(cfg.debugChecksEnabled, typeDef.def, m, exportedField,
        exportedName, NextFreeLabel(typeDef.def.methods[k].body));
      PrependToReady(t3, instructions);
      InsertInstructionsIntoExistingMethod(typeDef, k, instructions);
    }

    /** The metadata part of an editor link: `[Export]` is removed from the
        member, `_Ready` is found or created, and the exported field is
        appended; `k` is the position of `_Ready`. */
    method AddExportedField(typeDef: TypeDefinition, m: MemberRef, e: nat, exportedName: string, readyMethod: Option<nat>)
      returns (k: nat, exportedField: FieldDef)
      requires ValidConfig(cfg) && ValidClass(cfg, typeDef.def) && ValidMember(typeDef.def, m)
      requires e < |MemberAttributes(typeDef.def, m)| && Some(MemberAttributes(typeDef.def, m)[e].attrType) == cfg.exportAttr
      requires readyMethod.Some? ==> FindMethodBySimpleName(typeDef.def, "_Ready") == readyMethod
      modifies typeDef
      ensures AttrWellFormed(cfg, MemberAttributes(old(typeDef.def), m)[e])
      ensures var t1 := WithMemberAttributes(old(typeDef.def), m, RemoveAt(MemberAttributes(old(typeDef.def), m), e));
        var t2 := WithReadyMethod(t1).0;
        && k == WithReadyMethod(t1).1
        && exportedField == EditorLinkField(cfg, exportedName, ExportHint(old(typeDef.def), m, MemberAttributes(old(typeDef.def), m)[e]))
        && typeDef.def == t2.(fields := t2.fields + [exportedField])
    {
      ghost var u := typeDef.def;
      var exportAttr := MemberAttributes(typeDef.def, m)[e];
      MemberMarkers(cfg, typeDef.def, m);
      assert AttrWellFormed(cfg, exportAttr);
      typeDef.def := WithMemberAttributes(typeDef.def, m, RemoveAt(MemberAttributes(typeDef.def, m), e));
      FindMethodSameNames(u, typeDef.def, "_Ready");
      var exportHint := ExportHint(typeDef.def, m, exportAttr);
      assert exportHint == ExportHint(u, m, exportAttr);
      k := CachedReadyMethod(typeDef, readyMethod);
      exportedField := InjectEditorLinkField(typeDef, exportedName, exportHint);
    }

    /** `ProcessEditorLinks`: one step per field and property of `typeDef`, over
        the member list taken when the pass starts (the fields it adds are not
        visited). */
    method ProcessEditorLinks(typeDef: TypeDefinition)
      requires ValidConfig(cfg) && ValidClass(cfg, typeDef.def)
      modifies typeDef
      ensures typeDef.def == Over(cfg, EditorPass, old(typeDef.def), Members(old(typeDef.def)))
    {
      ghost var t0 := typeDef.def;
      var members := Members(typeDef.def);
      var readyMethod: Option<nat> := None;
      var n := 0;
      while n < |members|
        invariant 0 <= n <= |members|
        invariant typeDef.def == Over(cfg, EditorPass, t0, members[..n])
        invariant readyMethod.Some? ==> FindMethodBySimpleName(typeDef.def, "_Ready") == readyMethod
      {
        OverSnoc(cfg, EditorPass, t0, members, n);
        StepOfEditor(cfg, typeDef.def, members[n]);
        readyMethod := ProcessEditorLink(typeDef, members[n], readyMethod);
        n := n + 1;
      }
      assert members[..n] == members;
    }

    /** One pass of `ModifyDll` over node class `typeDef`, run only when its
        marker type is referenced by the module. */
    method RunPassOn(typeDef: TypeDefinition, pass: Pass)
      requires ValidConfig(cfg) && ValidClass(cfg, typeDef.def)
      modifies typeDef
      ensures typeDef.def == RunPass(cfg, pass, old(typeDef.def))
    {
      if !PassEnabled(cfg, pass) {
        return;
      }
      match pass
      case GetPass => ProcessGetLinks(typeDef);
      case EditorPass => ProcessEditorLinks(typeDef);
      case AutoloadPass => ProcessAutoloadLinks(typeDef);
    }

    /** The loop body of `ModifyDll` for node class `typeDef`: the `[Get]` links,
        then the editor links, then the autoload links. */
    method ProcessNodeClass(typeDef: TypeDefinition)
      requires ValidConfig(cfg) && ValidClass(cfg, typeDef.def)
      modifies typeDef
      ensures typeDef.def == ClassPass(cfg, old(typeDef.def))
    {
      RunPassOn(typeDef, GetPass);
      RunPassOn(typeDef, EditorPass);
      RunPassOn(typeDef, AutoloadPass);
    }

    /** `ModifyDll` without the loading and writing of the assembly: the three
        passes over every node class, in module order. */
    method ModifyDll()
      requires Valid()
      modifies types
      ensures Valid()
      ensures DefsOf(types) == ModifiedTypes(cfg, old(DefsOf(types)))
    {
      ghost var target := ModifiedTypes(cfg, DefsOf(types));
      ghost var before := DefsOf(types);
      var nodeClasses := GetNodeClasses(DefsOf(types), cfg.nodeType, cfg.parent);
      var j := 0;
      while j < |nodeClasses|
        invariant 0 <= j <= |nodeClasses|
        invariant forall i :: 0 <= i < |types| ==> types[i].def == if i in nodeClasses[..j] then target[i] else before[i]
      {
        var i := nodeClasses[j];
        assert i !in nodeClasses[..j];
        assert ValidClass(cfg, types[i].def);
        ProcessNodeClass(types[i]);
        TakeOneMore(nodeClasses, j);
        j := j + 1;
      }
      assert nodeClasses[..j] == nodeClasses;
      forall i | 0 <= i < |types|
        ensures types[i].def == target[i]
      {
        if i !in nodeClasses {
          assert !IsNodeType(before[i].id, cfg.nodeType, cfg.parent);
        }
      }
    }
  }
}
