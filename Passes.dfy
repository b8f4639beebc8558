/**
 * The rewriting rules of GodotDllModifier as functions on one class: the
 * configuration (the resolved Godot and GodotCSUtils handles), what the input
 * metadata guarantees, one step per member and marker kind, a pass over the
 * members, the three passes of a node class and the whole module.
 */
module Passes {
  import opened Wrappers
  import opened Cil
  import opened Metadata
  import opened IL
  import opened Scanner
  import opened LinkCode

  /**
   * The resolved handles: `parent` maps each type to its base type, and a
   * marker attribute type the module does not reference is `None`.
   */
  datatype Config = Config(
    debugChecksEnabled: bool,
    parent: map<TypeId, TypeId>,
    nodeType: TypeId,
    nodePathType: TypeId,
    getAttr: Option<TypeId>,
    autoloadAttr: Option<TypeId>,
    exportAttr: Option<TypeId>,
    exportRenameAttr: Option<TypeId>)

  /** Godot's `[Export]` is a different type from the three GodotCSUtils markers. */
  predicate ValidConfig(cfg: Config) {
    cfg.exportAttr.Some? ==>
      cfg.exportAttr != cfg.getAttr && cfg.exportAttr != cfg.autoloadAttr && cfg.exportAttr != cfg.exportRenameAttr
  }

  /** `[Get]`, `[Autoload]` and `[ExportRename]` take one string argument;
      `[Export]` takes a hint and a hint string. The C# compiler emits every
      such attribute with those arguments, which the processors read by index
      and cast to string. */
  predicate AttrWellFormed(cfg: Config, a: CustomAttribute) {
    && ((Some(a.attrType) == cfg.getAttr || Some(a.attrType) == cfg.autoloadAttr
         || Some(a.attrType) == cfg.exportRenameAttr) ==> |a.args| >= 1 && a.args[0].StrArg?)
    && (Some(a.attrType) == cfg.exportAttr ==> |a.args| >= 2 && a.args[1].StrArg?)
  }

  /** Every attribute in `attrs` is well formed. */
  predicate AttrsWellFormed(cfg: Config, attrs: seq<CustomAttribute>) {
    forall j :: 0 <= j < |attrs| ==> AttrWellFormed(cfg, attrs[j])
  }

  predicate MarkersWellFormed(cfg: Config, t: TypeDef) {
    && (forall k :: 0 <= k < |t.fields| ==> AttrsWellFormed(cfg, t.fields[k].attributes))
    && (forall k :: 0 <= k < |t.properties| ==> AttrsWellFormed(cfg, t.properties[k].attributes))
  }

  lemma MemberMarkers(cfg: Config, t: TypeDef, m: MemberRef)
    requires MarkersWellFormed(cfg, t) && ValidMember(t, m)
    ensures AttrsWellFormed(cfg, MemberAttributes(t, m))
  {
  }

  /** An existing `_Ready` has at least one instruction, which
      `InsertInstructionsIntoExistingMethod` inserts before. An empty body
      also stands for a `_Ready` without a body (an abstract method), whose
      `Body.GetILProcessor()` the processors could not call. */
  predicate ReadyBodyNonEmpty(t: TypeDef) {
    match FindMethodBySimpleName(t, "_Ready")
    case None => true
    case Some(k) => |t.methods[k].body| > 0
  }

  /** Member `m` carries a marker one of the three passes acts on: `[Get]`,
      `[Autoload]`, or `[Export]` on a node-typed member. */
  predicate Linked(cfg: Config, t: TypeDef, m: MemberRef)
    requires ValidMember(t, m)
  {
    || GetFieldAttribute(t, m, cfg.getAttr).Some?
    || GetFieldAttribute(t, m, cfg.autoloadAttr).Some?
    || ExportAttrOf(cfg, t, m).Some?
  }

  /** Some field or property of `t` is `Linked`; only then does a pass touch
      `_Ready`. */
  predicate HasLinks(cfg: Config, t: TypeDef) {
    || (exists k :: 0 <= k < |t.fields| && Linked(cfg, t, FieldAt(k)))
    || (exists k :: 0 <= k < |t.properties| && Linked(cfg, t, PropertyAt(k)))
  }

  /** What the processors demand of a node class: well-formed markers, and a
      `_Ready` with a first instruction whenever one will be edited. */
  predicate ValidClass(cfg: Config, t: TypeDef) {
    MarkersWellFormed(cfg, t) && (HasLinks(cfg, t) ==> ReadyBodyNonEmpty(t))
  }

  /** A class with a linked member has an editable `_Ready` (or none yet). */
  lemma LinkedReady(cfg: Config, t: TypeDef, m: MemberRef)
    requires ValidClass(cfg, t) && ValidMember(t, m) && Linked(cfg, t, m)
    ensures ReadyBodyNonEmpty(t)
  {
    match m
    case FieldAt(k) => assert 0 <= k < |t.fields| && Linked(cfg, t, FieldAt(k));
    case PropertyAt(k) => assert 0 <= k < |t.properties| && Linked(cfg, t, PropertyAt(k));
  }

  /** `r` is `t` after edits that keep every existing member where it was, with
      its name and type: fields and methods may only be appended. */
  predicate Grows(t: TypeDef, r: TypeDef) {
    && r.id == t.id && r.name == t.name
    && |r.fields| >= |t.fields| && |r.properties| == |t.properties| && |r.methods| >= |t.methods|
    && (forall k :: 0 <= k < |t.fields| ==>
          r.fields[k].name == t.fields[k].name && r.fields[k].fieldType == t.fields[k].fieldType)
    && (forall k :: 0 <= k < |t.properties| ==>
          r.properties[k].name == t.properties[k].name && r.properties[k].propertyType == t.properties[k].propertyType
          && r.properties[k].getMethod == t.properties[k].getMethod
          && r.properties[k].setMethod == t.properties[k].setMethod)
    && (forall k :: 0 <= k < |t.methods| ==> r.methods[k].name == t.methods[k].name)
  }

  lemma GrowsTransitive(t: TypeDef, u: TypeDef, v: TypeDef)
    requires Grows(t, u) && Grows(u, v)
    ensures Grows(t, v)
  {
  }

  lemma GrowsKeepsMembers(t: TypeDef, r: TypeDef, m: MemberRef)
    requires Grows(t, r) && ValidMember(t, m)
    ensures ValidMember(r, m) && MemberName(r, m) == MemberName(t, m) && MemberType(r, m) == MemberType(t, m)
    ensures MemberGet(r, m) == MemberGet(t, m) && MemberSet(r, m) == MemberSet(t, m)
  {
  }

  /** Classes whose methods have the same names in the same order resolve a
      method name to the same position. */
  lemma FindMethodSameNames(t: TypeDef, u: TypeDef, name: string)
    requires |t.methods| == |u.methods|
    requires forall k :: 0 <= k < |t.methods| ==> t.methods[k].name == u.methods[k].name
    ensures FindMethodBySimpleName(t, name) == FindMethodBySimpleName(u, name)
  {
  }

  // ---------------------------------------------------------------------
  // GetOrCreateReadyMethod and InsertInstructionsIntoExistingMethod
  // ---------------------------------------------------------------------

  /** The `_Ready` method `GetOrCreateReadyMethod` adds: public, virtual, and
      consisting of a single `ret`. The `HideBySig` flag and the `void` return
      type the source also gives it are not represented in `MethodDef`. */
  const ReadyStub := MethodDef("_Ready", true, true, [Plain(Ret, NoOperand)])

  /** The class after `GetOrCreateReadyMethod`, and the position of its `_Ready`. */
  function WithReadyMethod(t: TypeDef): (r: (TypeDef, nat))
    ensures r.1 < |r.0.methods| && r.0.methods[r.1].name == "_Ready"
    ensures Grows(t, r.0) && r.0.fields == t.fields && r.0.properties == t.properties
  {
    match FindMethodBySimpleName(t, "_Ready")
    case Some(k) => (t, k)
    case None => (t.(methods := t.methods + [ReadyStub]), |t.methods|)
  }

  /** The code `_Ready` runs: the existing body, or the body of the method
      `GetOrCreateReadyMethod` would add. */
  function ReadyCode(t: TypeDef): Fragment {
    match FindMethodBySimpleName(t, "_Ready")
    case Some(k) => t.methods[k].body
    case None => ReadyStub.body
  }

  /** `GetOrCreateReadyMethod` returns an existing `_Ready` and leaves the class
      unchanged; otherwise it appends exactly one method, `ReadyStub`. Either
      way a second call finds the same method and changes nothing, and the code
      `_Ready` runs is the same. */
  lemma ReadyMethodSpec(t: TypeDef)
    ensures var (r, k) := WithReadyMethod(t);
      && (FindMethodBySimpleName(t, "_Ready").Some? ==> r == t && Some(k) == FindMethodBySimpleName(t, "_Ready"))
      && (FindMethodBySimpleName(t, "_Ready").None? ==>
            r.methods == t.methods + [ReadyStub] && k == |t.methods|
            && r == t.(methods := r.methods))
      && FindMethodBySimpleName(r, "_Ready") == Some(k)
      && WithReadyMethod(r) == (r, k)
      && r.methods[k].body == ReadyCode(t) && ReadyCode(r) == ReadyCode(t)
  {
    var (r, k) := WithReadyMethod(t);
    if FindMethodBySimpleName(t, "_Ready").None? {
      var f := FindMethodBySimpleName(r, "_Ready");
      assert r.methods[|t.methods|].name == "_Ready";
      assert f.Some? && f.value == k;
    }
  }

  lemma ReadyBodyOfValidClass(t: TypeDef)
    requires ReadyBodyNonEmpty(t)
    ensures var (r, k) := WithReadyMethod(t); |r.methods[k].body| > 0
  {
    ReadyMethodSpec(t);
  }

  /** `t` with `instructions` put in front of the body of method `k`: the
      effect of `InsertInstructionsIntoExistingMethod`. */
  function PrependToMethod(t: TypeDef, k: nat, instructions: Fragment): (r: TypeDef)
    requires k < |t.methods|
    ensures Grows(t, r) && r.fields == t.fields && r.properties == t.properties
  {
    WithBody(t, k, instructions + t.methods[k].body)
  }

  /** Prepending to `_Ready` keeps the position of `_Ready` and puts the new
      code in front of the code it runs. */
  lemma PrependToReady(t: TypeDef, instructions: Fragment)
    requires FindMethodBySimpleName(t, "_Ready").Some?
    ensures var k := FindMethodBySimpleName(t, "_Ready").value;
      var r := PrependToMethod(t, k, instructions);
      && FindMethodBySimpleName(r, "_Ready") == Some(k)
      && ReadyCode(r) == instructions + ReadyCode(t)
      && (forall j :: 0 <= j < |t.methods| && j != k ==> r.methods[j] == t.methods[j])
      && |r.methods| == |t.methods|
  {
    var k := FindMethodBySimpleName(t, "_Ready").value;
    FindMethodSameNames(t, PrependToMethod(t, k, instructions), "_Ready");
  }

  /** `GetOrCreateReadyMethod` followed by inserting `code` in front of
      `_Ready`. */
  function InsertIntoReady(t: TypeDef, code: Fragment): TypeDef {
    var (t1, k) := WithReadyMethod(t);
    PrependToMethod(t1, k, code)
  }

  /** `_Ready` exists afterwards, runs `code` and then what it ran before, and
      keeps its position when it existed; nothing else changes. */
  lemma InsertIntoReadySpec(t: TypeDef, code: Fragment)
    ensures var r := InsertIntoReady(t, code);
      && Grows(t, r) && r.fields == t.fields && r.properties == t.properties
      && FindMethodBySimpleName(r, "_Ready").Some?
      && (FindMethodBySimpleName(t, "_Ready").Some? ==> FindMethodBySimpleName(r, "_Ready") == FindMethodBySimpleName(t, "_Ready"))
      && ReadyCode(r) == code + ReadyCode(t)
      && (forall j :: 0 <= j < |t.methods| && j != FindMethodBySimpleName(r, "_Ready").value ==> r.methods[j] == t.methods[j])
      && (ReadyBodyNonEmpty(t) ==> ReadyBodyNonEmpty(r))
  {
    var (t1, k) := WithReadyMethod(t);
    ReadyMethodSpec(t);
    PrependToReady(t1, code);
  }

  // ---------------------------------------------------------------------
  // ProcessGetLinks and ProcessAutoloadLinks: one member
  // ---------------------------------------------------------------------

  datatype SetLinkKind = GetKind | AutoloadKind

  /** The marker attribute type a set-link kind looks for. */
  function SetLinkMarker(cfg: Config, kind: SetLinkKind): Option<TypeId> {
    match kind
    case GetKind => cfg.getAttr
    case AutoloadKind => cfg.autoloadAttr
  }

  /** The node path a marker gives: `[Get]` uses its argument or, when that is
      null, the member's name; `[Autoload]` uses `/root/` followed by the same
      name. */
  function SetLinkPath(kind: SetLinkKind, t: TypeDef, m: MemberRef, marker: CustomAttribute): string
    requires ValidMember(t, m) && |marker.args| >= 1 && marker.args[0].StrArg?
  {
    var name := StringArg(marker, 0).GetOr(MemberName(t, m));
    match kind
    case GetKind => name
    case AutoloadKind => "/root/" + name
  }

  lemma SetLinkPathSpec(kind: SetLinkKind, t: TypeDef, m: MemberRef, marker: CustomAttribute)
    requires ValidMember(t, m) && |marker.args| >= 1 && marker.args[0].StrArg?
    ensures var arg := marker.args[0].value;
      var name := if arg.Some? then arg.value else MemberName(t, m);
      && (kind == GetKind ==> SetLinkPath(kind, t, m, marker) == name)
      && (kind == AutoloadKind ==> SetLinkPath(kind, t, m, marker) == "/root/" + name)
  {
  }

  /** The marker of kind `kind` that member `m` carries, if any. */
  function SetLinkMarkerOf(cfg: Config, kind: SetLinkKind, t: TypeDef, m: MemberRef): (r: Option<CustomAttribute>)
    requires ValidClass(cfg, t) && ValidMember(t, m)
    ensures r.Some? ==> |r.value.args| >= 1 && r.value.args[0].StrArg?
  {
    match GetFieldAttribute(t, m, SetLinkMarker(cfg, kind))
    case None => None
    case Some(j) => Some(MemberAttributes(t, m)[j])
  }

  /** A member with a set-link marker is `Linked`. */
  lemma SetLinkMarkerLinked(cfg: Config, kind: SetLinkKind, t: TypeDef, m: MemberRef)
    requires ValidClass(cfg, t) && ValidMember(t, m) && SetLinkMarkerOf(cfg, kind, t, m).Some?
    ensures Linked(cfg, t, m)
  {
    assert GetFieldAttribute(t, m, SetLinkMarker(cfg, kind)).Some?;
  }

  /** One iteration of `ProcessGetLinks` / `ProcessAutoloadLinks`: a member
      with the marker gets the set-link code in front of `_Ready`, which is
      created when missing. */
  function SetLinkStep(cfg: Config, kind: SetLinkKind, t: TypeDef, m: MemberRef): TypeDef
    requires ValidClass(cfg, t) && ValidMember(t, m)
  {
    match SetLinkMarkerOf(cfg, kind, t, m)
    case None => t
    case Some(marker) =>
      InsertIntoReady(t, SetLinkFromPath(cfg.debugChecksEnabled, t, m,
        SetLinkPath(kind, t, m, marker), NextFreeLabel(ReadyCode(t))))
  }

  /** A set-link step with the marker present, once `_Ready` is at position
      `k` of `t1`: the code, generated for `t1` and numbered from the first
      label free in that body, goes in front of it. */
  lemma SetLinkStepVia(cfg: Config, kind: SetLinkKind, t: TypeDef, m: MemberRef, t1: TypeDef, k: nat)
    requires ValidClass(cfg, t) && ValidMember(t, m) && SetLinkMarkerOf(cfg, kind, t, m).Some?
    requires WithReadyMethod(t) == (t1, k)
    ensures ValidMember(t1, m) && k < |t1.methods| && |t1.methods[k].body| > 0
    ensures FindMethodBySimpleName(t1, "_Ready") == Some(k)
    ensures SetLinkStep(cfg, kind, t, m)
      == PrependToMethod(t1, k, SetLinkFromPath(cfg.debugChecksEnabled, t1, m,
           SetLinkPath(kind, t, m, SetLinkMarkerOf(cfg, kind, t, m).value), NextFreeLabel(t1.methods[k].body)))
  {
    ReadyMethodSpec(t);
    SetLinkMarkerLinked(cfg, kind, t, m);
    LinkedReady(cfg, t, m);
    ReadyBodyOfValidClass(t);
    var path := SetLinkPath(kind, t, m, SetLinkMarkerOf(cfg, kind, t, m).value);
    SetLinkFromPathSameMembers(cfg.debugChecksEnabled, t, t1, m, path, NextFreeLabel(ReadyCode(t)));
  }

  /** Without the marker nothing changes; with it, `_Ready` exists afterwards
      and runs the set-link code for the marker's path, numbered above every
      label of its old code, and then its old code. No other method changes. */
  lemma SetLinkStepSpec(cfg: Config, kind: SetLinkKind, t: TypeDef, m: MemberRef)
    requires ValidClass(cfg, t) && ValidMember(t, m)
    ensures var r := SetLinkStep(cfg, kind, t, m);
      && (SetLinkMarkerOf(cfg, kind, t, m).None? ==> r == t)
      && (SetLinkMarkerOf(cfg, kind, t, m).Some? ==>
            var path := SetLinkPath(kind, t, m, SetLinkMarkerOf(cfg, kind, t, m).value);
            && FindMethodBySimpleName(r, "_Ready").Some?
            && ReadyCode(r) == SetLinkFromPath(cfg.debugChecksEnabled, t, m, path, NextFreeLabel(ReadyCode(t)))
                               + ReadyCode(t)
            && r.fields == t.fields && r.properties == t.properties
            && (forall j :: 0 <= j < |t.methods| && j != FindMethodBySimpleName(r, "_Ready").value ==>
                  r.methods[j] == t.methods[j]))
  {
    if SetLinkMarkerOf(cfg, kind, t, m).Some? {
      var path := SetLinkPath(kind, t, m, SetLinkMarkerOf(cfg, kind, t, m).value);
      InsertIntoReadySpec(t, SetLinkFromPath(cfg.debugChecksEnabled, t, m, path, NextFreeLabel(ReadyCode(t))));
    }
  }

  lemma SetLinkStepValid(cfg: Config, kind: SetLinkKind, t: TypeDef, m: MemberRef)
    requires ValidClass(cfg, t) && ValidMember(t, m)
    ensures Grows(t, SetLinkStep(cfg, kind, t, m)) && ValidClass(cfg, SetLinkStep(cfg, kind, t, m))
  {
    if SetLinkMarkerOf(cfg, kind, t, m).Some? {
      SetLinkMarkerLinked(cfg, kind, t, m);
      LinkedReady(cfg, t, m);
      var path := SetLinkPath(kind, t, m, SetLinkMarkerOf(cfg, kind, t, m).value);
      InsertIntoReadySpec(t, SetLinkFromPath(cfg.debugChecksEnabled, t, m, path, NextFreeLabel(ReadyCode(t))));
    }
  }

  // ---------------------------------------------------------------------
  // ProcessEditorLinks: one member
  // ---------------------------------------------------------------------

  /** The name the editor-link field is derived from: the `[ExportRename]`
      argument, or the member's name when there is none or it is null. */
  function ExportedName(cfg: Config, t: TypeDef, m: MemberRef): (r: string)
    requires ValidClass(cfg, t) && ValidMember(t, m)
    ensures GetFieldAttribute(t, m, cfg.exportRenameAttr).None? ==> r == MemberName(t, m)
    ensures GetFieldAttribute(t, m, cfg.exportRenameAttr).Some? ==>
      |MemberAttributes(t, m)[GetFieldAttribute(t, m, cfg.exportRenameAttr).value].args| >= 1 &&
      r == match MemberAttributes(t, m)[GetFieldAttribute(t, m, cfg.exportRenameAttr).value].args[0]
           case StrArg(Some(name)) => name
           case _ => MemberName(t, m)
  {
    match GetFieldAttribute(t, m, cfg.exportRenameAttr)
    case None => MemberName(t, m)
    case Some(j) => StringArg(MemberAttributes(t, m)[j], 0).GetOr(MemberName(t, m))
  }

  /** The editor hint: the `[Export]` hint string, or a description of the
      member when that is null. */
  function ExportHint(t: TypeDef, m: MemberRef, exportAttr: CustomAttribute): (r: string)
    requires ValidMember(t, m) && |exportAttr.args| >= 2 && exportAttr.args[1].StrArg?
    ensures exportAttr.args[1].value.Some? ==> r == exportAttr.args[1].value.value
    ensures exportAttr.args[1].value.None? && m.FieldAt? ==> r == "Link to field '" + MemberName(t, m) + "'"
    ensures exportAttr.args[1].value.None? && m.PropertyAt? ==> r == "Link to property '" + MemberName(t, m) + "'"
  {
    match StringArg(exportAttr, 1)
    case Some(hint) => hint
    case None => "Link to " + (if m.FieldAt? then "field" else "property") + " '" + MemberName(t, m) + "'"
  }

  /** The field `InjectEditorLinkField` adds: a public `NodePath` field with
      `[Export(PropertyHint.None, hint)]`. */
  function EditorLinkField(cfg: Config, exportedName: string, exportHint: string): (r: FieldDef)
    requires cfg.exportAttr.Some?
    ensures r.name == exportedName && r.fieldType == cfg.nodePathType && r.isPublic
    ensures r.attributes == [CustomAttribute(cfg.exportAttr.value, [EnumArg(0), StrArg(Some(exportHint))])]
  {
    FieldDef(exportedName, cfg.nodePathType, true,
      [CustomAttribute(cfg.exportAttr.value, [EnumArg(0), StrArg(Some(exportHint))])])
  }

  /** The `[Export]` attribute of a node-typed member, if any. */
  function ExportAttrOf(cfg: Config, t: TypeDef, m: MemberRef): (r: Option<nat>)
    requires ValidMember(t, m)
    ensures r.Some? ==> r.value < |MemberAttributes(t, m)| && Some(MemberAttributes(t, m)[r.value].attrType) == cfg.exportAttr
    ensures !IsNodeType(MemberType(t, m), cfg.nodeType, cfg.parent) ==> r.None?
    ensures IsNodeType(MemberType(t, m), cfg.nodeType, cfg.parent) ==> r == GetFieldAttribute(t, m, cfg.exportAttr)
  {
    if !IsNodeType(MemberType(t, m), cfg.nodeType, cfg.parent) then None
    else GetFieldAttribute(t, m, cfg.exportAttr)
  }

  /** `GetOrCreateReadyMethod`, then `InjectEditorLinkField` with `field`, then
      `code` inserted in front of `_Ready`. */
  function WithFieldAndReadyCode(u: TypeDef, field: FieldDef, code: Fragment): TypeDef {
    var (u2, k) := WithReadyMethod(u);
    PrependToMethod(u2.(fields := u2.fields + [field]), k, code)
  }

  lemma WithFieldAndReadyCodeSpec(u: TypeDef, field: FieldDef, code: Fragment)
    ensures var r := WithFieldAndReadyCode(u, field, code);
      && Grows(u, r) && r.fields == u.fields + [field] && r.properties == u.properties
      && FindMethodBySimpleName(r, "_Ready").Some?
      && ReadyCode(r) == code + ReadyCode(u)
      && (forall j :: 0 <= j < |u.methods| && j != FindMethodBySimpleName(r, "_Ready").value ==>
            r.methods[j] == u.methods[j])
  {
    var (u2, k) := WithReadyMethod(u);
    ReadyMethodSpec(u);
    var u3 := u2.(fields := u2.fields + [field]);
    FindMethodSameNames(u2, u3, "_Ready");
    PrependToReady(u3, code);
  }

  /** The class after the editor link of member `m` is made, with the
      `[Export]` attribute at position `e` and the field name `exportedName`. */
  function ApplyEditorLink(cfg: Config, t: TypeDef, m: MemberRef, e: nat, exportedName: string): TypeDef
    requires ValidClass(cfg, t) && ValidMember(t, m)
    requires e < |MemberAttributes(t, m)| && Some(MemberAttributes(t, m)[e].attrType) == cfg.exportAttr
  {
    var exportAttr := MemberAttributes(t, m)[e];
    MemberMarkers(cfg, t, m);
    assert AttrWellFormed(cfg, exportAttr);
    var t1 := WithMemberAttributes(t, m, RemoveAt(MemberAttributes(t, m), e));
    var field := EditorLinkField(cfg, exportedName, ExportHint(t, m, exportAttr));
    WithFieldAndReadyCode(t1, field, EditorLink(cfg.debugChecksEnabled, t1, m, field, NextFreeLabel(ReadyCode(t1))))
  }

  /** An editor link once the `[Export]` attribute is gone and `_Ready` is
      at position `k` of `t2`: the field is appended and the code, generated
      for the class with that field, goes in front of `_Ready`. */
  lemma ApplyEditorLinkUnfold(cfg: Config, t: TypeDef, m: MemberRef, e: nat, exportedName: string, t2: TypeDef, k: nat)
    requires ValidClass(cfg, t) && ValidMember(t, m)
    requires e < |MemberAttributes(t, m)| && Some(MemberAttributes(t, m)[e].attrType) == cfg.exportAttr
    requires ExportAttrOf(cfg, t, m) == Some(e)
    requires WithReadyMethod(WithMemberAttributes(t, m, RemoveAt(MemberAttributes(t, m), e))) == (t2, k)
    ensures AttrWellFormed(cfg, MemberAttributes(t, m)[e]) && ValidMember(t2, m) && k < |t2.methods|
    ensures |t2.methods[k].body| > 0 && FindMethodBySimpleName(t2, "_Ready") == Some(k)
    ensures var field := EditorLinkField(cfg, exportedName, ExportHint(t, m, MemberAttributes(t, m)[e]));
      var t3 := t2.(fields := t2.fields + [field]);
      ApplyEditorLink(cfg, t, m, e, exportedName)
        == PrependToMethod(t3, k, EditorLink(cfg.debugChecksEnabled, t3, m, field, NextFreeLabel(t3.methods[k].body)))
  {
    var exportAttr := MemberAttributes(t, m)[e];
    MemberMarkers(cfg, t, m);
    assert AttrWellFormed(cfg, exportAttr);
    var t1 := WithMemberAttributes(t, m, RemoveAt(MemberAttributes(t, m), e));
    LinkedReady(cfg, t, m);
    FindMethodSameNames(t, t1, "_Ready");
    ReadyMethodSpec(t1);
    ReadyBodyOfValidClass(t1);
    var field := EditorLinkField(cfg, exportedName, ExportHint(t, m, exportAttr));
    var t3 := t2.(fields := t2.fields + [field]);
    EditorLinkSameMember(cfg.debugChecksEnabled, t1, t3, m, field, NextFreeLabel(ReadyCode(t1)));
  }

  /** One iteration of `ProcessEditorLinks`. A node-typed member with
      `[Export]` for which an unused name exists loses that attribute; `_Ready`
      is created when missing; the exported `NodePath` field is appended; and
      the editor-link code goes in front of `_Ready`. */
  function EditorStep(cfg: Config, t: TypeDef, m: MemberRef): TypeDef
    requires ValidClass(cfg, t) && ValidMember(t, m)
  {
    match ExportAttrOf(cfg, t, m)
    case None => t
    case Some(e) =>
      match FirstUnusedName(t, ExportedName(cfg, t, m), MaxNameAttempts)
      case None => t
      case Some(exportedName) => ApplyEditorLink(cfg, t, m, e, exportedName)
  }

  /** The code an editor link generates depends on the class only through
      its name and the member's name, type, getter and setter. */
  lemma EditorLinkSameMember(debugChecksEnabled: bool, t: TypeDef, u: TypeDef, m: MemberRef,
                             field: FieldDef, first: nat)
    requires Grows(t, u) && ValidMember(t, m)
    ensures ValidMember(u, m)
    ensures EditorLink(debugChecksEnabled, u, m, field, first) == EditorLink(debugChecksEnabled, t, m, field, first)
  {
    GrowsKeepsMembers(t, u, m);
    assert EditorLinkMessagePrefix(u, m) == EditorLinkMessagePrefix(t, m);
    assert NodePathChecks(u, m, field, first) == NodePathChecks(t, m, field, first);
    assert EditorPostChecks(u, m, field, first + 3) == EditorPostChecks(t, m, field, first + 3);
  }

  /** Removing attribute `e` of `m`, then adding `field` and editing
      `_Ready`: `m` loses that attribute, the other members keep theirs, and
      `field` is appended. */
  lemma RemoveAttributeAddField(t: TypeDef, m: MemberRef, e: nat, field: FieldDef, code: Fragment)
    requires ValidMember(t, m) && e < |MemberAttributes(t, m)|
    ensures var r := WithFieldAndReadyCode(WithMemberAttributes(t, m, RemoveAt(MemberAttributes(t, m), e)), field, code);
      && Grows(t, r)
      && |r.fields| == |t.fields| + 1 && r.fields[|t.fields|] == field
      && ValidMember(r, m) && MemberAttributes(r, m) == RemoveAt(MemberAttributes(t, m), e)
      && (forall m' :: ValidMember(t, m') && m' != m ==> MemberAttributes(r, m') == MemberAttributes(t, m'))
  {
    var t1 := WithMemberAttributes(t, m, RemoveAt(MemberAttributes(t, m), e));
    var r := WithFieldAndReadyCode(t1, field, code);
    WithFieldAndReadyCodeSpec(t1, field, code);
    assert Grows(t, t1);
    GrowsTransitive(t, t1, r);
    forall m' | ValidMember(t, m') && m' != m
      ensures MemberAttributes(r, m') == MemberAttributes(t, m')
    {
      WithMemberAttributesOthers(t, m, RemoveAt(MemberAttributes(t, m), e), m');
    }
  }

  /** The metadata edits of an editor link: the `[Export]` attribute goes, the
      other members keep their attributes, and one field is appended. */
  lemma ApplyEditorLinkMembers(cfg: Config, t: TypeDef, m: MemberRef, e: nat, exportedName: string)
    requires ValidClass(cfg, t) && ValidMember(t, m)
    requires e < |MemberAttributes(t, m)| && Some(MemberAttributes(t, m)[e].attrType) == cfg.exportAttr
    ensures var r := ApplyEditorLink(cfg, t, m, e, exportedName);
      var exportAttr := MemberAttributes(t, m)[e];
      && AttrWellFormed(cfg, exportAttr)
      && Grows(t, r)
      && |r.fields| == |t.fields| + 1
      && r.fields[|t.fields|] == EditorLinkField(cfg, exportedName, ExportHint(t, m, exportAttr))
      && ValidMember(r, m) && MemberAttributes(r, m) == RemoveAt(MemberAttributes(t, m), e)
      && (forall m' :: ValidMember(t, m') && m' != m ==> MemberAttributes(r, m') == MemberAttributes(t, m'))
  {
    var exportAttr := MemberAttributes(t, m)[e];
    MemberMarkers(cfg, t, m);
    assert AttrWellFormed(cfg, exportAttr);
    var t1 := WithMemberAttributes(t, m, RemoveAt(MemberAttributes(t, m), e));
    var field := EditorLinkField(cfg, exportedName, ExportHint(t, m, exportAttr));
    RemoveAttributeAddField(t, m, e, field, EditorLink(cfg.debugChecksEnabled, t1, m, field, NextFreeLabel(ReadyCode(t1))));
  }

  /** The code edit of an editor link: `_Ready` runs the new code and then
      its old code; no other method changes. */
  lemma ApplyEditorLinkReady(cfg: Config, t: TypeDef, m: MemberRef, e: nat, exportedName: string)
    requires ValidClass(cfg, t) && ValidMember(t, m)
    requires e < |MemberAttributes(t, m)| && Some(MemberAttributes(t, m)[e].attrType) == cfg.exportAttr
    ensures var r := ApplyEditorLink(cfg, t, m, e, exportedName);
      var exportAttr := MemberAttributes(t, m)[e];
      AttrWellFormed(cfg, exportAttr) &&
      var field := EditorLinkField(cfg, exportedName, ExportHint(t, m, exportAttr));
      && FindMethodBySimpleName(r, "_Ready").Some?
      && ReadyCode(r) == EditorLink(cfg.debugChecksEnabled, t, m, field, NextFreeLabel(ReadyCode(t))) + ReadyCode(t)
      && (forall j :: 0 <= j < |t.methods| && j != FindMethodBySimpleName(r, "_Ready").value ==>
            r.methods[j] == t.methods[j])
  {
    var exportAttr := MemberAttributes(t, m)[e];
    MemberMarkers(cfg, t, m);
    assert AttrWellFormed(cfg, exportAttr);
    var t1 := WithMemberAttributes(t, m, RemoveAt(MemberAttributes(t, m), e));
    assert t1.methods == t.methods;
    FindMethodSameNames(t, t1, "_Ready");
    assert ReadyCode(t1) == ReadyCode(t);
    var field := EditorLinkField(cfg, exportedName, ExportHint(t, m, exportAttr));
    EditorLinkSameMember(cfg.debugChecksEnabled, t, t1, m, field, NextFreeLabel(ReadyCode(t)));
    WithFieldAndReadyCodeSpec(t1, field, EditorLink(cfg.debugChecksEnabled, t1, m, field, NextFreeLabel(ReadyCode(t1))));
  }

  /** The outcome of one editor-link step. The member is skipped, and nothing
      changes, when its type is not node-derived, when it has no `[Export]`, or
      when all candidate names are taken. Otherwise the link is made with the
      first unused candidate name, which no method, field or property of the
      class had. */
  lemma EditorStepSpec(cfg: Config, t: TypeDef, m: MemberRef)
    requires ValidClass(cfg, t) && ValidMember(t, m)
    ensures var r := EditorStep(cfg, t, m);
      && (ExportAttrOf(cfg, t, m).None? ==> r == t)
      && (ExportAttrOf(cfg, t, m).Some? && FirstUnusedName(t, ExportedName(cfg, t, m), MaxNameAttempts).None? ==> r == t)
      && (ExportAttrOf(cfg, t, m).Some? && FirstUnusedName(t, ExportedName(cfg, t, m), MaxNameAttempts).Some? ==>
            var exportedName := FirstUnusedName(t, ExportedName(cfg, t, m), MaxNameAttempts).value;
            && !NameUsed(t, exportedName)
            && r == ApplyEditorLink(cfg, t, m, ExportAttrOf(cfg, t, m).value, exportedName))
  {
    if ExportAttrOf(cfg, t, m).Some? && FirstUnusedName(t, ExportedName(cfg, t, m), MaxNameAttempts).Some? {
      FirstUnusedNameIsLeast(t, ExportedName(cfg, t, m), MaxNameAttempts);
    }
  }

  /** Removing attribute `e` of `m`, then adding a field with well-formed
      markers and editing `_Ready`, keeps every marker well formed. */
  lemma RemoveAttributeAddFieldMarkers(cfg: Config, t: TypeDef, m: MemberRef, e: nat, field: FieldDef, code: Fragment)
    requires MarkersWellFormed(cfg, t) && ValidMember(t, m) && e < |MemberAttributes(t, m)|
    requires AttrsWellFormed(cfg, field.attributes)
    ensures MarkersWellFormed(cfg, WithFieldAndReadyCode(WithMemberAttributes(t, m, RemoveAt(MemberAttributes(t, m), e)), field, code))
  {
    MemberMarkers(cfg, t, m);
    var t1 := WithMemberAttributes(t, m, RemoveAt(MemberAttributes(t, m), e));
    assert MarkersWellFormed(cfg, t1);
    WithFieldAndReadyCodeSpec(t1, field, code);
  }

  /** An editor link keeps every marker attribute well formed. */
  lemma ApplyEditorLinkMarkers(cfg: Config, t: TypeDef, m: MemberRef, e: nat, exportedName: string)
    requires ValidConfig(cfg) && ValidClass(cfg, t) && ValidMember(t, m)
    requires e < |MemberAttributes(t, m)| && Some(MemberAttributes(t, m)[e].attrType) == cfg.exportAttr
    ensures MarkersWellFormed(cfg, ApplyEditorLink(cfg, t, m, e, exportedName))
  {
    var exportAttr := MemberAttributes(t, m)[e];
    MemberMarkers(cfg, t, m);
    assert AttrWellFormed(cfg, exportAttr);
    var t1 := WithMemberAttributes(t, m, RemoveAt(MemberAttributes(t, m), e));
    var field := EditorLinkField(cfg, exportedName, ExportHint(t, m, exportAttr));
    assert AttrWellFormed(cfg, field.attributes[0]);
    RemoveAttributeAddFieldMarkers(cfg, t, m, e, field, EditorLink(cfg.debugChecksEnabled, t1, m, field, NextFreeLabel(ReadyCode(t1))));
  }

  /** An editor-link step keeps existing members in place and keeps the class
      valid. */
  lemma EditorStepValid(cfg: Config, t: TypeDef, m: MemberRef)
    requires ValidConfig(cfg) && ValidClass(cfg, t) && ValidMember(t, m)
    ensures Grows(t, EditorStep(cfg, t, m)) && ValidClass(cfg, EditorStep(cfg, t, m))
  {
    EditorStepSpec(cfg, t, m);
    if ExportAttrOf(cfg, t, m).Some? && FirstUnusedName(t, ExportedName(cfg, t, m), MaxNameAttempts).Some? {
      var e := ExportAttrOf(cfg, t, m).value;
      var exportedName := FirstUnusedName(t, ExportedName(cfg, t, m), MaxNameAttempts).value;
      ApplyEditorLinkMembers(cfg, t, m, e, exportedName);
      ApplyEditorLinkMarkers(cfg, t, m, e, exportedName);
      ApplyEditorLinkReady(cfg, t, m, e, exportedName);
      ApplyEditorLinkBodyNonEmpty(cfg, t, m, e, exportedName);
    }
  }

  lemma ApplyEditorLinkBodyNonEmpty(cfg: Config, t: TypeDef, m: MemberRef, e: nat, exportedName: string)
    requires ValidClass(cfg, t) && ValidMember(t, m)
    requires e < |MemberAttributes(t, m)| && Some(MemberAttributes(t, m)[e].attrType) == cfg.exportAttr
    ensures ReadyBodyNonEmpty(ApplyEditorLink(cfg, t, m, e, exportedName))
  {
    var r := ApplyEditorLink(cfg, t, m, e, exportedName);
    ApplyEditorLinkReady(cfg, t, m, e, exportedName);
    var exportAttr := MemberAttributes(t, m)[e];
    var field := EditorLinkField(cfg, exportedName, ExportHint(t, m, exportAttr));
    EditorLinkAssignmentShape(t, m, field, 0);
    EditorLinkStructure(cfg.debugChecksEnabled, t, m, field, NextFreeLabel(ReadyCode(t)));
    assert |ReadyCode(r)| > 0;
  }

  // ---------------------------------------------------------------------
  // Facts every step keeps
  // ---------------------------------------------------------------------

  /** `s` ends with `suffix`. */
  predicate EndsWith(s: Fragment, suffix: Fragment) {
    |suffix| <= |s| && s[|s| - |suffix|..] == suffix
  }

  lemma EndsWithTransitive(a: Fragment, b: Fragment, c: Fragment)
    requires EndsWith(a, b) && EndsWith(b, c)
    ensures EndsWith(a, c)
  {
    assert a[|a| - |c|..] == a[|a| - |b|..][|b| - |c|..];
  }

  /** A grown class keeps an existing `_Ready` where it was; a `_Ready` it
      gains is one of the appended methods. */
  lemma FindReadyGrows(t: TypeDef, r: TypeDef)
    requires Grows(t, r)
    ensures FindMethodBySimpleName(t, "_Ready").Some? ==> FindMethodBySimpleName(r, "_Ready") == FindMethodBySimpleName(t, "_Ready")
    ensures FindMethodBySimpleName(t, "_Ready").None? && FindMethodBySimpleName(r, "_Ready").Some? ==>
      FindMethodBySimpleName(r, "_Ready").value >= |t.methods|
  {
    var ft := FindMethodBySimpleName(t, "_Ready");
    var fr := FindMethodBySimpleName(r, "_Ready");
    if ft.Some? {
      assert r.methods[ft.value].name == "_Ready";
    }
  }

  /** Code whose labels are numbered from `NextFreeLabel(body)` can be put in
      front of a closed body and the result is closed. */
  lemma PrependFreshClosed(code: Fragment, body: Fragment, hi: nat)
    requires Closed(code) && LabelsWithin(code, NextFreeLabel(body), hi)
    requires Closed(body)
    ensures Closed(code + body)
  {
    ClosedAppend(code, body);
  }

  /** What one step does to the code `_Ready` runs and to the other methods. */
  ghost predicate ReadyPrepended(t: TypeDef, r: TypeDef) {
    && EndsWith(ReadyCode(r), ReadyCode(t))
    && (Closed(ReadyCode(t)) ==> Closed(ReadyCode(r)))
    && (forall j :: 0 <= j < |t.methods| && Some(j) != FindMethodBySimpleName(t, "_Ready") ==>
          j < |r.methods| && r.methods[j] == t.methods[j])
  }

  lemma ReadyPrependedTransitive(t: TypeDef, u: TypeDef, r: TypeDef)
    requires Grows(t, u) && ReadyPrepended(t, u) && ReadyPrepended(u, r)
    ensures ReadyPrepended(t, r)
  {
    EndsWithTransitive(ReadyCode(r), ReadyCode(u), ReadyCode(t));
    FindReadyGrows(t, u);
  }

  /** Putting closed code with fresh labels in front of `_Ready` is a
      `ReadyPrepended` edit. */
  lemma PrependFreshReady(t: TypeDef, r: TypeDef, code: Fragment, hi: nat)
    requires Grows(t, r) && FindMethodBySimpleName(r, "_Ready").Some?
    requires ReadyCode(r) == code + ReadyCode(t)
    requires forall j :: 0 <= j < |t.methods| && j != FindMethodBySimpleName(r, "_Ready").value ==> r.methods[j] == t.methods[j]
    requires Closed(code) && LabelsWithin(code, NextFreeLabel(ReadyCode(t)), hi)
    ensures ReadyPrepended(t, r)
  {
    assert ReadyCode(r)[|ReadyCode(r)| - |ReadyCode(t)|..] == ReadyCode(t);
    if Closed(ReadyCode(t)) {
      PrependFreshClosed(code, ReadyCode(t), hi);
    }
    FindReadyGrows(t, r);
  }

  lemma SetLinkStepPrepends(cfg: Config, kind: SetLinkKind, t: TypeDef, m: MemberRef)
    requires ValidClass(cfg, t) && ValidMember(t, m)
    ensures ReadyPrepended(t, SetLinkStep(cfg, kind, t, m))
  {
    if SetLinkMarkerOf(cfg, kind, t, m).Some? {
      var path := SetLinkPath(kind, t, m, SetLinkMarkerOf(cfg, kind, t, m).value);
      var first := NextFreeLabel(ReadyCode(t));
      var code := SetLinkFromPath(cfg.debugChecksEnabled, t, m, path, first);
      InsertIntoReadySpec(t, code);
      SetLinkClosed(cfg.debugChecksEnabled, t, m, path, first);
      PrependFreshReady(t, SetLinkStep(cfg, kind, t, m), code, first + SetLinkLabels(cfg.debugChecksEnabled));
    }
  }

  lemma ApplyEditorLinkPrepends(cfg: Config, t: TypeDef, m: MemberRef, e: nat, exportedName: string)
    requires ValidClass(cfg, t) && ValidMember(t, m)
    requires e < |MemberAttributes(t, m)| && Some(MemberAttributes(t, m)[e].attrType) == cfg.exportAttr
    ensures ReadyPrepended(t, ApplyEditorLink(cfg, t, m, e, exportedName))
  {
    var r := ApplyEditorLink(cfg, t, m, e, exportedName);
    ApplyEditorLinkMembers(cfg, t, m, e, exportedName);
    ApplyEditorLinkReady(cfg, t, m, e, exportedName);
    var field := EditorLinkField(cfg, exportedName, ExportHint(t, m, MemberAttributes(t, m)[e]));
    var first := NextFreeLabel(ReadyCode(t));
    var code := EditorLink(cfg.debugChecksEnabled, t, m, field, first);
    EditorLinkClosed(cfg.debugChecksEnabled, t, m, field, first);
    PrependFreshReady(t, r, code, first + EditorLinkLabels(cfg.debugChecksEnabled));
  }

  lemma EditorStepPrepends(cfg: Config, t: TypeDef, m: MemberRef)
    requires ValidClass(cfg, t) && ValidMember(t, m)
    ensures ReadyPrepended(t, EditorStep(cfg, t, m))
  {
    EditorStepSpec(cfg, t, m);
    if ExportAttrOf(cfg, t, m).Some? && FirstUnusedName(t, ExportedName(cfg, t, m), MaxNameAttempts).Some? {
      ApplyEditorLinkPrepends(cfg, t, m, ExportAttrOf(cfg, t, m).value,
        FirstUnusedName(t, ExportedName(cfg, t, m), MaxNameAttempts).value);
    }
  }

  // ---------------------------------------------------------------------
  // One pass over the members of a class
  // ---------------------------------------------------------------------

  /** The three member passes of a node class, in the order `ModifyDll` runs them. */
  datatype Pass = GetPass | EditorPass | AutoloadPass

  /** One member of one pass. */
  function Step(cfg: Config, pass: Pass, t: TypeDef, m: MemberRef): TypeDef
    requires ValidClass(cfg, t) && ValidMember(t, m)
  {
    match pass
    case GetPass => SetLinkStep(cfg, GetKind, t, m)
    case EditorPass => EditorStep(cfg, t, m)
    case AutoloadPass => SetLinkStep(cfg, AutoloadKind, t, m)
  }

  lemma StepValid(cfg: Config, pass: Pass, t: TypeDef, m: MemberRef)
    requires ValidConfig(cfg) && ValidClass(cfg, t) && ValidMember(t, m)
    ensures Grows(t, Step(cfg, pass, t, m)) && ValidClass(cfg, Step(cfg, pass, t, m))
    ensures ReadyPrepended(t, Step(cfg, pass, t, m))
  {
    match pass
    case GetPass => SetLinkStepValid(cfg, GetKind, t, m); SetLinkStepPrepends(cfg, GetKind, t, m);
    case EditorPass => EditorStepValid(cfg, t, m); EditorStepPrepends(cfg, t, m);
    case AutoloadPass => SetLinkStepValid(cfg, AutoloadKind, t, m); SetLinkStepPrepends(cfg, AutoloadKind, t, m);
  }

  /** The class after the steps of `pass` for the members `ms`, first to last:
      the loop body of `ProcessGetLinks`, `ProcessEditorLinks` or
      `ProcessAutoloadLinks` over the member list taken at its start. */
  function Over(cfg: Config, pass: Pass, t: TypeDef, ms: seq<MemberRef>): (r: TypeDef)
    requires ValidConfig(cfg) && ValidClass(cfg, t)
    requires forall j :: 0 <= j < |ms| ==> ValidMember(t, ms[j])
    ensures Grows(t, r) && ValidClass(cfg, r)
    decreases |ms|
  {
    if ms == [] then t
    else
      var u := Over(cfg, pass, t, ms[..|ms| - 1]);
      var m := ms[|ms| - 1];
      GrowsKeepsMembers(t, u, m);
      StepValid(cfg, pass, u, m);
      GrowsTransitive(t, u, Step(cfg, pass, u, m));
      Step(cfg, pass, u, m)
  }

  /** A pass over one more member is one more step. */
  lemma OverSnoc(cfg: Config, pass: Pass, t: TypeDef, ms: seq<MemberRef>, n: nat)
    requires ValidConfig(cfg) && ValidClass(cfg, t) && n < |ms|
    requires forall j :: 0 <= j < |ms| ==> ValidMember(t, ms[j])
    ensures ValidMember(Over(cfg, pass, t, ms[..n]), ms[n])
    ensures Over(cfg, pass, t, ms[..n + 1]) == Step(cfg, pass, Over(cfg, pass, t, ms[..n]), ms[n])
  {
    assert ms[..n + 1][..n] == ms[..n];
    GrowsKeepsMembers(t, Over(cfg, pass, t, ms[..n]), ms[n]);
  }

  lemma StepOfKind(cfg: Config, kind: SetLinkKind, t: TypeDef, m: MemberRef)
    requires ValidClass(cfg, t) && ValidMember(t, m)
    ensures Step(cfg, PassOf(kind), t, m) == SetLinkStep(cfg, kind, t, m)
  {
  }

  lemma StepOfEditor(cfg: Config, t: TypeDef, m: MemberRef)
    requires ValidClass(cfg, t) && ValidMember(t, m)
    ensures Step(cfg, EditorPass, t, m) == EditorStep(cfg, t, m)
  {
  }

  /** A whole pass only puts code in front of `_Ready`: the old code is what
      `_Ready` runs last, it stays closed, and no other method changes. */
  lemma {:induction false} OverPrepends(cfg: Config, pass: Pass, t: TypeDef, ms: seq<MemberRef>)
    requires ValidConfig(cfg) && ValidClass(cfg, t)
    requires forall j :: 0 <= j < |ms| ==> ValidMember(t, ms[j])
    ensures ReadyPrepended(t, Over(cfg, pass, t, ms))
    decreases |ms|
  {
    if ms == [] {
      assert ReadyCode(t)[|ReadyCode(t)| - |ReadyCode(t)|..] == ReadyCode(t);
    } else {
      var u := Over(cfg, pass, t, ms[..|ms| - 1]);
      var m := ms[|ms| - 1];
      OverPrepends(cfg, pass, t, ms[..|ms| - 1]);
      GrowsKeepsMembers(t, u, m);
      StepValid(cfg, pass, u, m);
      ReadyPrependedTransitive(t, u, Step(cfg, pass, u, m));
    }
  }

  // ---------------------------------------------------------------------
  // The set-link passes against a reference definition
  // ---------------------------------------------------------------------

  function PassOf(kind: SetLinkKind): Pass {
    match kind
    case GetKind => GetPass
    case AutoloadKind => AutoloadPass
  }

  /** `body` with the set-link code of member `m` in front when `m` carries
      the marker, numbered above every label of `body`. */
  function SetLinkMemberCode(cfg: Config, kind: SetLinkKind, t: TypeDef, m: MemberRef, body: Fragment): Fragment
    requires ValidClass(cfg, t) && ValidMember(t, m)
  {
    match SetLinkMarkerOf(cfg, kind, t, m)
    case None => body
    case Some(marker) =>
      SetLinkFromPath(cfg.debugChecksEnabled, t, m, SetLinkPath(kind, t, m, marker), NextFreeLabel(body)) + body
  }

  /** The code `_Ready` runs after a set-link pass over `ms`, defined from the
      class the pass starts with: each marked member's set-link code goes in
      front of what the members before it produced, numbered above it. */
  function SetLinkPassCode(cfg: Config, kind: SetLinkKind, t: TypeDef, ms: seq<MemberRef>, body: Fragment): Fragment
    requires ValidClass(cfg, t)
    requires forall j :: 0 <= j < |ms| ==> ValidMember(t, ms[j])
    decreases |ms|
  {
    if ms == [] then body
    else SetLinkMemberCode(cfg, kind, t, ms[|ms| - 1], SetLinkPassCode(cfg, kind, t, ms[..|ms| - 1], body))
  }

  /** The set-link code depends on the class only through its name, fields
      and properties. */
  lemma SetLinkFromPathSameMembers(debugChecksEnabled: bool, t: TypeDef, u: TypeDef, m: MemberRef,
                                   nodePath: string, first: nat)
    requires ValidMember(t, m)
    requires u.name == t.name && u.fields == t.fields && u.properties == t.properties
    ensures ValidMember(u, m)
    ensures SetLinkFromPath(debugChecksEnabled, u, m, nodePath, first) == SetLinkFromPath(debugChecksEnabled, t, m, nodePath, first)
  {
    assert MemberName(u, m) == MemberName(t, m) && MemberGet(u, m) == MemberGet(t, m) && MemberSet(u, m) == MemberSet(t, m);
    assert SetLinkMessagePrefix(u, m, nodePath) == SetLinkMessagePrefix(t, m, nodePath);
    assert SetLinkAssignment(u, m, nodePath) == SetLinkAssignment(t, m, nodePath);
  }

  /** A set-link step on a class with the same name, fields and properties
      as `t` adds the code the reference gives for `t`. */
  lemma SetLinkStepFromOriginal(cfg: Config, kind: SetLinkKind, t: TypeDef, u: TypeDef, m: MemberRef)
    requires ValidClass(cfg, t) && ValidClass(cfg, u) && ValidMember(t, m)
    requires u.name == t.name && u.fields == t.fields && u.properties == t.properties
    ensures ValidMember(u, m)
    ensures var r := SetLinkStep(cfg, kind, u, m);
      && r.name == t.name && r.fields == t.fields && r.properties == t.properties
      && ReadyCode(r) == SetLinkMemberCode(cfg, kind, t, m, ReadyCode(u))
  {
    assert ValidMember(u, m);
    SetLinkStepSpec(cfg, kind, u, m);
    assert MemberAttributes(u, m) == MemberAttributes(t, m);
    assert SetLinkMarkerOf(cfg, kind, u, m) == SetLinkMarkerOf(cfg, kind, t, m);
    if SetLinkMarkerOf(cfg, kind, t, m).Some? {
      var marker := SetLinkMarkerOf(cfg, kind, t, m).value;
      assert SetLinkPath(kind, u, m, marker) == SetLinkPath(kind, t, m, marker);
      SetLinkFromPathSameMembers(cfg.debugChecksEnabled, t, u, m, SetLinkPath(kind, t, m, marker), NextFreeLabel(ReadyCode(u)));
    }
  }

  /** A set-link pass changes no field or property, and `_Ready` runs exactly
      the reference code: the members' set-link code, last member first, in
      front of the old code. */
  lemma {:induction false} SetLinkPassSpec(cfg: Config, kind: SetLinkKind, t: TypeDef, ms: seq<MemberRef>)
    requires ValidConfig(cfg) && ValidClass(cfg, t)
    requires forall j :: 0 <= j < |ms| ==> ValidMember(t, ms[j])
    ensures var r := Over(cfg, PassOf(kind), t, ms);
      && r.name == t.name && r.fields == t.fields && r.properties == t.properties
      && ReadyCode(r) == SetLinkPassCode(cfg, kind, t, ms, ReadyCode(t))
    decreases |ms|
  {
    if ms != [] {
      var u := Over(cfg, PassOf(kind), t, ms[..|ms| - 1]);
      var m := ms[|ms| - 1];
      SetLinkPassSpec(cfg, kind, t, ms[..|ms| - 1]);
      SetLinkStepFromOriginal(cfg, kind, t, u, m);
      assert Over(cfg, PassOf(kind), t, ms) == SetLinkStep(cfg, kind, u, m);
    }
  }

  // ---------------------------------------------------------------------
  // A node class and the module
  // ---------------------------------------------------------------------

  /** `ModifyDll` runs a pass only when its marker type is referenced. */
  predicate PassEnabled(cfg: Config, pass: Pass) {
    match pass
    case GetPass => cfg.getAttr.Some?
    case EditorPass => cfg.exportAttr.Some?
    case AutoloadPass => cfg.autoloadAttr.Some?
  }

  /** One pass over the fields and then the properties of the class as it is
      when the pass starts. */
  function RunPass(cfg: Config, pass: Pass, t: TypeDef): (r: TypeDef)
    requires ValidConfig(cfg) && ValidClass(cfg, t)
    ensures Grows(t, r) && ValidClass(cfg, r)
  {
    if PassEnabled(cfg, pass) then Over(cfg, pass, t, Members(t)) else t
  }

  /** The three passes `ModifyDll` runs on a node class, in its order. */
  function ClassPass(cfg: Config, t: TypeDef): (r: TypeDef)
    requires ValidConfig(cfg) && ValidClass(cfg, t)
    ensures Grows(t, r) && ValidClass(cfg, r)
  {
    var g := RunPass(cfg, GetPass, t);
    var e := RunPass(cfg, EditorPass, g);
    GrowsTransitive(t, g, e);
    var a := RunPass(cfg, AutoloadPass, e);
    GrowsTransitive(t, e, a);
    a
  }

  lemma RunPassPrepends(cfg: Config, pass: Pass, t: TypeDef)
    requires ValidConfig(cfg) && ValidClass(cfg, t)
    ensures ReadyPrepended(t, RunPass(cfg, pass, t))
  {
    if PassEnabled(cfg, pass) {
      OverPrepends(cfg, pass, t, Members(t));
    } else {
      assert ReadyCode(t)[|ReadyCode(t)| - |ReadyCode(t)|..] == ReadyCode(t);
    }
  }

  /** The code a node class's `_Ready` runs afterwards is the autoload links,
      then the editor links, then the `[Get]` links, then the old code. The
      set-link parts are exactly their reference code; each part ends with
      the one before; the result is closed when the old code was; and every
      other method is unchanged. */
  lemma ClassPassOrder(cfg: Config, t: TypeDef)
    requires ValidConfig(cfg) && ValidClass(cfg, t)
    ensures var g := RunPass(cfg, GetPass, t);
      var e := RunPass(cfg, EditorPass, g);
      var a := RunPass(cfg, AutoloadPass, e);
      && a == ClassPass(cfg, t)
      && (cfg.getAttr.Some? ==> ReadyCode(g) == SetLinkPassCode(cfg, GetKind, t, Members(t), ReadyCode(t)))
      && (cfg.getAttr.None? ==> g == t)
      && (cfg.exportAttr.None? ==> e == g)
      && (cfg.autoloadAttr.Some? ==> ReadyCode(a) == SetLinkPassCode(cfg, AutoloadKind, e, Members(e), ReadyCode(e)))
      && (cfg.autoloadAttr.None? ==> a == e)
      && EndsWith(ReadyCode(a), ReadyCode(e))
      && EndsWith(ReadyCode(e), ReadyCode(g))
      && EndsWith(ReadyCode(g), ReadyCode(t))
      && ReadyPrepended(t, a)
  {
    var g := RunPass(cfg, GetPass, t);
    var e := RunPass(cfg, EditorPass, g);
    var a := RunPass(cfg, AutoloadPass, e);
    if cfg.getAttr.Some? {
      SetLinkPassSpec(cfg, GetKind, t, Members(t));
    }
    if cfg.autoloadAttr.Some? {
      SetLinkPassSpec(cfg, AutoloadKind, e, Members(e));
    }
    RunPassPrepends(cfg, GetPass, t);
    RunPassPrepends(cfg, EditorPass, g);
    RunPassPrepends(cfg, AutoloadPass, e);
    ReadyPrependedTransitive(t, g, e);
    GrowsTransitive(t, g, e);
    ReadyPrependedTransitive(t, e, a);
  }

  /** Every node class of the module is well formed; the other types are
      never read. */
  ghost predicate ValidModule(cfg: Config, types: seq<TypeDef>) {
    && ValidConfig(cfg)
    && forall i :: 0 <= i < |types| && IsNodeType(types[i].id, cfg.nodeType, cfg.parent) ==> ValidClass(cfg, types[i])
  }

  /** The module after `ModifyDll`: node classes get `ClassPass`; every other
      type is as it was. */
  ghost function ModifiedTypes(cfg: Config, types: seq<TypeDef>): (r: seq<TypeDef>)
    requires ValidModule(cfg, types)
    ensures |r| == |types| && ValidModule(cfg, r)
  {
    seq(|types|, (i: int) requires 0 <= i < |types| =>
      if IsNodeType(types[i].id, cfg.nodeType, cfg.parent) then ClassPass(cfg, types[i]) else types[i])
  }

  /** Every type keeps its members; exactly the node classes change, and
      each only as `ClassPassOrder` describes. */
  lemma ModifiedTypesSpec(cfg: Config, types: seq<TypeDef>)
    requires ValidModule(cfg, types)
    ensures var r := ModifiedTypes(cfg, types);
      && (forall i :: 0 <= i < |types| ==> Grows(types[i], r[i]) && ReadyPrepended(types[i], r[i]))
      && (forall i :: 0 <= i < |types| && !IsNodeType(types[i].id, cfg.nodeType, cfg.parent) ==> r[i] == types[i])
      && (forall i :: 0 <= i < |types| && Closed(ReadyCode(types[i])) ==> Closed(ReadyCode(r[i])))
  {
    var r := ModifiedTypes(cfg, types);
    forall i | 0 <= i < |types|
      ensures Grows(types[i], r[i]) && ReadyPrepended(types[i], r[i])
    {
      if IsNodeType(types[i].id, cfg.nodeType, cfg.parent) {
        ClassPassOrder(cfg, types[i]);
      } else {
        assert ReadyCode(r[i])[|ReadyCode(r[i])| - |ReadyCode(types[i])|..] == ReadyCode(types[i]);
      }
    }
  }
}
