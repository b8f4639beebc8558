/**
 * The instruction sequences the rewriter generates for one link:
 * `GenerateSetLinkFromPathInstructions` (for `[Get]` and `[Autoload]`) and
 * `GenerateEditorLinkInstructions` (for exported node members), with and
 * without the debug checks.
 */
module LinkCode {
  import opened Wrappers
  import opened Cil
  import opened Metadata
  import opened IL

  /** `Godot.NodePath Godot.NodePath::op_Implicit(System.String)`. */
  const NodePathConversion := MethodRef("Godot.NodePath", "op_Implicit")
  /** `Godot.Node Godot.Node::GetNodeOrNull(Godot.NodePath)`. */
  const NodeGetNode := MethodRef("Godot.Node", "GetNodeOrNull")
  /** `System.Boolean Godot.NodePath::IsEmpty()`. */
  const NodePathIsEmpty := MethodRef("Godot.NodePath", "IsEmpty")
  /** `System.Void Godot.GD::PushError(System.String)`. */
  const GodotPushError := MethodRef("Godot.GD", "PushError")

  /** The instruction that reads member `m` of the object on the stack. */
  function MemberGet(t: TypeDef, m: MemberRef): (r: Fragment)
    requires ValidMember(t, m)
    ensures |r| == 1 && Straight(r)
    ensures m.FieldAt? ==> r[0] == Plain(Ldfld, FieldOperand(t.fields[m.index].name))
    ensures m.PropertyAt? ==> r[0] == Plain(Call, MethodOperand(t.properties[m.index].getMethod))
  {
    match m
    case FieldAt(k) => LoadField(t.fields[k])
    case PropertyAt(k) => LoadProperty(t.properties[k])
  }

  /** The instruction that stores the value on the stack into member `m`. */
  function MemberSet(t: TypeDef, m: MemberRef): (r: Fragment)
    requires ValidMember(t, m)
    ensures |r| == 1 && Straight(r)
    ensures m.FieldAt? ==> r[0] == Plain(Stfld, FieldOperand(t.fields[m.index].name))
    ensures m.PropertyAt? ==> r[0] == Plain(Call, MethodOperand(t.properties[m.index].setMethod))
  {
    match m
    case FieldAt(k) => SetField(t.fields[k])
    case PropertyAt(k) => SetProperty(t.properties[k])
  }

  /** An error report: push `message` and call `GD.PushError`. */
  function PushErrorMessage(message: string): Fragment {
    PushString(message) + CallMethod(GodotPushError)
  }

  /** The debug checks after an assignment, labels numbered from `first`:
      when member `m` is still null, run `nodeLookup` (which leaves on the
      stack whether the node is null) and report either that no node was
      found or that the node has an incompatible type. */
  function MemberNullChecks(t: TypeDef, m: MemberRef, nodeLookup: Fragment, prefix: string, first: nat): Fragment
    requires ValidMember(t, m)
  {
    var diagnose := BranchFragment(true, nodeLookup,
      PushErrorMessage(prefix + "Node not found"),
      Some(PushErrorMessage(prefix + "Type of node is incompatible with target")),
      first);
    BranchFragment(true, PushThis() + MemberGet(t, m) + IsNull(), diagnose, None, first + 2)
  }

  /** The checks test the member for null and, only when it is null, run the
      lookup and report one of the two errors. */
  lemma MemberNullChecksShape(t: TypeDef, m: MemberRef, nodeLookup: Fragment, prefix: string, first: nat)
    requires ValidMember(t, m)
    ensures MemberNullChecks(t, m, nodeLookup, prefix, first)
      == [Plain(Ldarg0, NoOperand)] + MemberGet(t, m) + [Plain(Ldnull, NoOperand), Plain(Ceq, NoOperand)]
         + [Plain(BrfalseS, TargetOperand(first + 2))] + nodeLookup + [Plain(BrfalseS, TargetOperand(first))]
         + PushErrorMessage(prefix + "Node not found") + [Plain(BrS, TargetOperand(first + 1)), Label(first)]
         + PushErrorMessage(prefix + "Type of node is incompatible with target")
         + [Label(first + 1), Label(first + 2)]
  {
    var guard := PushThis() + MemberGet(t, m) + IsNull();
    var notFound := PushErrorMessage(prefix + "Node not found");
    var incompatible := PushErrorMessage(prefix + "Type of node is incompatible with target");
    var diagnose := BranchFragment(true, nodeLookup, notFound, Some(incompatible), first);
    assert diagnose == nodeLookup + [Plain(BrfalseS, TargetOperand(first))] + notFound
      + [Plain(BrS, TargetOperand(first + 1)), Label(first)] + incompatible + [Label(first + 1)];
    assert guard == [Plain(Ldarg0, NoOperand)] + MemberGet(t, m) + [Plain(Ldnull, NoOperand), Plain(Ceq, NoOperand)];
  }

  /** With straight-line lookup code the checks are closed and use exactly the
      three labels from `first`. */
  lemma MemberNullChecksClosed(t: TypeDef, m: MemberRef, nodeLookup: Fragment, prefix: string, first: nat)
    requires ValidMember(t, m) && Straight(nodeLookup)
    ensures var r := MemberNullChecks(t, m, nodeLookup, prefix, first);
      Closed(r) && LabelsWithin(r, first, first + 3)
  {
    var notFound := PushErrorMessage(prefix + "Node not found");
    var incompatible := PushErrorMessage(prefix + "Type of node is incompatible with target");
    var guard := PushThis() + MemberGet(t, m) + IsNull();
    StraightHasNoLabels(nodeLookup);
    StraightHasNoLabels(notFound);
    StraightHasNoLabels(incompatible);
    StraightHasNoLabels(guard);
    BranchClosed(true, nodeLookup, notFound, Some(incompatible), first, first);
    var diagnose := BranchFragment(true, nodeLookup, notFound, Some(incompatible), first);
    BranchClosed(true, guard, diagnose, None, first, first + 2);
  }

  /** Emits the checks of `MemberNullChecks` with `c`'s next three labels. */
  method EmitMemberNullChecks(c: ILHelper, t: TypeDef, m: MemberRef, nodeLookup: Fragment, messagePrefix: string)
    returns (checkInstructions: Fragment)
    requires ValidMember(t, m)
    modifies c
    ensures checkInstructions == MemberNullChecks(t, m, nodeLookup, messagePrefix, old(c.nextLabel))
    ensures c.nextLabel == old(c.nextLabel) + 3
  {
    var nodeNotFoundMessage := messagePrefix + "Node not found";
    var incompatibleTypeMessage := messagePrefix + "Type of node is incompatible with target";
    var guard := Compose([PushThis(), MemberGet(t, m), IsNull()]);
    ConcatOfThree(PushThis(), MemberGet(t, m), IsNull());
    var notFound := Compose([PushString(nodeNotFoundMessage), CallMethod(GodotPushError)]);
    ConcatOfTwo(PushString(nodeNotFoundMessage), CallMethod(GodotPushError));
    var incompatible := Compose([PushString(incompatibleTypeMessage), CallMethod(GodotPushError)]);
    ConcatOfTwo(PushString(incompatibleTypeMessage), CallMethod(GodotPushError));
    var diagnose := c.Branch(true, nodeLookup, notFound, Some(incompatible));
    checkInstructions := c.Branch(true, guard, diagnose, None);
  }

  // ---------------------------------------------------------------------
  // GenerateSetLinkFromPathInstructions
  // ---------------------------------------------------------------------

  /** `this.<m> = GetNodeOrNull((NodePath)nodePath) as <member type>`. */
  function SetLinkAssignment(t: TypeDef, m: MemberRef, nodePath: string): Fragment
    requires ValidMember(t, m)
  {
    PushThis() + PushThis() + PushString(nodePath) + CallMethod(NodePathConversion)
      + CallMethod(NodeGetNode) + IsInstance(MemberType(t, m)) + MemberSet(t, m)
  }

  /** The common first part of every debug message of a set link. */
  function SetLinkMessagePrefix(t: TypeDef, m: MemberRef, nodePath: string): string
    requires ValidMember(t, m)
  {
    "Linking " + t.name + "::" + MemberName(t, m) + " to node path '" + nodePath + "': "
  }

  /** `GetNodeOrNull((NodePath)nodePath) == null`. */
  function PathLookup(nodePath: string): Fragment {
    PushThis() + PushString(nodePath) + CallMethod(NodePathConversion) + CallMethod(NodeGetNode) + IsNull()
  }

  function SetLinkChecks(t: TypeDef, m: MemberRef, nodePath: string, first: nat): Fragment
    requires ValidMember(t, m)
  {
    MemberNullChecks(t, m, PathLookup(nodePath), SetLinkMessagePrefix(t, m, nodePath), first)
  }

  /** The fragment `GenerateSetLinkFromPathInstructions` returns when its
      labels are numbered from `first`: the assignment, then the checks when
      they are enabled. */
  function SetLinkFromPath(debugChecksEnabled: bool, t: TypeDef, m: MemberRef, nodePath: string, first: nat): Fragment
    requires ValidMember(t, m)
  {
    SetLinkAssignment(t, m, nodePath) + (if debugChecksEnabled then SetLinkChecks(t, m, nodePath, first) else [])
  }

  /** How many labels a set-link fragment creates. */
  function SetLinkLabels(debugChecksEnabled: bool): nat {
    if debugChecksEnabled then 3 else 0
  }

  /** The assignment: seven straight-line instructions that load this twice,
      push and convert the path, look the node up, cast it to the member type
      and store it. Without checks this is the whole fragment. */
  lemma SetLinkAssignmentShape(t: TypeDef, m: MemberRef, nodePath: string, first: nat)
    requires ValidMember(t, m)
    ensures var r := SetLinkAssignment(t, m, nodePath);
      && SetLinkFromPath(false, t, m, nodePath, first) == r
      && |r| == 7 && Straight(r)
      && r[..6] == [Plain(Ldarg0, NoOperand), Plain(Ldarg0, NoOperand), Plain(Ldstr, StringOperand(nodePath)),
                    Plain(Call, MethodOperand(NodePathConversion)), Plain(Call, MethodOperand(NodeGetNode)),
                    Plain(Isinst, TypeOperand(MemberType(t, m)))]
      && [r[6]] == MemberSet(t, m)
  {
    var r := SetLinkAssignment(t, m, nodePath);
    assert r + [] == r;
  }

  /** The set-link checks, written out. */
  lemma SetLinkChecksShape(t: TypeDef, m: MemberRef, nodePath: string, first: nat)
    requires ValidMember(t, m)
    ensures var r := SetLinkChecks(t, m, nodePath, first);
      var prefix := SetLinkMessagePrefix(t, m, nodePath);
      && |r| == 20
      && r[..5] == [Plain(Ldarg0, NoOperand)] + MemberGet(t, m)
                   + [Plain(Ldnull, NoOperand), Plain(Ceq, NoOperand), Plain(BrfalseS, TargetOperand(first + 2))]
      && r[5..12] == [Plain(Ldarg0, NoOperand), Plain(Ldstr, StringOperand(nodePath)),
                      Plain(Call, MethodOperand(NodePathConversion)), Plain(Call, MethodOperand(NodeGetNode)),
                      Plain(Ldnull, NoOperand), Plain(Ceq, NoOperand), Plain(BrfalseS, TargetOperand(first))]
      && r[12..14] == [Plain(Ldstr, StringOperand(prefix + "Node not found")), Plain(Call, MethodOperand(GodotPushError))]
      && r[14] == Plain(BrS, TargetOperand(first + 1)) && r[15] == Label(first)
      && r[16..18] == [Plain(Ldstr, StringOperand(prefix + "Type of node is incompatible with target")),
                       Plain(Call, MethodOperand(GodotPushError))]
      && r[18] == Label(first + 1) && r[19] == Label(first + 2)
  {
    var r := SetLinkChecks(t, m, nodePath, first);
    MemberNullChecksShape(t, m, PathLookup(nodePath), SetLinkMessagePrefix(t, m, nodePath), first);
    assert r[..5] == r[..1] + r[1..2] + r[2..5];
  }

  /** The fragment is closed and uses only the labels it creates, numbered
      from `first`: it can be put in front of any body whose labels are below
      `first`. */
  lemma SetLinkClosed(debugChecksEnabled: bool, t: TypeDef, m: MemberRef, nodePath: string, first: nat)
    requires ValidMember(t, m)
    ensures var r := SetLinkFromPath(debugChecksEnabled, t, m, nodePath, first);
      Closed(r) && LabelsWithin(r, first, first + SetLinkLabels(debugChecksEnabled))
  {
    SetLinkAssignmentShape(t, m, nodePath, first);
    var a := SetLinkAssignment(t, m, nodePath);
    StraightHasNoLabels(a);
    if debugChecksEnabled {
      MemberNullChecksClosed(t, m, PathLookup(nodePath), SetLinkMessagePrefix(t, m, nodePath), first);
      ClosedAppendWithin(a, SetLinkChecks(t, m, nodePath, first), first, first, first + 3);
    }
  }

  /** `GenerateSetLinkFromPathInstructions`, with a fresh `ILHelper` whose
      labels start at `firstFreeLabel`. */
  method GenerateSetLinkFromPathInstructions(debugChecksEnabled: bool, t: TypeDef, m: MemberRef,
                                             nodePath: string, firstFreeLabel: nat)
    returns (instructions: Fragment)
    requires ValidMember(t, m)
    ensures instructions == SetLinkFromPath(debugChecksEnabled, t, m, nodePath, firstFreeLabel)
  {
    var c := new ILHelper(firstFreeLabel);
    var memberType := MemberType(t, m);
    var memberSetInstructions := MemberSet(t, m);
    var checkInstructions: Fragment;
    if debugChecksEnabled {
      var messagePrefix := SetLinkMessagePrefix(t, m, nodePath);
      var nodeLookup := Compose([PushThis(), PushString(nodePath), CallMethod(NodePathConversion),
        CallMethod(NodeGetNode), IsNull()]);
      ConcatOfFive(PushThis(), PushString(nodePath), CallMethod(NodePathConversion), CallMethod(NodeGetNode), IsNull());
      checkInstructions := EmitMemberNullChecks(c, t, m, nodeLookup, messagePrefix);
    } else {
      checkInstructions := [];
    }
    instructions := Compose([
      PushThis(),
      PushThis(),
      PushString(nodePath),
      CallMethod(NodePathConversion),
      CallMethod(NodeGetNode),
      IsInstance(memberType),
      memberSetInstructions,
      checkInstructions]);
    ConcatOfEight(PushThis(), PushThis(), PushString(nodePath), CallMethod(NodePathConversion),
      CallMethod(NodeGetNode), IsInstance(memberType), memberSetInstructions, checkInstructions);
  }

  // ---------------------------------------------------------------------
  // GenerateEditorLinkInstructions
  // ---------------------------------------------------------------------

  /** `this.<m> = this.GetNodeOrNull(this.<exported>) as <member type>`. */
  function EditorLinkAssignment(t: TypeDef, m: MemberRef, exportedField: FieldDef): Fragment
    requires ValidMember(t, m)
  {
    PushThis() + PushThis() + PushThis() + LoadField(exportedField)
      + CallMethod(NodeGetNode) + IsInstance(MemberType(t, m)) + MemberSet(t, m)
  }

  /** The common first part of every debug message of an editor link. */
  function EditorLinkMessagePrefix(t: TypeDef, m: MemberRef): string
    requires ValidMember(t, m)
  {
    "Linking " + t.name + "::" + MemberName(t, m) + " "
  }

  /** The debug check before the assignment, labels numbered from `first`:
      report "Not set" when the exported path is null or empty. */
  function NodePathChecks(t: TypeDef, m: MemberRef, exportedField: FieldDef, first: nat): Fragment
    requires ValidMember(t, m)
  {
    var printNotSet := PushErrorMessage(EditorLinkMessagePrefix(t, m) + "Not set");
    var emptyCheck := BranchFragment(true,
      PushThis() + LoadField(exportedField) + CallMethod(NodePathIsEmpty),
      printNotSet, None, first);
    BranchFragment(false, PushThis() + LoadField(exportedField) + IsNull(), emptyCheck, Some(printNotSet), first + 1)
  }

  /** `this.GetNodeOrNull(this.<exported>) == null`. */
  function ExportedLookup(exportedField: FieldDef): Fragment {
    PushThis() + PushThis() + LoadField(exportedField) + CallMethod(NodeGetNode) + IsNull()
  }

  function EditorPostChecks(t: TypeDef, m: MemberRef, exportedField: FieldDef, first: nat): Fragment
    requires ValidMember(t, m)
  {
    MemberNullChecks(t, m, ExportedLookup(exportedField), EditorLinkMessagePrefix(t, m), first)
  }

  /** The fragment `GenerateEditorLinkInstructions` returns when its labels are
      numbered from `first`: the path check, the assignment and the post
      checks, the checks only when they are enabled. */
  function EditorLink(debugChecksEnabled: bool, t: TypeDef, m: MemberRef, exportedField: FieldDef, first: nat): Fragment
    requires ValidMember(t, m)
  {
    (if debugChecksEnabled then NodePathChecks(t, m, exportedField, first) else [])
      + PushThis() + PushThis() + PushThis() + LoadField(exportedField)
      + CallMethod(NodeGetNode) + IsInstance(MemberType(t, m)) + MemberSet(t, m)
      + (if debugChecksEnabled then EditorPostChecks(t, m, exportedField, first + 3) else [])
  }

  /** The editor-link fragment is the path check, the assignment and the post
      checks: the assignment does not depend on the debug setting. */
  lemma EditorLinkStructure(debugChecksEnabled: bool, t: TypeDef, m: MemberRef, exportedField: FieldDef, first: nat)
    requires ValidMember(t, m)
    ensures EditorLink(debugChecksEnabled, t, m, exportedField, first) ==
      (if debugChecksEnabled then NodePathChecks(t, m, exportedField, first) else [])
      + EditorLinkAssignment(t, m, exportedField)
      + (if debugChecksEnabled then EditorPostChecks(t, m, exportedField, first + 3) else [])
  {
    var pre := if debugChecksEnabled then NodePathChecks(t, m, exportedField, first) else [];
    var post := if debugChecksEnabled then EditorPostChecks(t, m, exportedField, first + 3) else [];
    GroupSeven(pre, PushThis(), PushThis(), PushThis(), LoadField(exportedField),
      CallMethod(NodeGetNode), IsInstance(MemberType(t, m)), MemberSet(t, m), post);
  }

  /** How many labels an editor-link fragment creates. */
  function EditorLinkLabels(debugChecksEnabled: bool): nat {
    if debugChecksEnabled then 6 else 0
  }

  /** The assignment: load this for the store and for the lookup, read the
      exported path field, look the node up, cast it and store it. Without
      checks this is the whole fragment. */
  lemma EditorLinkAssignmentShape(t: TypeDef, m: MemberRef, exportedField: FieldDef, first: nat)
    requires ValidMember(t, m)
    ensures var r := EditorLinkAssignment(t, m, exportedField);
      && EditorLink(false, t, m, exportedField, first) == r
      && |r| == 7 && Straight(r)
      && r[..6] == [Plain(Ldarg0, NoOperand), Plain(Ldarg0, NoOperand), Plain(Ldarg0, NoOperand),
                    Plain(Ldfld, FieldOperand(exportedField.name)), Plain(Call, MethodOperand(NodeGetNode)),
                    Plain(Isinst, TypeOperand(MemberType(t, m)))]
      && [r[6]] == MemberSet(t, m)
  {
    var r := EditorLinkAssignment(t, m, exportedField);
    EditorLinkStructure(false, t, m, exportedField, first);
    assert [] + r + [] == r;
  }

  /** The path check: when the exported path is null, jump to the "Not set"
      report; otherwise test it for emptiness and report the same message. */
  lemma NodePathChecksShape(t: TypeDef, m: MemberRef, exportedField: FieldDef, first: nat)
    requires ValidMember(t, m)
    ensures var r := NodePathChecks(t, m, exportedField, first);
      var notSet := [Plain(Ldstr, StringOperand(EditorLinkMessagePrefix(t, m) + "Not set")),
                     Plain(Call, MethodOperand(GodotPushError))];
      && |r| == 17
      && r[..5] == [Plain(Ldarg0, NoOperand), Plain(Ldfld, FieldOperand(exportedField.name)),
                    Plain(Ldnull, NoOperand), Plain(Ceq, NoOperand), Plain(BrtrueS, TargetOperand(first + 1))]
      && r[5..9] == [Plain(Ldarg0, NoOperand), Plain(Ldfld, FieldOperand(exportedField.name)),
                     Plain(Call, MethodOperand(NodePathIsEmpty)), Plain(BrfalseS, TargetOperand(first))]
      && r[9..11] == notSet && r[11] == Label(first)
      && r[12] == Plain(BrS, TargetOperand(first + 2)) && r[13] == Label(first + 1)
      && r[14..16] == notSet && r[16] == Label(first + 2)
  {
    var notSet := PushErrorMessage(EditorLinkMessagePrefix(t, m) + "Not set");
    var isEmpty := PushThis() + LoadField(exportedField) + CallMethod(NodePathIsEmpty);
    var isNull := PushThis() + LoadField(exportedField) + IsNull();
    var emptyCheck := BranchFragment(true, isEmpty, notSet, None, first);
    BranchShape(true, isEmpty, notSet, first);
    BranchElseShape(false, isNull, emptyCheck, notSet, first + 1);
  }

  /** The editor-link post checks, written out. */
  lemma EditorPostChecksShape(t: TypeDef, m: MemberRef, exportedField: FieldDef, first: nat)
    requires ValidMember(t, m)
    ensures var r := EditorPostChecks(t, m, exportedField, first);
      var prefix := EditorLinkMessagePrefix(t, m);
      && |r| == 20
      && r[..5] == [Plain(Ldarg0, NoOperand)] + MemberGet(t, m)
                   + [Plain(Ldnull, NoOperand), Plain(Ceq, NoOperand), Plain(BrfalseS, TargetOperand(first + 2))]
      && r[5..12] == [Plain(Ldarg0, NoOperand), Plain(Ldarg0, NoOperand), Plain(Ldfld, FieldOperand(exportedField.name)),
                      Plain(Call, MethodOperand(NodeGetNode)),
                      Plain(Ldnull, NoOperand), Plain(Ceq, NoOperand), Plain(BrfalseS, TargetOperand(first))]
      && r[12..14] == [Plain(Ldstr, StringOperand(prefix + "Node not found")), Plain(Call, MethodOperand(GodotPushError))]
      && r[14] == Plain(BrS, TargetOperand(first + 1)) && r[15] == Label(first)
      && r[16..18] == [Plain(Ldstr, StringOperand(prefix + "Type of node is incompatible with target")),
                       Plain(Call, MethodOperand(GodotPushError))]
      && r[18] == Label(first + 1) && r[19] == Label(first + 2)
  {
    var r := EditorPostChecks(t, m, exportedField, first);
    MemberNullChecksShape(t, m, ExportedLookup(exportedField), EditorLinkMessagePrefix(t, m), first);
    assert r[..5] == r[..1] + r[1..2] + r[2..5];
  }

  /** The path check is closed and uses exactly the three labels from `first`. */
  lemma NodePathChecksClosed(t: TypeDef, m: MemberRef, exportedField: FieldDef, first: nat)
    requires ValidMember(t, m)
    ensures var r := NodePathChecks(t, m, exportedField, first);
      Closed(r) && LabelsWithin(r, first, first + 3)
  {
    var notSet := PushErrorMessage(EditorLinkMessagePrefix(t, m) + "Not set");
    var isEmpty := PushThis() + LoadField(exportedField) + CallMethod(NodePathIsEmpty);
    var isNull := PushThis() + LoadField(exportedField) + IsNull();
    StraightHasNoLabels(notSet);
    StraightHasNoLabels(isEmpty);
    StraightHasNoLabels(isNull);
    BranchClosed(true, isEmpty, notSet, None, first, first);
    var emptyCheck := BranchFragment(true, isEmpty, notSet, None, first);
    BranchClosed(false, isNull, emptyCheck, Some(notSet), first, first + 1);
  }

  /** The whole editor-link fragment is closed and uses only the labels it
      creates, numbered from `first`. */
  lemma EditorLinkClosed(debugChecksEnabled: bool, t: TypeDef, m: MemberRef, exportedField: FieldDef, first: nat)
    requires ValidMember(t, m)
    ensures var r := EditorLink(debugChecksEnabled, t, m, exportedField, first);
      Closed(r) && LabelsWithin(r, first, first + EditorLinkLabels(debugChecksEnabled))
  {
    EditorLinkAssignmentShape(t, m, exportedField, first);
    EditorLinkStructure(debugChecksEnabled, t, m, exportedField, first);
    var a := EditorLinkAssignment(t, m, exportedField);
    StraightHasNoLabels(a);
    if debugChecksEnabled {
      var pre := NodePathChecks(t, m, exportedField, first);
      var post := EditorPostChecks(t, m, exportedField, first + 3);
      NodePathChecksClosed(t, m, exportedField, first);
      MemberNullChecksClosed(t, m, ExportedLookup(exportedField), EditorLinkMessagePrefix(t, m), first + 3);
      ClosedAppendWithin(pre, a, first, first + 3, first + 3);
      ClosedAppendWithin(pre + a, post, first, first + 3, first + 6);
    }
  }

  /** Emits the path check of `NodePathChecks` with `c`'s next three labels;
      the one "Not set" report fragment is used in both places. */
  method EmitNodePathChecks(c: ILHelper, t: TypeDef, m: MemberRef, exportedField: FieldDef)
    returns (nodePathCheckInstructions: Fragment)
    requires ValidMember(t, m)
    modifies c
    ensures nodePathCheckInstructions == NodePathChecks(t, m, exportedField, old(c.nextLabel))
    ensures c.nextLabel == old(c.nextLabel) + 3
  {
    var nodePathNotSetMessage := EditorLinkMessagePrefix(t, m) + "Not set";
    var printNotSetMessageInstructions := Compose([PushString(nodePathNotSetMessage), CallMethod(GodotPushError)]);
    ConcatOfTwo(PushString(nodePathNotSetMessage), CallMethod(GodotPushError));
    var isNull := Compose([PushThis(), LoadField(exportedField), IsNull()]);
    ConcatOfThree(PushThis(), LoadField(exportedField), IsNull());
    var isEmpty := Compose([PushThis(), LoadField(exportedField), CallMethod(NodePathIsEmpty)]);
    ConcatOfThree(PushThis(), LoadField(exportedField), CallMethod(NodePathIsEmpty));
    var emptyCheck := c.Branch(true, isEmpty, printNotSetMessageInstructions, None);
    nodePathCheckInstructions := c.Branch(false, isNull, emptyCheck, Some(printNotSetMessageInstructions));
  }

  /** When checks are enabled, emits the path check and then the post checks of
      the editor link with `c`'s next six labels; otherwise emits nothing. */
  method EmitEditorLinkChecks(c: ILHelper, debugChecksEnabled: bool, t: TypeDef, m: MemberRef, exportedField: FieldDef)
    returns (nodePathCheckInstructions: Fragment, postCheckInstructions: Fragment)
    requires ValidMember(t, m)
    modifies c
    ensures nodePathCheckInstructions ==
      if debugChecksEnabled then NodePathChecks(t, m, exportedField, old(c.nextLabel)) else []
    ensures postCheckInstructions ==
      if debugChecksEnabled then EditorPostChecks(t, m, exportedField, old(c.nextLabel) + 3) else []
    ensures c.nextLabel == old(c.nextLabel) + EditorLinkLabels(debugChecksEnabled)
  {
    if debugChecksEnabled {
      nodePathCheckInstructions := EmitNodePathChecks(c, t, m, exportedField);
      var nodeLookup := Compose([PushThis(), PushThis(), LoadField(exportedField), CallMethod(NodeGetNode), IsNull()]);
      ConcatOfFive(PushThis(), PushThis(), LoadField(exportedField), CallMethod(NodeGetNode), IsNull());
      postCheckInstructions := EmitMemberNullChecks(c, t, m, nodeLookup, EditorLinkMessagePrefix(t, m));
    } else {
      nodePathCheckInstructions := [];
      postCheckInstructions := [];
    }
  }

  /** The editor-link fragment assembled from its already generated path check
      and post checks. */
  lemma EditorLinkOfParts(debugChecksEnabled: bool, t: TypeDef, m: MemberRef, exportedField: FieldDef, first: nat,
                          pathChecks: Fragment, postChecks: Fragment)
    requires ValidMember(t, m)
    requires pathChecks == if debugChecksEnabled then NodePathChecks(t, m, exportedField, first) else []
    requires postChecks == if debugChecksEnabled then EditorPostChecks(t, m, exportedField, first + 3) else []
    ensures Concat([pathChecks, PushThis(), PushThis(), PushThis(), LoadField(exportedField),
      CallMethod(NodeGetNode), IsInstance(MemberType(t, m)), MemberSet(t, m), postChecks])
      == EditorLink(debugChecksEnabled, t, m, exportedField, first)
  {
    ConcatOfNine(pathChecks, PushThis(), PushThis(), PushThis(), LoadField(exportedField),
      CallMethod(NodeGetNode), IsInstance(MemberType(t, m)), MemberSet(t, m), postChecks);
  }

  /** `GenerateEditorLinkInstructions`, with a fresh `ILHelper` whose labels
      start at `firstFreeLabel`; the code does not use `exportedName`. */
  method GenerateEditorLinkInstructions(debugChecksEnabled: bool, t: TypeDef, m: MemberRef,
                                        exportedField: FieldDef, exportedName: string, firstFreeLabel: nat)
    returns (instructions: Fragment)
    requires ValidMember(t, m)
    ensures instructions == EditorLink(debugChecksEnabled, t, m, exportedField, firstFreeLabel)
  {
    var c := new ILHelper(firstFreeLabel);
    var memberType := MemberType(t, m);
    var memberSetInstructions := MemberSet(t, m);
    var nodePathCheckInstructions: Fragment;
    var postCheckInstructions: Fragment;
    nodePathCheckInstructions, postCheckInstructions := EmitEditorLinkChecks(c, debugChecksEnabled, t, m, exportedField);
    instructions := Compose([
      nodePathCheckInstructions,
      PushThis(),
      PushThis(),
      PushThis(),
      LoadField(exportedField),
      CallMethod(NodeGetNode),
      IsInstance(memberType),
      memberSetInstructions,
      postCheckInstructions]);
    EditorLinkOfParts(debugChecksEnabled, t, m, exportedField, firstFreeLabel,
      nodePathCheckInstructions, postCheckInstructions);
  }
}
