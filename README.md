# GodotCSUtils DllMod — a Dafny model of the post-compile IL rewriter

GodotCSUtils rewrites a compiled Godot C# assembly after the build. For every
class that derives from `Godot.Node`, it looks at the marker attributes on the
class's fields and properties and puts code at the front of `_Ready`:

- `[Get(path)]` assigns the node at `path`. With no argument it uses the member's name.
- `[Autoload(name)]` assigns the node at `/root/<name>`.
- `[Export]` on a node-typed member becomes an editor link. The attribute moves to a
  new exported `NodePath` field, and `_Ready` assigns the node that field names.

With debug checks on, every assignment is followed by code that reports a
missing node or a node of the wrong type through `GD.PushError`.

The project models two things:

- the instruction-fragment builder `ILHelper` (module `IL`, file `ILHelper.dfy`);
- the rewriting logic of `GodotDllModifier`, split over four modules:
  - `Scanner`: the searches, the base-class walk, the node-class list and the field-name probe;
  - `LinkCode`: the two code generators;
  - `Passes`: one step per member, one pass per marker kind, one node class, and the whole module, all as functions on values;
  - `DllModifier`: the class `GodotDllModifier`, whose methods edit type definitions in place and are proved against the functions of `Passes`.

Supporting modules:

- `Cil`: instructions, labels, and "closed" fragments. A fragment is closed when every jump target is defined exactly once inside it.
- `Metadata`: type, field, property, method and custom-attribute records, plus the mutable `TypeDefinition`.
- `Wrappers`: `Option`.

Modelling choices:

- **Labels.** An instruction is `Plain(op, operand)` or `Label(id)`. A `Label` is a `nop` that a branch jumps to, and `id` stands for its object identity. `ILHelper` keeps a counter `nextLabel` for `_il.Create`. It starts above every label already in the `_Ready` body the code goes into, so new labels never clash with old ones.
- **Members.** A member is referenced by its position: `FieldAt(k)` or `PropertyAt(k)`. The rewriter only appends to these lists, so positions stay valid.
- **Resolved handles.** The handles `ReadTargetAssembly` obtains are a `Config` value:
  - the debug switch;
  - the base-type map;
  - the `Node` and `NodePath` types;
  - the four marker types, each `None` when the module does not reference it.

Main results:

- **Branch.** `Branch` has its documented shape and jump polarity. Its labels are fresh and defined exactly once (`IL.BranchShape`, `IL.BranchElseShape`, `IL.BranchPolarity`, `IL.BranchLabelsFresh`, `IL.BranchClosed`).
- **Generated code.** Both generators produce closed fragments whose labels are exactly the new ones (`LinkCode.SetLinkClosed`, `LinkCode.EditorLinkClosed`). They are written out instruction by instruction (`*Shape` lemmas).
- **Processing order.** For a node class, `ModifyDll` leaves `_Ready` running the autoload links, then the editor links, then the `[Get]` links, then the old body. Each set-link pass equals an independent reference definition. Every other method is unchanged, and a closed body stays closed (`Passes.ClassPassOrder`, `Passes.SetLinkPassSpec`).
- **Whole rewriter.** `DllModifier.GodotDllModifier.ModifyDll` edits every type definition in place. It is proved to leave exactly `Passes.ModifiedTypes` of the old module.

## Model

| member | source | states |
|---|---|---|
| IL.Compose | GodotCSUtils.DllMod/ILHelper.cs:17-26 | the loop leaves the concatenation of the argument fragments in argument order (`Concat`) |
| IL.ConcatAppend | GodotCSUtils.DllMod/ILHelper.cs:17-26 | composing two argument lists one after the other equals composing their concatenation |
| IL.ConcatStraight | GodotCSUtils.DllMod/ILHelper.cs:17-26 | composing branch-free, label-free fragments gives a branch-free, label-free fragment |
| IL.Nop | GodotCSUtils.DllMod/ILHelper.cs:28-31 | exactly one `nop`, not a branch target |
| IL.PushThis | GodotCSUtils.DllMod/ILHelper.cs:33-36 | exactly one `ldarg.0`, straight-line |
| IL.PushString | GodotCSUtils.DllMod/ILHelper.cs:38-41 | exactly one `ldstr` of the given string, straight-line |
| IL.CallMethod | GodotCSUtils.DllMod/ILHelper.cs:43-46 | exactly one `call` of the given method, straight-line |
| IL.CallMethodVirtual | GodotCSUtils.DllMod/ILHelper.cs:48-51 | exactly one `callvirt` of the given method, straight-line |
| IL.LoadField | GodotCSUtils.DllMod/ILHelper.cs:53-56 | exactly one `ldfld` of the given field, straight-line |
| IL.SetField | GodotCSUtils.DllMod/ILHelper.cs:58-61 | exactly one `stfld` of the given field, straight-line |
| IL.LoadProperty | GodotCSUtils.DllMod/ILHelper.cs:63-66 | exactly one `call` of the property's getter |
| IL.SetProperty | GodotCSUtils.DllMod/ILHelper.cs:68-71 | exactly one `call` of the property's setter |
| IL.IsInstance | GodotCSUtils.DllMod/ILHelper.cs:73-76 | exactly one `isinst` of the given type |
| IL.IsNull | GodotCSUtils.DllMod/ILHelper.cs:78-85 | exactly `[ldnull, ceq]`, length 2 |
| IL.ILHelper.NewLabel | GodotCSUtils.DllMod/ILHelper.cs:98-99 | returns a `nop` with the next unused identity and advances the counter by one |
| IL.ILHelper.Branch | GodotCSUtils.DllMod/ILHelper.cs:87-116 | the list built step by step equals `BranchFragment` with labels from the counter; the counter advances by the number of labels created (1 or 2) |
| IL.BranchFragment | GodotCSUtils.DllMod/ILHelper.cs:87-116 | the list `Branch` returns with its labels numbered from `first`; its layout is `IL.BranchShape` and `IL.BranchElseShape`, its jump `IL.BranchPolarity`, its labels `IL.BranchLabelsFresh` and `IL.BranchClosed` |
| IL.BranchShape | GodotCSUtils.DllMod/ILHelper.cs:107-113 | without else: length \|cond\|+\|body\|+2; cond, then the jump to the last instruction, then body unchanged, then the end label |
| IL.BranchElseShape | GodotCSUtils.DllMod/ILHelper.cs:96-106 | with else: length \|cond\|+\|body\|+\|else\|+4; cond, jump to else-begin, body, `br.s` to end, else-begin label, else, end label, each part contiguous and unchanged |
| IL.BranchPolarity | GodotCSUtils.DllMod/ILHelper.cs:100-110 | `condition = true` emits `brfalse.s`, false emits `brtrue.s`; the jump is skipped (body runs) exactly when the tested value equals `condition` |
| IL.BranchLabelCount | GodotCSUtils.DllMod/ILHelper.cs:94-113 | each label occurs as often as in the parts, plus once for each label the branch creates |
| IL.BranchLabelSets | GodotCSUtils.DllMod/ILHelper.cs:94-113 | the defined labels and jump targets are those of the parts plus exactly the new labels |
| IL.BranchLabelsFresh | GodotCSUtils.DllMod/ILHelper.cs:98-112 | when the parts use only smaller labels, every new label occurs exactly once in the result |
| IL.BranchClosed | GodotCSUtils.DllMod/ILHelper.cs:87-116 | closed parts with disjoint labels give a closed fragment whose labels lie in the parts' range plus the new ones |
| Cil.MarksAppend | GodotCSUtils.DllMod/ILHelper.cs:17-26 | the labels and jump targets of a concatenation are the unions of those of the parts |
| Cil.LabelCountAppend | GodotCSUtils.DllMod/ILHelper.cs:17-26 | label occurrences add up under concatenation |
| Cil.ClosedAppend | GodotCSUtils.DllMod/ILHelper.cs:17-26 | concatenating two closed fragments with disjoint labels gives a closed fragment |
| Cil.ClosedAppendWithin | GodotCSUtils.DllMod/ILHelper.cs:17-26 | closed fragments over consecutive label ranges concatenate to a closed fragment over the joined range |
| Scanner.FindMethodBySimpleName | GodotCSUtils.DllMod/GodotDllModifier.cs:141-144 | `None` iff no method has the name; otherwise the first method with that name |
| Scanner.FindFieldBySimpleName | GodotCSUtils.DllMod/GodotDllModifier.cs:146-149 | `None` iff no field has the name; otherwise the first field with that name |
| Scanner.FindPropertyBySimpleName | GodotCSUtils.DllMod/GodotDllModifier.cs:151-154 | `None` iff no property has the name; otherwise the first property with that name |
| Scanner.GetFieldAttribute | GodotCSUtils.DllMod/GodotDllModifier.cs:156-164 | `None` iff no attribute of the member has the type (always `None` for an unresolved type); otherwise the first such attribute |
| Scanner.HasBaseClassSearchesChain | GodotCSUtils.DllMod/GodotDllModifier.cs:113-120 | true iff the base type is reached within the step bound on the base-type chain (step 0 is the type itself) |
| Scanner.HasBaseClassComplete | GodotCSUtils.DllMod/GodotDllModifier.cs:113-120 | when the chain ends within the bound, true iff the base type is anywhere on the chain |
| Scanner.AcyclicChainEnds | GodotCSUtils.DllMod/GodotDllModifier.cs:113-120 | a base-type chain on which no type repeats ends within one step per entry of the base-type map, so the source's recursion stops |
| Scanner.IsNodeTypeExact | GodotCSUtils.DllMod/GodotDllModifier.cs:113-134 | on an acyclic chain, the node-class test is true iff `Node` is somewhere on the chain, as the unbounded recursion decides |
| Scanner.HasBaseClass | GodotCSUtils.DllMod/GodotDllModifier.cs:113-120 | the recursive walk up the base-type chain, with a step bound; by `Scanner.HasBaseClassSearchesChain` it is true iff the base type is one of the first fuel+1 chain entries |
| Scanner.IsNodeType | GodotCSUtils.DllMod/GodotDllModifier.cs:131-134 | the node-class test, one step per entry of the base-type map; by `Scanner.IsNodeTypeExact`, on an acyclic chain it holds iff `Node` is on the chain |
| Scanner.GetNodeClasses | GodotCSUtils.DllMod/GodotDllModifier.cs:131-134 | exactly the positions of the module types deriving from `Node`, each once, in module order |
| Scanner.NodeClassesBelowSpec | GodotCSUtils.DllMod/GodotDllModifier.cs:131-134 | the filter over the first n types lists exactly the node types among them, in increasing order |
| Scanner.FirstUnusedNameNone | GodotCSUtils.DllMod/GodotDllModifier.cs:353-369 | no name is found iff every candidate `baseName` + k underscores, k < attempts, is used by a method, field or property |
| Scanner.FirstUnusedNameIsLeast | GodotCSUtils.DllMod/GodotDllModifier.cs:353-369 | a found name is `baseName` + k underscores for the least unused k below the bound |
| Scanner.SelectNonUsedNameForEditorLinkField | GodotCSUtils.DllMod/GodotDllModifier.cs:353-369 | the loop appending `_` up to 100 times returns `FirstUnusedName(…, 100)` |
| Metadata.Members | GodotCSUtils.DllMod/GodotDllModifier.cs:187-189 | the member list is the fields in order, then the properties in order |
| Metadata.RemoveAt | GodotCSUtils.DllMod/GodotDllModifier.cs:333-333 | removing one attribute keeps the ones before it and shifts the ones after it down by one |
| Metadata.WithMemberAttributesOthers | GodotCSUtils.DllMod/GodotDllModifier.cs:333-333 | changing one member's attributes leaves every other member's attributes unchanged |
| LinkCode.MemberGet | GodotCSUtils.DllMod/GodotDllModifier.cs:252-263 | `ldfld` of a field or `call` of a property's getter, straight-line |
| LinkCode.MemberSet | GodotCSUtils.DllMod/GodotDllModifier.cs:252-263 | `stfld` of a field or `call` of a property's setter, straight-line |
| LinkCode.MemberNullChecksShape | GodotCSUtils.DllMod/GodotDllModifier.cs:275-286 | the nested post-assignment check, written out instruction by instruction with its three labels |
| LinkCode.MemberNullChecksClosed | GodotCSUtils.DllMod/GodotDllModifier.cs:275-286 | the post-assignment check is closed and uses exactly the three labels from `first` |
| LinkCode.EmitMemberNullChecks | GodotCSUtils.DllMod/GodotDllModifier.cs:275-286 | the two nested `Branch` calls give `MemberNullChecks` with the helper's next three labels |
| LinkCode.SetLinkAssignmentShape | GodotCSUtils.DllMod/GodotDllModifier.cs:292-301 | without checks the fragment is exactly `ldarg.0, ldarg.0, ldstr path, call op_Implicit, call GetNodeOrNull, isinst T, setter` and has no branches |
| LinkCode.SetLinkChecksShape | GodotCSUtils.DllMod/GodotDllModifier.cs:267-286 | with checks, the 20 appended instructions, including both messages with the "Linking C::m to node path 'p': " prefix |
| LinkCode.SetLinkClosed | GodotCSUtils.DllMod/GodotDllModifier.cs:243-302 | the set-link fragment is closed and uses only its own 0 or 3 labels |
| LinkCode.SetLinkFromPath | GodotCSUtils.DllMod/GodotDllModifier.cs:243-302 | the set-link fragment from the first free label: the assignment, then the check code when checks are on, as written out by `LinkCode.SetLinkAssignmentShape` and `LinkCode.SetLinkChecksShape`; closed by `LinkCode.SetLinkClosed` |
| LinkCode.GenerateSetLinkFromPathInstructions | GodotCSUtils.DllMod/GodotDllModifier.cs:243-302 | the generated fragment equals `SetLinkFromPath` numbered from the given first free label |
| LinkCode.EditorLinkStructure | GodotCSUtils.DllMod/GodotDllModifier.cs:436-451 | the editor-link fragment is path check, then assignment, then post checks; the assignment does not depend on the debug switch |
| LinkCode.EditorLinkAssignmentShape | GodotCSUtils.DllMod/GodotDllModifier.cs:436-451 | without checks the fragment is exactly `ldarg.0 ×3, ldfld exported, call GetNodeOrNull, isinst T, setter` |
| LinkCode.NodePathChecksShape | GodotCSUtils.DllMod/GodotDllModifier.cs:398-415 | the 17-instruction path check: null test jumping to the second "Not set" report, emptiness test, both reports, three labels |
| LinkCode.EditorPostChecksShape | GodotCSUtils.DllMod/GodotDllModifier.cs:417-432 | the 20-instruction post check looking the node up through the exported field |
| LinkCode.NodePathChecksClosed | GodotCSUtils.DllMod/GodotDllModifier.cs:398-415 | the path check is closed and uses exactly its three labels |
| LinkCode.EditorLinkClosed | GodotCSUtils.DllMod/GodotDllModifier.cs:371-452 | the editor-link fragment is closed and uses only its own 0 or 6 labels |
| LinkCode.EmitNodePathChecks | GodotCSUtils.DllMod/GodotDllModifier.cs:398-415 | the two `Branch` calls give `NodePathChecks` with the helper's next three labels |
| LinkCode.EmitEditorLinkChecks | GodotCSUtils.DllMod/GodotDllModifier.cs:396-436 | with checks on, the path check and then the post checks with the next six labels; otherwise two empty fragments |
| LinkCode.EditorLink | GodotCSUtils.DllMod/GodotDllModifier.cs:371-452 | the editor-link fragment from the first free label: path check, assignment, post checks (`LinkCode.EditorLinkStructure` and the `*Shape` lemmas); closed by `LinkCode.EditorLinkClosed` |
| LinkCode.GenerateEditorLinkInstructions | GodotCSUtils.DllMod/GodotDllModifier.cs:371-452 | the generated fragment equals `EditorLink` numbered from the given first free label |
| Passes.WithReadyMethod | GodotCSUtils.DllMod/GodotDllModifier.cs:166-183 | returns a method named `_Ready`; the class only grows, with fields and properties unchanged |
| Passes.ReadyMethodSpec | GodotCSUtils.DllMod/GodotDllModifier.cs:166-183 | an existing `_Ready` is returned unchanged; otherwise exactly one public virtual `_Ready` with body `[ret]` is appended; a second call changes nothing |
| Passes.PrependToReady | GodotCSUtils.DllMod/GodotDllModifier.cs:476-483 | `_Ready` keeps its position and runs the fragment followed by its old code; no other method changes |
| Passes.InsertIntoReadySpec | GodotCSUtils.DllMod/GodotDllModifier.cs:205-210 | after get-or-create and insert, `_Ready` exists and runs the code, then its old code; nothing else changes |
| Passes.SetLinkPath | GodotCSUtils.DllMod/GodotDllModifier.cs:228-230 | the node path of a `[Get]` or `[Autoload]` marker, stated by `Passes.SetLinkPathSpec` |
| Passes.SetLinkStep | GodotCSUtils.DllMod/GodotDllModifier.cs:224-239 | one iteration of the set-link loop; its outcome is `Passes.SetLinkStepSpec` and `Passes.SetLinkStepValid` |
| Passes.SetLinkPathSpec | GodotCSUtils.DllMod/GodotDllModifier.cs:199-238 | `[Get]` uses its argument, or the member name when that is null; `[Autoload]` uses `/root/` followed by the same choice |
| Passes.SetLinkStepSpec | GodotCSUtils.DllMod/GodotDllModifier.cs:222-240 | an unmarked member changes nothing; a marked one puts its set-link code, with fresh labels, in front of `_Ready`'s code; fields, properties and other methods unchanged |
| Passes.SetLinkStepValid | GodotCSUtils.DllMod/GodotDllModifier.cs:222-240 | one set-link step only grows the class and keeps it well formed |
| Passes.ExportedName | GodotCSUtils.DllMod/GodotDllModifier.cs:321-322 | the first `[ExportRename]` argument when the member has that attribute and the argument is not null; otherwise the member's name |
| Passes.ExportHint | GodotCSUtils.DllMod/GodotDllModifier.cs:335-340 | the `[Export]` hint string when not null; otherwise "Link to field 'name'" or "Link to property 'name'" |
| Passes.EditorLinkField | GodotCSUtils.DllMod/GodotDllModifier.cs:454-474 | the injected field is public, of type `NodePath`, has the chosen name and carries `[Export(PropertyHint 0, hint)]` |
| Passes.ExportAttrOf | GodotCSUtils.DllMod/GodotDllModifier.cs:314-319 | `None` for a member whose type does not derive from `Node`; for a node-typed member, the first `[Export]` attribute (`GetFieldAttribute`), `None` iff it has none |
| Passes.WithFieldAndReadyCodeSpec | GodotCSUtils.DllMod/GodotDllModifier.cs:342-349 | the field is appended and the code goes in front of `_Ready`; nothing else changes |
| Passes.ApplyEditorLinkMembers | GodotCSUtils.DllMod/GodotDllModifier.cs:333-345 | the member loses exactly its `[Export]` attribute; exactly one field is appended, with the selected name and the hint; other members' attributes unchanged |
| Passes.ApplyEditorLinkReady | GodotCSUtils.DllMod/GodotDllModifier.cs:342-349 | `_Ready` runs the editor-link code for the member, with fresh labels, then its old code |
| Passes.EditorStep | GodotCSUtils.DllMod/GodotDllModifier.cs:314-349 | one iteration of the editor-link loop; its outcome is `Passes.EditorStepSpec`, `Passes.ApplyEditorLinkMembers` and `Passes.ApplyEditorLinkReady` |
| Passes.LinkedReady | GodotCSUtils.DllMod/GodotDllModifier.cs:205-208 | a valid class with a linked member has an existing `_Ready` with a first instruction to insert before, or has none yet |
| Passes.EditorStepSpec | GodotCSUtils.DllMod/GodotDllModifier.cs:312-350 | nothing changes for a member that is not node-typed or has no `[Export]`, or when no unused name is found; otherwise the link is made with an unused name |
| Passes.ApplyEditorLinkMarkers | GodotCSUtils.DllMod/GodotDllModifier.cs:333-345 | the edited class's marker attributes stay well formed, including the new field's `[Export]` |
| Passes.EditorStepValid | GodotCSUtils.DllMod/GodotDllModifier.cs:312-350 | one editor step only grows the class and keeps it well formed |
| Passes.EditorStepPrepends | GodotCSUtils.DllMod/GodotDllModifier.cs:342-349 | after an editor step `_Ready`'s code ends with the old code, stays closed if it was, and other methods are unchanged |
| Passes.SetLinkStepPrepends | GodotCSUtils.DllMod/GodotDllModifier.cs:234-239 | after a set-link step `_Ready`'s code ends with the old code, stays closed if it was, and other methods are unchanged |
| Passes.Over | GodotCSUtils.DllMod/GodotDllModifier.cs:193-211 | a pass over a member list only grows the class and keeps it well formed |
| Passes.OverSnoc | GodotCSUtils.DllMod/GodotDllModifier.cs:193-211 | a pass over one more member is one more step on the result |
| Passes.OverPrepends | GodotCSUtils.DllMod/GodotDllModifier.cs:193-211 | after a whole pass `_Ready` ends with its old code, stays closed if it was, and other methods are unchanged |
| Passes.SetLinkPassSpec | GodotCSUtils.DllMod/GodotDllModifier.cs:214-241 | a `[Get]` or `[Autoload]` pass leaves `_Ready` running the reference code `SetLinkPassCode`: each marked member's code in front of the code of the members before it |
| Passes.RunPassPrepends | GodotCSUtils.DllMod/GodotDllModifier.cs:497-502 | an enabled or disabled pass only prepends to `_Ready` |
| Passes.ClassPass | GodotCSUtils.DllMod/GodotDllModifier.cs:495-503 | the three passes of a node class only grow it and keep it well formed |
| Passes.ClassPassOrder | GodotCSUtils.DllMod/GodotDllModifier.cs:489-503 | Get, then Editor, then Autoload, each only when its attribute type resolved; the final `_Ready` is the autoload code, then the editor code, then the `[Get]` code, then the old body |
| Passes.ModifiedTypes | GodotCSUtils.DllMod/GodotDllModifier.cs:485-511 | as many types as before, all still well formed |
| Passes.ModifiedTypesSpec | GodotCSUtils.DllMod/GodotDllModifier.cs:485-511 | every type only grows and only gets code prepended to `_Ready`; non-node types are unchanged; closed bodies stay closed |
| DllModifier.GodotDllModifier.GetOrCreateReadyMethod | GodotCSUtils.DllMod/GodotDllModifier.cs:166-183 | the type definition becomes `WithReadyMethod` of its old value and the returned position is that method's |
| DllModifier.GodotDllModifier.InsertInstructionsIntoExistingMethod | GodotCSUtils.DllMod/GodotDllModifier.cs:476-483 | inserting each instruction, last first, before the current first one leaves the fragment followed by the old body |
| DllModifier.GodotDllModifier.InjectEditorLinkField | GodotCSUtils.DllMod/GodotDllModifier.cs:454-474 | exactly the field `EditorLinkField` is appended, and it is returned |
| DllModifier.GodotDllModifier.ProcessSetLink | GodotCSUtils.DllMod/GodotDllModifier.cs:222-240 | one loop iteration of the `[Get]` or `[Autoload]` processor equals `SetLinkStep`; the cached `_Ready` stays valid |
| DllModifier.GodotDllModifier.ProcessGetLinks | GodotCSUtils.DllMod/GodotDllModifier.cs:214-241 | the class becomes the `[Get]` pass over its members as they were at the start |
| DllModifier.GodotDllModifier.ProcessAutoloadLinks | GodotCSUtils.DllMod/GodotDllModifier.cs:185-212 | the class becomes the `[Autoload]` pass over its members as they were at the start |
| DllModifier.GodotDllModifier.ProcessEditorLink | GodotCSUtils.DllMod/GodotDllModifier.cs:312-350 | one loop iteration of the editor processor equals `EditorStep`; the cached `_Ready` stays valid |
| DllModifier.GodotDllModifier.ProcessEditorLinks | GodotCSUtils.DllMod/GodotDllModifier.cs:304-351 | the class becomes the editor pass over its members as they were at the start |
| DllModifier.GodotDllModifier.ProcessNodeClass | GodotCSUtils.DllMod/GodotDllModifier.cs:495-503 | the loop body of `ModifyDll` turns the class into `ClassPass` of it |
| DllModifier.GodotDllModifier.ModifyDll | GodotCSUtils.DllMod/GodotDllModifier.cs:485-511 | edits the type definitions in place so that they hold `ModifiedTypes` of the old module and the module stays well formed |

## Left out

- Reading and writing the assembly are left out: `ReadTargetAssembly`, the resolver setup, `GetResolvedType` and `_targetModule.Write` (GodotDllModifier.cs:50-106, 505-510). The handles they produce are the parameters in `Config`. An optional type that is not found is `None`, matching `GetResolvedType`'s null.
- Cecil object identity and `.Resolve()` are left out. Types are full names, methods are `MethodRef` values, fields are referenced by name, and members by position. Only the `nop` labels of `Branch` carry an identity.
- The `printNotSetMessageInstructions` objects appear twice in the editor-link path check (GodotDllModifier.cs:403-415). The model is a value sequence and copies them. It does not catch that Cecil would insert the same two instruction objects twice, and it makes no claim of IL validity for that fragment.
- The runtime behaviour of CIL and of Godot (`GetNodeOrNull`, `PushError`, `NodePath.IsEmpty`) is left out. Calls are uninterpreted instructions, and only the shapes of the fragments are stated.
- Scanner.HasBaseClass: the source recurses with no cycle guard and would not terminate on a cyclic base-type map. The model takes at most `fuel` steps, and `IsNodeType` uses one step per map entry. When the chain ends within the bound, the walk decides exactly whether the base type is on the chain (`Scanner.HasBaseClassComplete`). By pigeonhole, an acyclic chain ends within `|parent| + 1` steps (`Scanner.AcyclicChainEnds`). So on an acyclic chain `IsNodeType` agrees with the source's unbounded walk (`Scanner.IsNodeTypeExact`). A cyclic chain on which `Node` does not occur would hang the source; on such a chain the model answers false.
- Scanner.GetFieldAttribute: an unresolved marker type (`None`) matches no attribute. In the source, `GetResolvedType` returns null when the module never references the marker (GodotDllModifier.cs:96-101). `GetFieldAttribute` then compares each `AttributeType.Resolve()` with null (GodotDllModifier.cs:160). It returns the first attribute whose type does not resolve, and `ProcessEditorLinks` would read that attribute's first argument as the exported name (GodotDllModifier.cs:321-322). The model does not represent attribute types that fail to resolve, so it never picks such an attribute.
- Passes.ReadyStub: a created `_Ready` is public and virtual with the body `[ret]`. `MethodDef` has no place for the `HideBySig` flag or the `void` return type that the source also sets (GodotDllModifier.cs:171-174).
- The `throw` for a member that is neither a field nor a property (GodotDllModifier.cs:128, 264-265, 393) cannot happen here, because `MemberRef` has only those two cases.
- DllModifier.GodotDllModifier.InsertInstructionsIntoExistingMethod: requires a non-empty body when the fragment is non-empty. The source reads `Instructions[0]` and would throw on an empty body.
- DllModifier.GodotDllModifier.ModifyDll: requires `Passes.ValidModule`, which constrains node classes only. It requires a node class that has a `Linked` member to have an existing `_Ready` with a non-empty body (`Passes.ValidClass`, `Passes.HasLinks`). A `Linked` member carries `[Get]`, `[Autoload]`, or `[Export]` on a node-typed member. The empty body also stands for a `_Ready` that has no body at all (abstract, or declared in an interface). Cecil gives such a method a null `Body`, and the source would throw at `readyMethod.Body.GetILProcessor()` (GodotDllModifier.cs:208, 237, 347) for such a class. One case is excluded that the source handles: an `[Export]` on a node-typed member for which no unused name is found. The source skips that member (GodotDllModifier.cs:326-331) without touching `_Ready`.
- The processors require the marker attributes of node classes to be well formed (`Passes.AttrWellFormed`). This covers the argument count and that the argument read is a string. The source indexes and casts the arguments and would throw otherwise, but the C# compiler always emits these attributes in that form.
- `Console.WriteLine` logging (GodotDllModifier.cs:329) is left out.
- `GetNodeClasses` is lazy in the source. The model computes the list up front. The passes change no type's identity or base type, so the two agree.
- `ModifyDllTask.cs` (the MSBuild wrapper), `Attributes.cs` (attribute declarations) and the Demo are not part of this model.
- `exportedName` is a parameter of `GenerateEditorLinkInstructions` that the source never uses. The model keeps it, also unused.
- Some methods have no counterpart in the source. They are its loop bodies or repeated snippets, split out so each one is proved on its own:
  - `CachedReadyMethod` (the `readyMethod == null` cache);
  - `LinkSetMember`, `LinkEditorMember` and `AddExportedField`;
  - `ProcessSetLinks`, shared by `[Get]` and `[Autoload]`;
  - `RunPassOn` and `ProcessNodeClass`;
  - `EmitMemberNullChecks`, `EmitNodePathChecks` and `EmitEditorLinkChecks`.
