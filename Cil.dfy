/**
 * The part of the Mono.Cecil.Cil instruction model that the rewriter uses.
 *
 * A Cecil instruction is an object, and a branch names its target by
 * reference to another instruction object. Here only the instructions that
 * serve as branch targets carry an identity: a `Label(id)` is a `nop` whose
 * object identity is the number `id`, and a branch carries the id of its
 * target as its operand.
 */
module Cil {

  /** A type, by its full name. */
  type TypeId = string

  /** A method reference: declaring type and simple name. */
  datatype MethodRef = MethodRef(declaringType: TypeId, name: string)

  datatype OpCode =
    | Nop | Ldarg0 | Ldnull | Ldstr | Ldfld | Stfld | Call | Callvirt
    | Isinst | Ceq | BrfalseS | BrtrueS | BrS | Ret

  datatype Operand =
    | NoOperand
    | StringOperand(s: string)
    | MethodOperand(callee: MethodRef)
    | FieldOperand(field: string)
    | TypeOperand(typ: TypeId)
    | TargetOperand(target: nat)

  datatype Instr =
    | Plain(op: OpCode, operand: Operand)
    /** A `nop` with identity `id`, created to be the target of a branch. */
    | Label(id: nat)

  /** A position-independent instruction sequence. */
  type Fragment = seq<Instr>

  predicate IsBranchOp(op: OpCode) {
    op == BrfalseS || op == BrtrueS || op == BrS
  }

  /** A fragment without branches and without labels. */
  predicate Straight(f: Fragment) {
    forall k :: 0 <= k < |f| ==> f[k].Plain? && !IsBranchOp(f[k].op) && !f[k].operand.TargetOperand?
  }

  /** The ids of the labels defined in `f`. */
  function Marks(f: Fragment): set<nat> {
    if f == [] then {} else (if f[0].Label? then {f[0].id} else {}) + Marks(f[1..])
  }

  /** The label ids that instructions of `f` jump to. */
  function Targets(f: Fragment): set<nat> {
    if f == [] then {}
    else (if f[0].Plain? && f[0].operand.TargetOperand? then {f[0].operand.target} else {}) + Targets(f[1..])
  }

  /** How many times label `l` is defined in `f`. */
  function LabelCount(f: Fragment, l: nat): nat {
    if f == [] then 0 else (if f[0] == Label(l) then 1 else 0) + LabelCount(f[1..], l)
  }

  /** Every label is defined at most once and every jump target is defined: the
      fragment can be placed anywhere without its jumps leaving it. */
  ghost predicate Closed(f: Fragment) {
    (forall l :: LabelCount(f, l) <= 1) && Targets(f) <= Marks(f)
  }

  /** All label ids that occur in `f` (defined or jumped to) are in [lo, hi). */
  ghost predicate LabelsWithin(f: Fragment, lo: nat, hi: nat) {
    (forall l :: l in Marks(f) ==> lo <= l < hi) && (forall l :: l in Targets(f) ==> lo <= l < hi)
  }

  /** A label id above every label id that occurs in `f`. */
  function NextFreeLabel(f: Fragment): (n: nat)
    ensures forall l :: l in Marks(f) ==> l < n
    ensures forall l :: l in Targets(f) ==> l < n
  {
    if f == [] then 0
    else
      var rest := NextFreeLabel(f[1..]);
      var own := if f[0].Label? then f[0].id + 1
        else if f[0].operand.TargetOperand? then f[0].operand.target + 1
        else 0;
      assert Marks(f) + Targets(f) <= Marks(f[1..]) + Targets(f[1..]) + {own - 1};
      if own > rest then own else rest
  }

  lemma {:induction false} MarksAppend(a: Fragment, b: Fragment)
    ensures Marks(a + b) == Marks(a) + Marks(b)
    ensures Targets(a + b) == Targets(a) + Targets(b)
  {
    if a != [] {
      assert (a + b)[1..] == a[1..] + b;
      MarksAppend(a[1..], b);
    } else {
      assert a + b == b;
    }
  }

  lemma {:induction false} LabelCountAppend(a: Fragment, b: Fragment, l: nat)
    ensures LabelCount(a + b, l) == LabelCount(a, l) + LabelCount(b, l)
  {
    if a != [] {
      assert (a + b)[1..] == a[1..] + b;
      LabelCountAppend(a[1..], b, l);
    } else {
      assert a + b == b;
    }
  }

  lemma {:induction false} LabelCountMarks(f: Fragment, l: nat)
    ensures LabelCount(f, l) > 0 <==> l in Marks(f)
  {
    if f != [] {
      LabelCountMarks(f[1..], l);
    }
  }

  lemma {:induction false} StraightHasNoLabels(f: Fragment)
    requires Straight(f)
    ensures Marks(f) == {} && Targets(f) == {}
    ensures Closed(f)
  {
    if f != [] {
      StraightHasNoLabels(f[1..]);
    }
    forall l ensures LabelCount(f, l) <= 1 {
      LabelCountMarks(f, l);
    }
  }

  lemma StraightAppend(a: Fragment, b: Fragment)
    requires Straight(a) && Straight(b)
    ensures Straight(a + b)
  {
  }

  /** Closed fragments with disjoint label sets concatenate to a closed fragment. */
  lemma ClosedAppend(a: Fragment, b: Fragment)
    requires Closed(a) && Closed(b)
    requires Marks(a) !! Marks(b)
    ensures Closed(a + b)
    ensures Marks(a + b) == Marks(a) + Marks(b)
  {
    MarksAppend(a, b);
    forall l ensures LabelCount(a + b, l) <= 1 {
      LabelCountAppend(a, b, l);
      LabelCountMarks(a, l);
      LabelCountMarks(b, l);
    }
  }

  /** Closed fragments whose labels lie in adjacent ranges concatenate to a
      closed fragment over the joined range. */
  lemma ClosedAppendWithin(a: Fragment, b: Fragment, lo: nat, mid: nat, hi: nat)
    requires Closed(a) && LabelsWithin(a, lo, mid)
    requires Closed(b) && LabelsWithin(b, mid, hi)
    requires lo <= mid <= hi
    ensures Closed(a + b) && LabelsWithin(a + b, lo, hi)
  {
    ClosedAppend(a, b);
  }
}
