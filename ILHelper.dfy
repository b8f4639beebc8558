/**
 * ILHelper: constructors of small instruction fragments, their
 * concatenation, and the structured conditional `Branch`.
 */
module IL {
  import opened Wrappers
  import opened Cil
  import opened Metadata

  function Nop(): (r: Fragment)
    ensures |r| == 1 && r[0] == Plain(OpCode.Nop, NoOperand) && Straight(r)
  {
    [Plain(OpCode.Nop, NoOperand)]
  }

  /** `ldarg.0`: pushes `this`. */
  function PushThis(): (r: Fragment)
    ensures |r| == 1 && r[0] == Plain(Ldarg0, NoOperand) && Straight(r)
  {
    [Plain(Ldarg0, NoOperand)]
  }

  function PushString(arg: string): (r: Fragment)
    ensures |r| == 1 && r[0] == Plain(Ldstr, StringOperand(arg)) && Straight(r)
  {
    [Plain(Ldstr, StringOperand(arg))]
  }

  function CallMethod(callee: MethodRef): (r: Fragment)
    ensures |r| == 1 && r[0] == Plain(Call, MethodOperand(callee)) && Straight(r)
  {
    [Plain(Call, MethodOperand(callee))]
  }

  function CallMethodVirtual(callee: MethodRef): (r: Fragment)
    ensures |r| == 1 && r[0] == Plain(Callvirt, MethodOperand(callee)) && Straight(r)
  {
    [Plain(Callvirt, MethodOperand(callee))]
  }

  function LoadField(field: FieldDef): (r: Fragment)
    ensures |r| == 1 && r[0] == Plain(Ldfld, FieldOperand(field.name)) && Straight(r)
  {
    [Plain(Ldfld, FieldOperand(field.name))]
  }

  function SetField(field: FieldDef): (r: Fragment)
    ensures |r| == 1 && r[0] == Plain(Stfld, FieldOperand(field.name)) && Straight(r)
  {
    [Plain(Stfld, FieldOperand(field.name))]
  }

  /** A `call` of the property's getter. */
  function LoadProperty(property: PropertyDef): (r: Fragment)
    ensures |r| == 1 && r[0] == Plain(Call, MethodOperand(property.getMethod)) && Straight(r)
  {
    [Plain(Call, MethodOperand(property.getMethod))]
  }

  /** A `call` of the property's setter. */
  function SetProperty(property: PropertyDef): (r: Fragment)
    ensures |r| == 1 && r[0] == Plain(Call, MethodOperand(property.setMethod)) && Straight(r)
  {
    [Plain(Call, MethodOperand(property.setMethod))]
  }

  function IsInstance(typ: TypeId): (r: Fragment)
    ensures |r| == 1 && r[0] == Plain(Isinst, TypeOperand(typ)) && Straight(r)
  {
    [Plain(Isinst, TypeOperand(typ))]
  }

  /** Compares the value on the stack with null. */
  function IsNull(): (r: Fragment)
    ensures |r| == 2 && r[0] == Plain(Ldnull, NoOperand) && r[1] == Plain(Ceq, NoOperand) && Straight(r)
  {
    [Plain(Ldnull, NoOperand), Plain(Ceq, NoOperand)]
  }

  /** The concatenation of `parts`, in order. */
  function Concat(parts: seq<Fragment>): Fragment {
    if parts == [] then [] else parts[0] + Concat(parts[1..])
  }

  lemma {:induction false} ConcatAppend(ps: seq<Fragment>, qs: seq<Fragment>)
    ensures Concat(ps + qs) == Concat(ps) + Concat(qs)
  {
    if ps == [] {
      assert ps + qs == qs;
    } else {
      assert (ps + qs)[1..] == ps[1..] + qs;
      ConcatAppend(ps[1..], qs);
    }
  }

  /** Every argument fragment occurs unmodified in the composition, after the
      earlier arguments and before the later ones. */
  lemma ConcatSplit(ps: seq<Fragment>, j: nat)
    requires j < |ps|
    ensures Concat(ps) == Concat(ps[..j]) + ps[j] + Concat(ps[j + 1..])
  {
    assert ps == ps[..j] + ps[j..];
    ConcatAppend(ps[..j], ps[j..]);
    assert ps[j..][1..] == ps[j + 1..];
  }

  lemma {:induction false} ConcatStraight(ps: seq<Fragment>)
    requires forall j :: 0 <= j < |ps| ==> Straight(ps[j])
    ensures Straight(Concat(ps))
  {
    if ps != [] {
      ConcatStraight(ps[1..]);
      StraightAppend(ps[0], Concat(ps[1..]));
    }
  }

  /** `Concat` of literal argument lists of two to nine fragments. */
  /** Seven consecutive parts between `pre` and `post` may be grouped. */
  lemma GroupSeven(pre: Fragment, a: Fragment, b: Fragment, c: Fragment, d: Fragment, e: Fragment,
                   f: Fragment, g: Fragment, post: Fragment)
    ensures pre + a + b + c + d + e + f + g + post == pre + (a + b + c + d + e + f + g) + post
  {
    assert pre + a + b + c + d + e + f + g == pre + (a + b + c + d + e + f + g);
  }

  lemma ConcatOfTwo(a: Fragment, b: Fragment)
    ensures Concat([a, b]) == a + b
  {
    assert [a, b][1..] == [b];
    assert [b][1..] == [];
    assert Concat([b]) == b + Concat([]);
  }

  lemma ConcatOfThree(a: Fragment, b: Fragment, c: Fragment)
    ensures Concat([a, b, c]) == a + b + c
  {
    assert [a, b, c][1..] == [b, c];
    ConcatOfTwo(b, c);
  }

  lemma ConcatOfFour(a: Fragment, b: Fragment, c: Fragment, d: Fragment)
    ensures Concat([a, b, c, d]) == a + b + c + d
  {
    assert [a, b, c, d][1..] == [b, c, d];
    ConcatOfThree(b, c, d);
  }

  lemma ConcatOfFive(a: Fragment, b: Fragment, c: Fragment, d: Fragment, e: Fragment)
    ensures Concat([a, b, c, d, e]) == a + b + c + d + e
  {
    assert [a, b, c, d, e][1..] == [b, c, d, e];
    ConcatOfFour(b, c, d, e);
  }

  lemma ConcatOfSix(a: Fragment, b: Fragment, c: Fragment, d: Fragment, e: Fragment, f: Fragment)
    ensures Concat([a, b, c, d, e, f]) == a + b + c + d + e + f
  {
    assert [a, b, c, d, e, f][1..] == [b, c, d, e, f];
    ConcatOfFive(b, c, d, e, f);
  }

  lemma ConcatOfSeven(a: Fragment, b: Fragment, c: Fragment, d: Fragment, e: Fragment, f: Fragment, g: Fragment)
    ensures Concat([a, b, c, d, e, f, g]) == a + b + c + d + e + f + g
  {
    assert [a, b, c, d, e, f, g][1..] == [b, c, d, e, f, g];
    ConcatOfSix(b, c, d, e, f, g);
  }

  lemma ConcatOfEight(a: Fragment, b: Fragment, c: Fragment, d: Fragment, e: Fragment, f: Fragment, g: Fragment, h: Fragment)
    ensures Concat([a, b, c, d, e, f, g, h]) == a + b + c + d + e + f + g + h
  {
    assert [a, b, c, d, e, f, g, h][1..] == [b, c, d, e, f, g, h];
    ConcatOfSeven(b, c, d, e, f, g, h);
  }

  lemma ConcatOfNine(a: Fragment, b: Fragment, c: Fragment, d: Fragment, e: Fragment, f: Fragment, g: Fragment, h: Fragment, i: Fragment)
    ensures Concat([a, b, c, d, e, f, g, h, i]) == a + b + c + d + e + f + g + h + i
  {
    assert [a, b, c, d, e, f, g, h, i][1..] == [b, c, d, e, f, g, h, i];
    ConcatOfEight(b, c, d, e, f, g, h, i);
  }

  /** `Compose`: appends each argument fragment to an accumulator. */
  method Compose(instructionsArray: seq<Fragment>) returns (composed: Fragment)
    ensures composed == Concat(instructionsArray)
  {
    composed := [];
    for i := 0 to |instructionsArray|
      invariant composed == Concat(instructionsArray[..i])
    {
      assert instructionsArray[..i + 1] == instructionsArray[..i] + [instructionsArray[i]];
      ConcatAppend(instructionsArray[..i], [instructionsArray[i]]);
      assert Concat([instructionsArray[i]]) == instructionsArray[i] + Concat([]);
      composed := composed + instructionsArray[i];
    }
    assert instructionsArray[..|instructionsArray|] == instructionsArray;
  }

  /** The conditional jump `Branch` emits for a polarity. */
  function JumpOp(condition: bool): OpCode {
    if condition then BrfalseS else BrtrueS
  }

  /** Whether a jump with op code `op` is taken when the value on the stack is `v`. */
  predicate JumpTaken(op: OpCode, v: bool) {
    (op == BrfalseS && !v) || (op == BrtrueS && v) || op == BrS
  }

  /** The ids of the labels `Branch` creates when numbering them from `first`. */
  function NewLabels(elseInstructions: Option<Fragment>, first: nat): set<nat> {
    if elseInstructions.Some? then {first, first + 1} else {first}
  }

  /** How many labels `Branch` creates. */
  function LabelsUsed(elseInstructions: Option<Fragment>): nat {
    if elseInstructions.Some? then 2 else 1
  }

  /** The fragment `Branch` returns when its labels are numbered from `first`:
      with an else part, `first` begins the else block and `first + 1` ends the
      branch; without one, `first` ends it. */
  function BranchFragment(condition: bool, cond: Fragment, body: Fragment,
                          elseInstructions: Option<Fragment>, first: nat): Fragment
  {
    match elseInstructions
    case None =>
      cond + [Plain(JumpOp(condition), TargetOperand(first))] + body + [Label(first)]
    case Some(els) =>
      cond + [Plain(JumpOp(condition), TargetOperand(first))] + body
        + [Plain(BrS, TargetOperand(first + 1))] + [Label(first)] + els + [Label(first + 1)]
  }

  /** Without an else part: the condition, one conditional jump to the end
      label, the body, and the end label as the last instruction. */
  lemma BranchShape(condition: bool, cond: Fragment, body: Fragment, first: nat)
    ensures var r := BranchFragment(condition, cond, body, None, first);
      && |r| == |cond| + |body| + 2
      && r[..|cond|] == cond
      && r[|cond|] == Plain(JumpOp(condition), TargetOperand(first))
      && r[|cond| + 1..|cond| + 1 + |body|] == body
      && r[|r| - 1] == Label(first)
  {
  }

  /** With an else part: the condition, a conditional jump to the else label,
      the body, an unconditional jump to the end label, the else label, the
      else part and the end label as the last instruction. */
  lemma BranchElseShape(condition: bool, cond: Fragment, body: Fragment, els: Fragment, first: nat)
    ensures var r := BranchFragment(condition, cond, body, Some(els), first);
      && |r| == |cond| + |body| + |els| + 4
      && r[..|cond|] == cond
      && r[|cond|] == Plain(JumpOp(condition), TargetOperand(first))
      && r[|cond| + 1..|cond| + 1 + |body|] == body
      && r[|cond| + 1 + |body|] == Plain(BrS, TargetOperand(first + 1))
      && r[|cond| + 2 + |body|] == Label(first)
      && r[|cond| + 3 + |body|..|r| - 1] == els
      && r[|r| - 1] == Label(first + 1)
  {
  }

  /** Polarity: the conditional jump skips the body exactly when the condition's
      value differs from `condition`, so the body runs when they agree. */
  lemma BranchPolarity(condition: bool, v: bool)
    ensures JumpOp(condition) == (if condition then BrfalseS else BrtrueS)
    ensures JumpTaken(JumpOp(condition), v) <==> v != condition
  {
  }

  lemma SingleLabels(i: Instr, l: nat)
    ensures Marks([i]) == (if i.Label? then {i.id} else {})
    ensures Targets([i]) == (if i.Plain? && i.operand.TargetOperand? then {i.operand.target} else {})
    ensures LabelCount([i], l) == if i == Label(l) then 1 else 0
  {
    assert [i][1..] == [];
  }

  /** How often a label is defined in a branch: as often as in its parts, plus
      once if `Branch` created it. */
  lemma BranchLabelCount(condition: bool, cond: Fragment, body: Fragment,
                         elseInstructions: Option<Fragment>, first: nat, l: nat)
    ensures LabelCount(BranchFragment(condition, cond, body, elseInstructions, first), l) ==
      LabelCount(cond, l) + LabelCount(body, l) + LabelCount(elseInstructions.GetOr([]), l)
        + (if l in NewLabels(elseInstructions, first) then 1 else 0)
  {
    var jump := Plain(JumpOp(condition), TargetOperand(first));
    SingleLabels(jump, l);
    SingleLabels(Label(first), l);
    LabelCountAppend(cond, [jump], l);
    LabelCountAppend(cond + [jump], body, l);
    if elseInstructions.None? {
      LabelCountAppend(cond + [jump] + body, [Label(first)], l);
      assert LabelCount([], l) == 0;
    } else {
      var els := elseInstructions.value;
      var br := Plain(BrS, TargetOperand(first + 1));
      SingleLabels(br, l);
      SingleLabels(Label(first + 1), l);
      LabelCountAppend(cond + [jump] + body, [br], l);
      LabelCountAppend(cond + [jump] + body + [br], [Label(first)], l);
      LabelCountAppend(cond + [jump] + body + [br] + [Label(first)], els, l);
      LabelCountAppend(cond + [jump] + body + [br] + [Label(first)] + els, [Label(first + 1)], l);
    }
  }

  lemma BranchMarksNoElse(condition: bool, cond: Fragment, body: Fragment, first: nat)
    ensures var r := BranchFragment(condition, cond, body, None, first);
      && Marks(r) == Marks(cond) + Marks(body) + {first}
      && Targets(r) == Targets(cond) + Targets(body) + {first}
  {
    var jump := Plain(JumpOp(condition), TargetOperand(first));
    SingleLabels(jump, 0);
    SingleLabels(Label(first), 0);
    MarksAppend(cond, [jump]);
    MarksAppend(cond + [jump], body);
    var front := cond + [jump] + body;
    assert Marks(front) == Marks(cond) + Marks(body);
    assert Targets(front) == Targets(cond) + {first} + Targets(body);
    MarksAppend(front, [Label(first)]);
  }

  /** The part of a branch with an else part that comes before the else
      instructions: it defines the else label and jumps to both new labels. */
  lemma BranchElseFront(condition: bool, cond: Fragment, body: Fragment, first: nat)
    ensures var mid := cond + [Plain(JumpOp(condition), TargetOperand(first))] + body
      + [Plain(BrS, TargetOperand(first + 1))] + [Label(first)];
      && Marks(mid) == Marks(cond) + Marks(body) + {first}
      && Targets(mid) == Targets(cond) + Targets(body) + {first, first + 1}
  {
    var jump := Plain(JumpOp(condition), TargetOperand(first));
    var br := Plain(BrS, TargetOperand(first + 1));
    SingleLabels(jump, 0);
    SingleLabels(br, 0);
    SingleLabels(Label(first), 0);
    MarksAppend(cond, [jump]);
    MarksAppend(cond + [jump], body);
    var front := cond + [jump] + body;
    assert Marks(front) == Marks(cond) + Marks(body);
    assert Targets(front) == Targets(cond) + {first} + Targets(body);
    MarksAppend(front, [br]);
    MarksAppend(front + [br], [Label(first)]);
  }

  lemma BranchMarksElse(condition: bool, cond: Fragment, body: Fragment, els: Fragment, first: nat)
    ensures Marks(BranchFragment(condition, cond, body, Some(els), first)) ==
      Marks(cond) + Marks(body) + Marks(els) + {first, first + 1}
  {
    var mid := cond + [Plain(JumpOp(condition), TargetOperand(first))] + body
      + [Plain(BrS, TargetOperand(first + 1))] + [Label(first)];
    BranchElseFront(condition, cond, body, first);
    SingleLabels(Label(first + 1), 0);
    MarksAppend(mid, els);
    MarksAppend(mid + els, [Label(first + 1)]);
  }

  lemma BranchTargetsElse(condition: bool, cond: Fragment, body: Fragment, els: Fragment, first: nat)
    ensures Targets(BranchFragment(condition, cond, body, Some(els), first)) ==
      Targets(cond) + Targets(body) + Targets(els) + {first, first + 1}
  {
    var mid := cond + [Plain(JumpOp(condition), TargetOperand(first))] + body
      + [Plain(BrS, TargetOperand(first + 1))] + [Label(first)];
    BranchElseFront(condition, cond, body, first);
    SingleLabels(Label(first + 1), 0);
    MarksAppend(mid, els);
    MarksAppend(mid + els, [Label(first + 1)]);
  }

  /** The labels a branch defines and jumps to: those of its parts and the new ones. */
  lemma BranchLabelSets(condition: bool, cond: Fragment, body: Fragment,
                        elseInstructions: Option<Fragment>, first: nat)
    ensures var r := BranchFragment(condition, cond, body, elseInstructions, first);
      var els := elseInstructions.GetOr([]);
      && Marks(r) == Marks(cond) + Marks(body) + Marks(els) + NewLabels(elseInstructions, first)
      && Targets(r) == Targets(cond) + Targets(body) + Targets(els) + NewLabels(elseInstructions, first)
  {
    if elseInstructions.None? {
      BranchMarksNoElse(condition, cond, body, first);
      assert Marks([]) == {} && Targets([]) == {};
    } else {
      BranchMarksElse(condition, cond, body, elseInstructions.value, first);
      BranchTargetsElse(condition, cond, body, elseInstructions.value, first);
    }
  }

  /** The labels `Branch` creates are fresh: when its parts use only labels
      below `first`, each new label is defined exactly once in the result. */
  lemma BranchLabelsFresh(condition: bool, cond: Fragment, body: Fragment,
                          elseInstructions: Option<Fragment>, first: nat)
    requires LabelsWithin(cond, 0, first) && LabelsWithin(body, 0, first)
    requires elseInstructions.Some? ==> LabelsWithin(elseInstructions.value, 0, first)
    ensures var r := BranchFragment(condition, cond, body, elseInstructions, first);
      forall l :: l in NewLabels(elseInstructions, first) ==> LabelCount(r, l) == 1
  {
    var els := elseInstructions.GetOr([]);
    assert Marks([]) == {} && Targets([]) == {};
    forall l | l in NewLabels(elseInstructions, first)
      ensures LabelCount(BranchFragment(condition, cond, body, elseInstructions, first), l) == 1
    {
      BranchLabelCount(condition, cond, body, elseInstructions, first, l);
      LabelCountMarks(cond, l);
      LabelCountMarks(body, l);
      LabelCountMarks(els, l);
    }
  }

  /** Closed parts with disjoint labels in [lo, first) give a closed fragment
      whose labels lie in [lo, first + LabelsUsed): branches nest and compose
      without label collisions. */
  lemma BranchClosed(condition: bool, cond: Fragment, body: Fragment,
                     elseInstructions: Option<Fragment>, lo: nat, first: nat)
    requires Closed(cond) && Closed(body) && LabelsWithin(cond, lo, first) && LabelsWithin(body, lo, first)
    requires Marks(cond) !! Marks(body)
    requires elseInstructions.Some? ==>
      var els := elseInstructions.value;
      Closed(els) && LabelsWithin(els, lo, first) && Marks(els) !! Marks(cond) && Marks(els) !! Marks(body)
    requires lo <= first
    ensures var r := BranchFragment(condition, cond, body, elseInstructions, first);
      Closed(r) && LabelsWithin(r, lo, first + LabelsUsed(elseInstructions))
  {
    var r := BranchFragment(condition, cond, body, elseInstructions, first);
    var els := elseInstructions.GetOr([]);
    assert Marks([]) == {} && Targets([]) == {};
    BranchLabelSets(condition, cond, body, elseInstructions, first);
    forall l: nat ensures LabelCount(r, l) <= 1 {
      BranchLabelCount(condition, cond, body, elseInstructions, first, l);
      LabelCountMarks(cond, l);
      LabelCountMarks(body, l);
      LabelCountMarks(els, l);
    }
  }

  /**
   * An `ILHelper` creates the instructions of one method body. Each label it
   * creates is a new `nop` object; `nextLabel` is the identity the next one
   * will get.
   */
  class ILHelper {
    var nextLabel: nat

    constructor (firstFreeLabel: nat)
      ensures nextLabel == firstFreeLabel
    {
      nextLabel := firstFreeLabel;
    }

    /** `_il.Create(OpCodes.Nop)` for a nop that becomes a branch target. */
    method NewLabel() returns (l: Instr)
      modifies this
      ensures l == Label(old(nextLabel)) && nextLabel == old(nextLabel) + 1
    {
      l := Label(nextLabel);
      nextLabel := nextLabel + 1;
    }

    method Branch(condition: bool, conditionInstructions: Fragment, bodyInstructions: Fragment,
                  elseInstructions: Option<Fragment>)
      returns (instructions: Fragment)
      modifies this
      ensures instructions == BranchFragment(condition, conditionInstructions, bodyInstructions,
                                             elseInstructions, old(nextLabel))
      ensures nextLabel == old(nextLabel) + LabelsUsed(elseInstructions)
    {
      instructions := [];
      instructions := instructions + conditionInstructions;
      if elseInstructions.Some? {
        var elseBlockBegin := NewLabel();
        var branchEnd := NewLabel();
        instructions := instructions + [Plain(JumpOp(condition), TargetOperand(elseBlockBegin.id))];
        instructions := instructions + bodyInstructions;
        instructions := instructions + [Plain(BrS, TargetOperand(branchEnd.id))];
        instructions := instructions + [elseBlockBegin];
        instructions := instructions + elseInstructions.value;
        instructions := instructions + [branchEnd];
      } else {
        var branchEnd := NewLabel();
        instructions := instructions + [Plain(JumpOp(condition), TargetOperand(branchEnd.id))];
        instructions := instructions + bodyInstructions;
        instructions := instructions + [branchEnd];
      }
    }
  }
}
