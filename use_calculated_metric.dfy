/** The formula store (`useCalculatedMetric`): the operand list and the metric
    name, the operations that replace them, and the label the formula is saved under. */
module UseCalculatedMetric {
  import opened Wrappers
  import opened Text
  import opened Seqs
  import opened CalculatedMetricTypes

  /** `Omit<Operand, 'id'>`: what a caller hands to `addOperand`. */
  datatype OperandSpec = OperandSpec(
    kind: OperandType,
    labelText: string,
    value: Option<OperandValue>,
    source: Option<string>,
    operator: Option<OperatorType>)

  /** The caller-supplied part of an operand. */
  function SpecOf(o: Operand): OperandSpec {
    OperandSpec(o.kind, o.labelText, o.value, o.source, o.operator)
  }

  /** `{...spec, id}`. */
  function WithId(spec: OperandSpec, id: string): (o: Operand)
    ensures o.id == id && SpecOf(o) == spec
  {
    Operand(id, spec.kind, spec.labelText, spec.value, spec.source, spec.operator)
  }

  /** The new list after `addOperand(spec)` with generated id `freshId`. */
  function AppendOperand(ops: seq<Operand>, spec: OperandSpec, freshId: string): (r: seq<Operand>)
    ensures |r| == |ops| + 1
    ensures r[..|ops|] == ops
    ensures r[|ops|].id == freshId && SpecOf(r[|ops|]) == spec
  {
    ops + [WithId(spec, freshId)]
  }

  /** An id that is really fresh keeps the operand ids distinct. */
  lemma AppendKeepsIdsDistinct(ops: seq<Operand>, spec: OperandSpec, freshId: string)
    requires KeysDistinct(ops, OperandId) && !HasKey(ops, OperandId, freshId)
    ensures KeysDistinct(AppendOperand(ops, spec, freshId), OperandId)
  {
    var r := AppendOperand(ops, spec, freshId);
    forall i, j | 0 <= i < j < |r| ensures OperandId(r[i]) != OperandId(r[j]) {
      assert r[i] == ops[i];
      if j < |ops| {
        assert r[j] == ops[j];
      }
    }
  }

  /** `Partial<Operand>`: `None` leaves a key out; for an optional key,
      `Some(None)` is the key present with the value `undefined`. */
  datatype OperandUpdate = OperandUpdate(
    id: Option<string>,
    kind: Option<OperandType>,
    labelText: Option<string>,
    value: Option<Option<OperandValue>>,
    source: Option<Option<string>>,
    operator: Option<Option<OperatorType>>)

  /** `{...o, ...u}`: every key present in `u` wins, every other key keeps
      its value. */
  function Overlay(o: Operand, u: OperandUpdate): (r: Operand)
    ensures (u.id.Some? ==> r.id == u.id.value) && (u.kind.Some? ==> r.kind == u.kind.value)
    ensures (u.labelText.Some? ==> r.labelText == u.labelText.value) && (u.value.Some? ==> r.value == u.value.value)
    ensures (u.source.Some? ==> r.source == u.source.value) && (u.operator.Some? ==> r.operator == u.operator.value)
    ensures (u.id.None? ==> r.id == o.id) && (u.kind.None? ==> r.kind == o.kind)
    ensures (u.labelText.None? ==> r.labelText == o.labelText) && (u.value.None? ==> r.value == o.value)
    ensures (u.source.None? ==> r.source == o.source) && (u.operator.None? ==> r.operator == o.operator)
  {
    Operand(
      u.id.GetOr(o.id),
      u.kind.GetOr(o.kind),
      u.labelText.GetOr(o.labelText),
      u.value.GetOr(o.value),
      u.source.GetOr(o.source),
      u.operator.GetOr(o.operator))
  }

  /** The update that names every key of `p`. */
  function FullUpdate(p: Operand): OperandUpdate {
    OperandUpdate(Some(p.id), Some(p.kind), Some(p.labelText), Some(p.value), Some(p.source), Some(p.operator))
  }

  /** An empty update is the identity, an update that names every key replaces
      the operand, and applying an update twice is the same as applying it once. */
  lemma OverlayLaws(o: Operand, p: Operand, u: OperandUpdate)
    ensures Overlay(o, OperandUpdate(None, None, None, None, None, None)) == o
    ensures Overlay(o, FullUpdate(p)) == p
    ensures Overlay(Overlay(o, u), u) == Overlay(o, u)
  {
  }

  /** The new list after `updateOperand(id, u)`. */
  function UpdateOperandById(ops: seq<Operand>, id: string, u: OperandUpdate): (r: seq<Operand>)
    ensures |r| == |ops|
    ensures forall i :: 0 <= i < |ops| ==> r[i] == if ops[i].id == id then Overlay(ops[i], u) else ops[i]
    ensures !HasKey(ops, OperandId, id) ==> r == ops
  {
    UpdateKey(ops, OperandId, id, (o: Operand) => Overlay(o, u))
  }

  /** The new list after `removeOperand(id)`: every operand with that id is gone,
      every other one is kept, as many times as before, in its relative order
      and with its operator as it was. */
  function RemoveOperandById(ops: seq<Operand>, id: string): (r: seq<Operand>)
    ensures forall i :: 0 <= i < |r| ==> r[i].id != id
    ensures forall o :: o in r ==> o in ops
    ensures forall o :: o in ops && o.id != id ==> multiset(r)[o] == multiset(ops)[o]
    ensures SubsequenceOf(r, ops)
    ensures !HasKey(ops, OperandId, id) ==> r == ops
  {
    RemoveKeyCounts(ops, OperandId, id);
    RemoveKey(ops, OperandId, id)
  }

  /** Removing the head does not clear the operator of the new head. */
  lemma RemoveKeepsNewHeadOperator()
    ensures var a := Operand("a", MetricKind, "A", None, None, None);
            var b := Operand("b", MetricKind, "B", None, None, Some(Add));
            RemoveOperandById([a, b], "a") == [b]
  {
    var a := Operand("a", MetricKind, "A", None, None, None);
    var b := Operand("b", MetricKind, "B", None, None, Some(Add));
    assert [a, b][1..] == [b];
    assert [b][1..] == [];
  }

  /** The new list after `updateOperator(id, op)`; index 0 is not guarded. */
  function SetOperatorById(ops: seq<Operand>, id: string, op: OperatorType): (r: seq<Operand>)
    ensures |r| == |ops|
    ensures forall i :: 0 <= i < |ops| ==>
      r[i] == if ops[i].id == id then ops[i].(operator := Some(op)) else ops[i]
    ensures !HasKey(ops, OperandId, id) ==> r == ops
  {
    UpdateKey(ops, OperandId, id, (o: Operand) => o.(operator := Some(op)))
  }

  /** The new list after `reorderOperands(activeId, overId)` when both ids are
      present: a stable move from the first index of `activeId` to the first
      index of `overId`. */
  function ReorderById(ops: seq<Operand>, activeId: string, overId: string): (r: seq<Operand>)
    requires HasKey(ops, OperandId, activeId) && HasKey(ops, OperandId, overId)
    ensures |r| == |ops|
    ensures var from, to := FindIndex(ops, OperandId, activeId), FindIndex(ops, OperandId, overId);
            r[to] == ops[from] && RemoveAt(r, to) == RemoveAt(ops, from)
    ensures multiset(r) == multiset(ops)
  {
    var from, to := FindIndex(ops, OperandId, activeId), FindIndex(ops, OperandId, overId);
    ArrayMovePermutes(ops, from, to);
    ArrayMove(ops, from, to)
  }

  /** Reordering an operand onto itself leaves the list as it was, so the
      drag handler's `active.id !== over.id` guard skips only a call that
      would change nothing. */
  lemma ReorderOntoItselfKeepsList(ops: seq<Operand>, id: string)
    requires HasKey(ops, OperandId, id)
    ensures ReorderById(ops, id, id) == ops
  {
    ArrayMoveSameIndex(ops, FindIndex(ops, OperandId, id));
  }

  /** `${v}` for an optional operand value: an absent value prints as the
      word `undefined`, a text as itself, a number as its JavaScript text. */
  function ValueText(v: Option<OperandValue>): (r: string)
    ensures v.None? ==> r == "undefined"
    ensures v.Some? && v.value.TextValue? ==> r == v.value.s
    ensures v.Some? && v.value.NumberValue? ==> r == v.value.n.text
  {
    match v
    case None => "undefined"
    case Some(TextValue(s)) => s
    case Some(NumberValue(n)) => n.text
  }

  /** What an operand shows as: `[value]` for a constant, its label otherwise. */
  function DisplayLabel(o: Operand): (r: string)
    ensures o.kind == ConstantKind ==>
      |r| >= 2 && r[0] == '[' && r[|r| - 1] == ']' && r[1..|r| - 1] == ValueText(o.value)
    ensures o.kind != ConstantKind ==> r == o.labelText
  {
    if o.kind == ConstantKind then "[" + ValueText(o.value) + "]" else o.labelText
  }

  /** The multiply glyph of the saved label, as the source spells it
      (U+00C3 U+2014, not U+00D7). */
  const HookMultiplyGlyph: string := "\U{00C3}\U{2014}"

  function HookSymbol(op: OperatorType): string {
    match op
    case Add => "+"
    case Subtract => "-"
    case Multiply => HookMultiplyGlyph
  }

  /** The term an operand contributes at `index`: its bare label at index 0,
      otherwise its symbol (an absent operator counting as add), a space, the label. */
  function Term(o: Operand, index: nat): (r: string)
    ensures r == DisplayLabel(o) <==> index == 0
    ensures index > 0 ==> |r| == |HookSymbol(o.operator.GetOr(Add))| + 1 + |DisplayLabel(o)|
  {
    if index == 0 then DisplayLabel(o)
    else HookSymbol(o.operator.GetOr(Add)) + " " + DisplayLabel(o)
  }

  function Terms(ops: seq<Operand>): (r: seq<string>)
    ensures |r| == |ops|
    ensures forall i :: 0 <= i < |ops| ==> r[i] == Term(ops[i], i)
  {
    seq(|ops|, i requires 0 <= i < |ops| => Term(ops[i], i))
  }

  /** `getFormulaPreview()`: the terms joined by single spaces, `''` for none.
      The label opens with the head's bare display label. */
  function FormulaPreview(ops: seq<Operand>): (r: string)
    ensures |ops| == 0 ==> r == ""
    ensures |ops| == 1 ==> r == DisplayLabel(ops[0])
    ensures |ops| > 0 ==> |r| >= |DisplayLabel(ops[0])| && r[..|DisplayLabel(ops[0])|] == DisplayLabel(ops[0])
  {
    if |ops| == 0 then ""
    else
      JoinStartsWithFirst(" ", Terms(ops));
      Join(" ", Terms(ops))
  }

  /** The label grows term by term: a single operand shows its display label,
      and each further operand adds a space, its symbol, a space and its label. */
  lemma PreviewByAppending(ops: seq<Operand>, o: Operand)
    ensures FormulaPreview([]) == ""
    ensures FormulaPreview([o]) == DisplayLabel(o)
    ensures |ops| > 0 ==>
      FormulaPreview(ops + [o]) == FormulaPreview(ops) + " " + HookSymbol(o.operator.GetOr(Add)) + " " + DisplayLabel(o)
  {
    if |ops| > 0 {
      var t := HookSymbol(o.operator.GetOr(Add)) + " " + DisplayLabel(o);
      assert Terms(ops + [o]) == Terms(ops) + [t] by {
        assert Term(o, |ops|) == t;
        assert Terms(ops + [o])[|ops|] == Term(o, |ops|);
      }
      assert FormulaPreview(ops + [o]) == Join(" ", Terms(ops)) + " " + t by {
        JoinSnoc(" ", Terms(ops), t);
      }
    }
  }

  /** Adding an operand extends the saved label by that operand's term. */
  lemma PreviewAfterAppend(ops: seq<Operand>, spec: OperandSpec, freshId: string)
    requires |ops| > 0
    ensures FormulaPreview(AppendOperand(ops, spec, freshId)) ==
      FormulaPreview(ops) + " " + Term(WithId(spec, freshId), |ops|)
  {
    PreviewByAppending(ops, WithId(spec, freshId));
  }

  /** The operator of the operand at index 0 never shows in the label. */
  lemma PreviewIgnoresHeadOperator(ops: seq<Operand>, op: Option<OperatorType>)
    requires |ops| > 0
    ensures FormulaPreview(ops[0 := ops[0].(operator := op)]) == FormulaPreview(ops)
  {
    assert Terms(ops[0 := ops[0].(operator := op)]) == Terms(ops);
  }

  /** After index 0, an absent operator renders exactly as add. */
  lemma PreviewAbsentOperatorIsAdd(ops: seq<Operand>, i: nat)
    requires 0 < i < |ops|
    ensures FormulaPreview(ops[i := ops[i].(operator := None)]) ==
            FormulaPreview(ops[i := ops[i].(operator := Some(Add))])
  {
    assert Terms(ops[i := ops[i].(operator := None)]) == Terms(ops[i := ops[i].(operator := Some(Add))]);
  }

  /** Setting the operator of the head operand (which `updateOperator` allows)
      leaves the label as it was. */
  lemma SetHeadOperatorKeepsPreview(ops: seq<Operand>, op: OperatorType)
    requires |ops| > 0 && KeysDistinct(ops, OperandId)
    ensures FormulaPreview(SetOperatorById(ops, ops[0].id, op)) == FormulaPreview(ops)
  {
    var r := SetOperatorById(ops, ops[0].id, op);
    forall i | 0 < i < |ops| ensures r[i] == ops[i] {
      assert OperandId(ops[0]) != OperandId(ops[i]);
    }
    assert r == ops[0 := ops[0].(operator := Some(op))];
    PreviewIgnoresHeadOperator(ops, Some(op));
  }

  /** `isValid()`: at least two operands and a name that is not blank. A
      formula is valid exactly when it has two operands and a name with a
      character that is not whitespace. */
  predicate IsValidFormula(ops: seq<Operand>, metricName: string): (r: bool)
    ensures r <==> |ops| >= 2 && exists i :: 0 <= i < |metricName| && !IsJsWhitespace(metricName[i])
  {
    BlankIffAllWhitespace(metricName);
    |ops| >= 2 && !IsBlank(metricName)
  }

  /** Removing, re-operating and reordering keep operand ids distinct. */
  lemma EditsKeepIdsDistinct(ops: seq<Operand>, id: string, op: OperatorType, activeId: string, overId: string)
    requires KeysDistinct(ops, OperandId)
    ensures KeysDistinct(RemoveOperandById(ops, id), OperandId)
    ensures KeysDistinct(SetOperatorById(ops, id, op), OperandId)
    ensures HasKey(ops, OperandId, activeId) && HasKey(ops, OperandId, overId) ==>
      KeysDistinct(ReorderById(ops, activeId, overId), OperandId)
  {
    RemoveKeyKeepsDistinct(ops, OperandId, id);
    var s := SetOperatorById(ops, id, op);
    forall i, j | 0 <= i < j < |s| ensures OperandId(s[i]) != OperandId(s[j]) {
      assert OperandId(ops[i]) != OperandId(ops[j]);
    }
    if HasKey(ops, OperandId, activeId) && HasKey(ops, OperandId, overId) {
      ArrayMoveKeepsDistinct(ops, FindIndex(ops, OperandId, activeId), FindIndex(ops, OperandId, overId), OperandId);
    }
  }

  /** The state of `useCalculatedMetric`: each callback replaces the list or
      the name by a new value computed from the old one. */
  class CalculatedMetricStore {
    var operands: seq<Operand>
    var metricName: string

    constructor ()
      ensures operands == [] && metricName == ""
    {
      operands := [];
      metricName := "";
    }

    /** `setMetricName`. */
    method SetMetricName(name: string)
      modifies this
      ensures metricName == name && operands == old(operands)
    {
      metricName := name;
    }

    method AddOperand(spec: OperandSpec, freshId: string)
      modifies this
      ensures operands == AppendOperand(old(operands), spec, freshId)
      ensures metricName == old(metricName)
      ensures old(KeysDistinct(operands, OperandId)) && !old(HasKey(operands, OperandId, freshId)) ==>
        KeysDistinct(operands, OperandId)
    {
      if KeysDistinct(operands, OperandId) && !HasKey(operands, OperandId, freshId) {
        AppendKeepsIdsDistinct(operands, spec, freshId);
      }
      operands := AppendOperand(operands, spec, freshId);
    }

    method UpdateOperand(id: string, updates: OperandUpdate)
      modifies this
      ensures operands == UpdateOperandById(old(operands), id, updates)
      ensures metricName == old(metricName)
    {
      operands := UpdateOperandById(operands, id, updates);
    }

    method RemoveOperand(id: string)
      modifies this
      ensures operands == RemoveOperandById(old(operands), id)
      ensures metricName == old(metricName)
    {
      operands := RemoveOperandById(operands, id);
    }

    method UpdateOperator(id: string, op: OperatorType)
      modifies this
      ensures operands == SetOperatorById(old(operands), id, op)
      ensures metricName == old(metricName)
    {
      operands := SetOperatorById(operands, id, op);
    }

    method ReorderOperands(activeId: string, overId: string)
      requires HasKey(operands, OperandId, activeId) && HasKey(operands, OperandId, overId)
      modifies this
      ensures operands == ReorderById(old(operands), activeId, overId)
      ensures metricName == old(metricName)
    {
      operands := ReorderById(operands, activeId, overId);
    }

    /** `getFormulaPreview()` on the current list. */
    function GetFormulaPreview(): string
      reads this
    {
      FormulaPreview(operands)
    }

    /** `isValid()` on the current state. */
    predicate IsValid()
      reads this
    {
      IsValidFormula(operands, metricName)
    }

    method Reset()
      modifies this
      ensures operands == [] && metricName == ""
    {
      operands := [];
      metricName := "";
    }
  }
}
