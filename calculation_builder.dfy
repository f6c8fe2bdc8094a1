/** The handlers of the calculation builder: they turn a catalogue pick, a drag
    or a row control into a call on the store; the builder keeps no state. */
module CalculationBuilder {
  import opened Wrappers
  import opened Seqs
  import opened CalculatedMetricTypes
  import opened UseCalculatedMetric

  /** A call the builder makes through one of the callbacks it declares. */
  datatype Command =
    | AddOperandCmd(spec: OperandSpec)                      // onAddOperand
    | UpdateOperatorCmd(id: string, op: OperatorType)       // onUpdateOperator
    | RemoveOperandCmd(id: string)                          // onRemoveOperand
    | ReorderOperandsCmd(activeId: string, overId: string)  // onReorderOperands

  /** `handleSelectMetric(metric)`: an `onAddOperand` call for a metric
      operand, joined by `add` unless the list is empty. */
  function HandleSelectMetric(operands: seq<Operand>, m: Metric): (r: Command)
    ensures r.AddOperandCmd?
    ensures r.spec.kind == MetricKind && r.spec.labelText == m.name && r.spec.source == m.source && r.spec.value.None?
    ensures r.spec.operator == if |operands| > 0 then Some(Add) else None
  {
    AddOperandCmd(OperandSpec(MetricKind, m.name, None, m.source, if |operands| > 0 then Some(Add) else None))
  }

  /** `handleSelectConstant(constant)`: an `onAddOperand` call for a constant
      operand, joined by `multiply` unless the list is empty. */
  function HandleSelectConstant(operands: seq<Operand>, c: Constant): (r: Command)
    ensures r.AddOperandCmd?
    ensures r.spec.kind == ConstantKind && r.spec.labelText == c.name && r.spec.value == Some(NumberValue(c.value))
    ensures r.spec.source.None?
    ensures r.spec.operator == if |operands| > 0 then Some(Multiply) else None
  {
    AddOperandCmd(OperandSpec(ConstantKind, c.name, Some(NumberValue(c.value)), None,
                              if |operands| > 0 then Some(Multiply) else None))
  }

  /** `handleDragEnd({active, over})`: a reorder only onto a different item. */
  function HandleDragEnd(activeId: string, overId: Option<string>): (r: Option<Command>)
    ensures r.Some? <==> overId.Some? && overId.value != activeId
    ensures r.Some? ==> r.value == ReorderOperandsCmd(activeId, overId.value)
  {
    if overId.Some? && activeId != overId.value then Some(ReorderOperandsCmd(activeId, overId.value)) else None
  }

  /** The operator control of the row showing `row`: an `onUpdateOperator`
      call for that row's own id with the chosen operator. */
  function OnOperatorChange(row: Operand, op: OperatorType): (r: Command)
    ensures r.UpdateOperatorCmd? && r.id == row.id && r.op == op
  {
    UpdateOperatorCmd(row.id, op)
  }

  /** The remove button of the row showing `row`: an `onRemoveOperand` call
      for that row's own id. */
  function OnRemove(row: Operand): (r: Command)
    ensures r.RemoveOperandCmd? && r.id == row.id
  {
    RemoveOperandCmd(row.id)
  }

  /** A pick from the operand selector. */
  datatype Pick = PickMetric(m: Metric) | PickConstant(c: Constant)

  /** The operand the pick's handler asks the store to add to `ops`. */
  function PickSpec(p: Pick, ops: seq<Operand>): OperandSpec {
    match p
    case PickMetric(m) => HandleSelectMetric(ops, m).spec
    case PickConstant(c) => HandleSelectConstant(ops, c).spec
  }

  /** The list after the picks are added one after the other, each through its
      handler and the store's `addOperand`, with the given fresh ids. */
  function AddPicks(ops: seq<Operand>, picks: seq<Pick>, ids: seq<string>): (r: seq<Operand>)
    requires |ids| == |picks|
    ensures |r| == |ops| + |picks|
    ensures r[..|ops|] == ops
    decreases |picks|
  {
    if |picks| == 0 then ops
    else AddPicks(AppendOperand(ops, PickSpec(picks[0], ops), ids[0]), picks[1..], ids[1..])
  }

  /** The first operand has no operator and every later one has one. */
  ghost predicate OperatorsPlaced(ops: seq<Operand>) {
    forall i :: 0 <= i < |ops| ==> (ops[i].operator.None? <==> i == 0)
  }

  /** Starting from the empty list, or any list whose operators are placed,
      adding only through the two handlers keeps the operators placed. */
  lemma {:induction false} PicksPlaceOperators(ops: seq<Operand>, picks: seq<Pick>, ids: seq<string>)
    requires |ids| == |picks| && OperatorsPlaced(ops)
    ensures OperatorsPlaced(AddPicks(ops, picks, ids))
    decreases |picks|
  {
    if |picks| > 0 {
      var next := AppendOperand(ops, PickSpec(picks[0], ops), ids[0]);
      forall i | 0 <= i < |next| ensures next[i].operator.None? <==> i == 0 {
        if i < |ops| {
          assert next[i] == next[..|ops|][i];
        }
      }
      PicksPlaceOperators(next, picks[1..], ids[1..]);
    }
  }

  /** Every operand added through the handlers is the selected entity: a metric
      pick yields a metric operand labelled with its name and source, a constant
      pick a constant operand labelled with its name and carrying its value. */
  lemma {:induction false} PicksAreTheirEntities(ops: seq<Operand>, picks: seq<Pick>, ids: seq<string>, k: nat)
    requires |ids| == |picks| && k < |picks|
    ensures var o := AddPicks(ops, picks, ids)[|ops| + k];
      o.id == ids[k] &&
      match picks[k]
      case PickMetric(m) => o.kind == MetricKind && o.labelText == m.name && o.source == m.source
      case PickConstant(c) => o.kind == ConstantKind && o.labelText == c.name && o.value == Some(NumberValue(c.value))
    decreases |picks|
  {
    var next := AppendOperand(ops, PickSpec(picks[0], ops), ids[0]);
    var r := AddPicks(next, picks[1..], ids[1..]);
    assert r == AddPicks(ops, picks, ids);
    if k == 0 {
      assert r[|ops|] == r[..|next|][|ops|];
    } else {
      PicksAreTheirEntities(next, picks[1..], ids[1..], k - 1);
    }
  }
}
