/** The page that assigns a metric to each funnel step: it holds the selected
    step, the chosen mapping type and the funnel, owns one formula store, and
    wires the calculation builder's callbacks to that store. */
module CalculatedMetricPage {
  import opened Wrappers
  import opened Text
  import opened Seqs
  import opened CalculatedMetricTypes
  import opened UseCalculatedMetric
  import opened CalculationBuilder
  import MetricsData

  /** The two notices the page raises when saving. */
  datatype Toast =
    | IncompleteConfiguration   // 'Incomplete configuration', destructive
    | ProgressSaved             // 'Progress saved'

  const CalculatedMetricAssignment: string := "Calculated metric"

  /** `steps[i]` is the first step whose id is `id`. */
  predicate IsFirstWithId(steps: seq<FunnelStep>, i: int, id: string) {
    0 <= i < |steps| && steps[i].id == id && forall j :: 0 <= j < i ==> steps[j].id != id
  }

  /** `funnelSteps.find(s => s.id === id)`. */
  function FindStep(steps: seq<FunnelStep>, id: string): (r: Option<FunnelStep>)
    ensures r.Some? <==> HasKey(steps, StepId, id)
    ensures r.Some? ==> r.value.id == id
    ensures r.Some? ==> exists i :: IsFirstWithId(steps, i, id) && steps[i] == r.value
  {
    var i := FindIndex(steps, StepId, id);
    if i < 0 then None else Some(steps[i])
  }

  /** The funnel after the formula with text `labelText` is saved on the step
      `selectedStepId`. */
  function AssignFormula(steps: seq<FunnelStep>, selectedStepId: string, labelText: string): (r: seq<FunnelStep>)
    ensures |r| == |steps|
    ensures forall i :: 0 <= i < |steps| ==> r[i].id == steps[i].id && r[i].name == steps[i].name
    ensures forall i :: 0 <= i < |steps| && steps[i].id == selectedStepId ==>
      r[i].isAssigned && r[i].assignmentType == Some(CalculatedMetricAssignment) && r[i].value == Some(labelText)
    ensures forall i :: 0 <= i < |steps| && steps[i].id != selectedStepId ==> r[i] == steps[i]
  {
    UpdateKey(steps, StepId, selectedStepId,
      (s: FunnelStep) => s.(isAssigned := true, assignmentType := Some(CalculatedMetricAssignment), value := Some(labelText)))
  }

  /** Saving twice on the same step keeps only the second formula. */
  lemma AssignFormulaOverwrites(steps: seq<FunnelStep>, id: string, first: string, second: string)
    ensures AssignFormula(AssignFormula(steps, id, first), id, second) == AssignFormula(steps, id, second)
  {
    var a := AssignFormula(AssignFormula(steps, id, first), id, second);
    var b := AssignFormula(steps, id, second);
    forall i | 0 <= i < |steps| ensures a[i] == b[i] {
    }
  }

  /** What `handleSaveProgress` shows and the funnel it leaves. */
  datatype SaveResult = SaveResult(toast: Toast, steps: seq<FunnelStep>)

  function SaveProgress(steps: seq<FunnelStep>, selectedStepId: string, mappingType: MappingType,
                        ops: seq<Operand>, metricName: string): (r: SaveResult)
    ensures r.toast == IncompleteConfiguration <==> mappingType == CalculatedMetric && !IsValidFormula(ops, metricName)
    ensures r.toast == IncompleteConfiguration || mappingType != CalculatedMetric ==> r.steps == steps
    ensures r.toast == ProgressSaved && mappingType == CalculatedMetric ==>
      r.steps == AssignFormula(steps, selectedStepId, FormulaPreview(ops))
  {
    if mappingType == CalculatedMetric && !IsValidFormula(ops, metricName) then
      SaveResult(IncompleteConfiguration, steps)
    else if mappingType == CalculatedMetric then
      SaveResult(ProgressSaved, AssignFormula(steps, selectedStepId, FormulaPreview(ops)))
    else
      SaveResult(ProgressSaved, steps)
  }

  /** After a successful save of a formula, the selected step shows the
      formula's text as its assigned value. */
  lemma SavedStepShowsFormula(steps: seq<FunnelStep>, id: string, ops: seq<Operand>, metricName: string)
    requires HasKey(steps, StepId, id) && IsValidFormula(ops, metricName)
    ensures var r := SaveProgress(steps, id, CalculatedMetric, ops, metricName);
            r.toast == ProgressSaved &&
            FindStep(r.steps, id) == Some(FindStep(steps, id).value.(
              isAssigned := true, assignmentType := Some(CalculatedMetricAssignment), value := Some(FormulaPreview(ops))))
  {
    var r := AssignFormula(steps, id, FormulaPreview(ops));
    FindIndexSameKeys(steps, r, StepId, id);
  }

  /** A formula without a name is never saved, whatever its operands: the
      store's name starts empty and `reset` empties it again, and nothing on
      the page sets it (`CalculatedMetricPageState.NameUnset`). */
  lemma UnnamedFormulaNeverSaves(steps: seq<FunnelStep>, id: string, ops: seq<Operand>)
    ensures SaveProgress(steps, id, CalculatedMetric, ops, "") == SaveResult(IncompleteConfiguration, steps)
  {
    assert IsBlank("");
  }

  /** Where `handleNextStep` moves: past the first step with the selected id;
      an unknown id is found at -1, so the move goes to the first step. */
  function NextStepId(steps: seq<FunnelStep>, selectedStepId: string): (r: Option<string>)
    ensures !HasKey(steps, StepId, selectedStepId) ==> r == if |steps| > 0 then Some(steps[0].id) else None
    ensures forall i :: IsFirstWithId(steps, i, selectedStepId) ==>
      r == if i + 1 < |steps| then Some(steps[i + 1].id) else None
  {
    var i := FindIndex(steps, StepId, selectedStepId);
    if i < |steps| - 1 then Some(steps[i + 1].id) else None
  }

  /** Where `handlePreviousStep` moves: before the first step with the selected id. */
  function PreviousStepId(steps: seq<FunnelStep>, selectedStepId: string): (r: Option<string>)
    ensures !HasKey(steps, StepId, selectedStepId) ==> r.None?
    ensures forall i :: IsFirstWithId(steps, i, selectedStepId) ==> r == if i > 0 then Some(steps[i - 1].id) else None
  {
    var i := FindIndex(steps, StepId, selectedStepId);
    if i > 0 then Some(steps[i - 1].id) else None
  }

  /** The `disabled` flag of the 'Previous step' button: set exactly when the
      selected id is the id of the first step. */
  predicate PreviousButtonDisabled(steps: seq<FunnelStep>, selectedStepId: string): (r: bool)
    ensures r <==> |steps| > 0 && steps[0].id == selectedStepId
  {
    FindIndex(steps, StepId, selectedStepId) == 0
  }

  /** On a funnel with distinct ids, the step at index `i` moves forward to
      index `i + 1` and back to index `i - 1`, and neither past an end. */
  lemma NavigationFromIndex(steps: seq<FunnelStep>, i: nat)
    requires i < |steps| && KeysDistinct(steps, StepId)
    ensures NextStepId(steps, steps[i].id) == if i + 1 < |steps| then Some(steps[i + 1].id) else None
    ensures PreviousStepId(steps, steps[i].id) == if i > 0 then Some(steps[i - 1].id) else None
    ensures PreviousButtonDisabled(steps, steps[i].id) <==> i == 0
  {
    FindIndexOfDistinct(steps, StepId, i);
  }

  /** An id that names no step moves 'next' to the first step and never 'back';
      the 'Previous step' button stays enabled for it. */
  lemma NavigationFromUnknownStep(steps: seq<FunnelStep>, id: string)
    requires !HasKey(steps, StepId, id)
    ensures NextStepId(steps, id) == if |steps| > 0 then Some(steps[0].id) else None
    ensures PreviousStepId(steps, id).None? && !PreviousButtonDisabled(steps, id)
  {
  }

  /** On a funnel with distinct ids, 'previous' undoes 'next' and 'next'
      undoes 'previous'. */
  lemma {:induction false} NextPreviousRoundTrip(steps: seq<FunnelStep>, id: string)
    requires KeysDistinct(steps, StepId) && HasKey(steps, StepId, id)
    ensures NextStepId(steps, id).Some? ==> PreviousStepId(steps, NextStepId(steps, id).value) == Some(id)
    ensures PreviousStepId(steps, id).Some? ==> NextStepId(steps, PreviousStepId(steps, id).value) == Some(id)
  {
    var i := FindIndex(steps, StepId, id);
    assert steps[i].id == id;
    NavigationFromIndex(steps, i);
    if i + 1 < |steps| {
      assert PreviousStepId(steps, steps[i + 1].id) == Some(id) by {
        NavigationFromIndex(steps, i + 1);
      }
    }
    if i > 0 {
      assert NextStepId(steps, steps[i - 1].id) == Some(id) by {
        NavigationFromIndex(steps, i - 1);
      }
    }
  }

  /** Saving a formula does not change where the step buttons lead. */
  lemma SaveKeepsNavigation(steps: seq<FunnelStep>, id: string, labelText: string, selected: string)
    ensures NextStepId(AssignFormula(steps, id, labelText), selected) == NextStepId(steps, selected)
    ensures PreviousStepId(AssignFormula(steps, id, labelText), selected) == PreviousStepId(steps, selected)
    ensures PreviousButtonDisabled(AssignFormula(steps, id, labelText), selected) == PreviousButtonDisabled(steps, selected)
  {
    FindIndexSameKeys(steps, AssignFormula(steps, id, labelText), StepId, selected);
  }

  /** The store call the page makes for a builder callback (`freshId` is the
      id `addOperand` draws). */
  function ApplyCommand(ops: seq<Operand>, cmd: Command, freshId: string): (r: seq<Operand>)
    requires cmd.ReorderOperandsCmd? ==> HasKey(ops, OperandId, cmd.activeId) && HasKey(ops, OperandId, cmd.overId)
    ensures cmd.AddOperandCmd? ==>
      |r| == |ops| + 1 && r[..|ops|] == ops && r[|ops|].id == freshId && SpecOf(r[|ops|]) == cmd.spec
    ensures cmd.UpdateOperatorCmd? ==> |r| == |ops| && forall i :: 0 <= i < |ops| ==> r[i].id == ops[i].id
    ensures cmd.RemoveOperandCmd? ==> SubsequenceOf(r, ops) && forall i :: 0 <= i < |r| ==> r[i].id != cmd.id
    ensures cmd.ReorderOperandsCmd? ==> multiset(r) == multiset(ops)
  {
    match cmd
    case AddOperandCmd(spec) => AppendOperand(ops, spec, freshId)
    case UpdateOperatorCmd(id, op) => SetOperatorById(ops, id, op)
    case RemoveOperandCmd(id) => RemoveOperandById(ops, id)
    case ReorderOperandsCmd(activeId, overId) => ReorderById(ops, activeId, overId)
  }

  /** On a list with distinct ids, the controls of the row at index `i` change
      that row and no other. */
  lemma RowControlsActOnTheirRow(ops: seq<Operand>, i: nat, op: OperatorType, freshId: string)
    requires i < |ops| && KeysDistinct(ops, OperandId)
    ensures ApplyCommand(ops, OnOperatorChange(ops[i], op), freshId) == ops[i := ops[i].(operator := Some(op))]
    ensures ApplyCommand(ops, OnRemove(ops[i]), freshId) == RemoveAt(ops, i)
  {
    assert ApplyCommand(ops, OnOperatorChange(ops[i], op), freshId) == ops[i := ops[i].(operator := Some(op))] by {
      var r := SetOperatorById(ops, ops[i].id, op);
      forall j | 0 <= j < |ops| && j != i ensures r[j] == ops[j] {
        if j < i {
          assert OperandId(ops[j]) != OperandId(ops[i]);
        } else {
          assert OperandId(ops[i]) != OperandId(ops[j]);
        }
      }
      PointwiseUpdateAt(ops, r, i, ops[i].(operator := Some(op)));
    }
    assert ApplyCommand(ops, OnRemove(ops[i]), freshId) == RemoveAt(ops, i) by {
      RemoveKeyOfDistinct(ops, OperandId, i);
    }
  }

  /** Every builder callback keeps operand ids distinct, an addition provided
      its new id is not in use. */
  lemma CommandsKeepIdsDistinct(ops: seq<Operand>, cmd: Command, freshId: string)
    requires cmd.ReorderOperandsCmd? ==> HasKey(ops, OperandId, cmd.activeId) && HasKey(ops, OperandId, cmd.overId)
    requires KeysDistinct(ops, OperandId)
    requires cmd.AddOperandCmd? ==> !HasKey(ops, OperandId, freshId)
    ensures KeysDistinct(ApplyCommand(ops, cmd, freshId), OperandId)
  {
    match cmd
    case AddOperandCmd(spec) => AppendKeepsIdsDistinct(ops, spec, freshId);
    case UpdateOperatorCmd(id, op) => EditsKeepIdsDistinct(ops, id, op, id, id);
    case RemoveOperandCmd(id) => EditsKeepIdsDistinct(ops, id, Add, id, id);
    case ReorderOperandsCmd(activeId, overId) => EditsKeepIdsDistinct(ops, activeId, Add, activeId, overId);
  }

  /** The page's state. */
  class CalculatedMetricPageState {
    var selectedStepId: string
    var mappingType: MappingType
    var funnelSteps: seq<FunnelStep>
    const formula: CalculatedMetricStore

    constructor ()
      ensures selectedStepId == "cost" && mappingType == CalculatedMetric
      ensures funnelSteps == MetricsData.FunnelSteps
      ensures fresh(formula) && formula.operands == [] && formula.metricName == ""
      ensures NameUnset()
    {
      selectedStepId := "cost";
      mappingType := CalculatedMetric;
      funnelSteps := MetricsData.FunnelSteps;
      formula := new CalculatedMetricStore();
    }

    /** The store's name is `''`. The page as written passes the builder no
        `onMetricNameChange` and calls `setMetricName` nowhere, so every
        handler below except the corrected `HandleMetricNameChange` keeps this,
        and with it every save of a formula is refused. */
    predicate NameUnset()
      reads this, formula
    {
      formula.metricName == ""
    }

    /** The step named in the heading 'Configure …'. */
    function SelectedStep(): Option<FunnelStep>
      reads this
    {
      FindStep(funnelSteps, selectedStepId)
    }

    method HandleSaveProgress() returns (toast: Toast)
      modifies this
      ensures SaveResult(toast, funnelSteps) ==
        SaveProgress(old(funnelSteps), selectedStepId, mappingType, formula.operands, formula.metricName)
      ensures selectedStepId == old(selectedStepId) && mappingType == old(mappingType)
      ensures old(NameUnset()) ==> NameUnset()
      ensures old(NameUnset()) && mappingType == CalculatedMetric ==>
        toast == IncompleteConfiguration && funnelSteps == old(funnelSteps)
    {
      UnnamedFormulaNeverSaves(funnelSteps, selectedStepId, formula.operands);
      var r := SaveProgress(funnelSteps, selectedStepId, mappingType, formula.operands, formula.metricName);
      toast := r.toast;
      funnelSteps := r.steps;
    }

    method HandleNextStep()
      modifies this, formula
      ensures funnelSteps == old(funnelSteps)
      ensures old(NameUnset()) ==> NameUnset()
      ensures var next := NextStepId(old(funnelSteps), old(selectedStepId));
        if next.Some? then
          selectedStepId == next.value && mappingType == AssignMetric &&
          formula.operands == [] && formula.metricName == ""
        else
          selectedStepId == old(selectedStepId) && mappingType == old(mappingType) &&
          formula.operands == old(formula.operands) && formula.metricName == old(formula.metricName)
    {
      var next := NextStepId(funnelSteps, selectedStepId);
      if next.Some? {
        selectedStepId := next.value;
        formula.Reset();
        mappingType := AssignMetric;
      }
    }

    method HandlePreviousStep()
      modifies this, formula
      ensures funnelSteps == old(funnelSteps)
      ensures old(NameUnset()) ==> NameUnset()
      ensures var previous := PreviousStepId(old(funnelSteps), old(selectedStepId));
        if previous.Some? then
          selectedStepId == previous.value && mappingType == AssignMetric &&
          formula.operands == [] && formula.metricName == ""
        else
          selectedStepId == old(selectedStepId) && mappingType == old(mappingType) &&
          formula.operands == old(formula.operands) && formula.metricName == old(formula.metricName)
    {
      var previous := PreviousStepId(funnelSteps, selectedStepId);
      if previous.Some? {
        selectedStepId := previous.value;
        formula.Reset();
        mappingType := AssignMetric;
      }
    }

    /** `onSelectStep` of the funnel: selects without resetting the formula. */
    method SelectStep(id: string)
      modifies this
      ensures selectedStepId == id
      ensures mappingType == old(mappingType) && funnelSteps == old(funnelSteps)
      ensures old(NameUnset()) ==> NameUnset()
    {
      selectedStepId := id;
    }

    /** `onSelectType` of the mapping-type selector. */
    method SelectMappingType(t: MappingType)
      modifies this
      ensures mappingType == t
      ensures selectedStepId == old(selectedStepId) && funnelSteps == old(funnelSteps)
      ensures old(NameUnset()) ==> NameUnset()
    {
      mappingType := t;
    }

    /** A callback of the builder, which is shown only for a calculated metric. */
    method Dispatch(cmd: Command, freshId: string)
      requires mappingType == CalculatedMetric
      requires cmd.ReorderOperandsCmd? ==>
        HasKey(formula.operands, OperandId, cmd.activeId) && HasKey(formula.operands, OperandId, cmd.overId)
      modifies formula
      ensures formula.operands == ApplyCommand(old(formula.operands), cmd, freshId)
      ensures formula.metricName == old(formula.metricName)
      ensures old(NameUnset()) ==> NameUnset()
    {
      match cmd
      case AddOperandCmd(spec) => formula.AddOperand(spec, freshId);
      case UpdateOperatorCmd(id, op) => formula.UpdateOperator(id, op);
      case RemoveOperandCmd(id) => formula.RemoveOperand(id);
      case ReorderOperandsCmd(activeId, overId) => formula.ReorderOperands(activeId, overId);
    }

    /** The builder's `onMetricNameChange`, wired to the store's `setMetricName`. */
    method HandleMetricNameChange(name: string)
      requires mappingType == CalculatedMetric
      modifies formula
      ensures formula.metricName == name && formula.operands == old(formula.operands)
    {
      formula.SetMetricName(name);
    }
  }
}
