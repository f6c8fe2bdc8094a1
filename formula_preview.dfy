/** The formula preview panel: the same operand list projected to display
    tokens, with its own glyphs, an empty-state message and a trailing `= Result`. */
module FormulaPreview {
  import opened Wrappers
  import opened CalculatedMetricTypes
  import opened UseCalculatedMetric

  /** `operatorSymbols`: plus, U+2212 minus sign, U+00D7 multiplication sign. */
  function OperatorSymbol(op: OperatorType): string {
    match op
    case Add => "+"
    case Subtract => "\U{2212}"
    case Multiply => "\U{00D7}"
  }

  /** The operator badge before a token: its glyph, and the colour class of the
      operator when one is set explicitly (`None`: no colour class). */
  datatype OperatorBadge = OperatorBadge(glyph: string, colour: Option<OperatorType>)

  /** One entry of `formulaElements`, keyed by operand id. */
  datatype FormulaToken = FormulaToken(key: string, badge: Option<OperatorBadge>, labelText: string, isConstant: bool)

  /** What the panel shows. */
  datatype PreviewView =
    | Placeholder(message: string)
    | Formula(tokens: seq<FormulaToken>, equals: string, result: string)

  const PlaceholderMessage: string := "Your formula will appear here"

  /** The token of the operand at `index`: keyed by its id, showing its
      display label and styled as a constant exactly when it is one; a badge
      only after index 0, with the colour of the operator that is set. */
  function Token(o: Operand, index: nat): (t: FormulaToken)
    ensures t.key == o.id && t.labelText == DisplayLabel(o) && t.isConstant == (o.kind == ConstantKind)
    ensures t.badge.Some? <==> index > 0
    ensures t.badge.Some? ==> t.badge.value.colour == o.operator
    ensures t.badge.Some? ==> t.badge.value.glyph == OperatorSymbol(o.operator.GetOr(Add))
  {
    FormulaToken(
      o.id,
      if index > 0 then Some(OperatorBadge(OperatorSymbol(o.operator.GetOr(Add)), o.operator)) else None,
      DisplayLabel(o),
      o.kind == ConstantKind)
  }

  /** `formulaElements`: `null` for no operands, else one token per operand,
      in list order and keyed by its id; a badge only after index 0, showing
      add's glyph uncoloured when the operator is absent. */
  function FormulaElements(ops: seq<Operand>): (r: Option<seq<FormulaToken>>)
    ensures r.None? <==> |ops| == 0
    ensures r.Some? ==> |r.value| == |ops| && forall i :: 0 <= i < |ops| ==>
      && r.value[i].key == ops[i].id
      && r.value[i].labelText == DisplayLabel(ops[i])
      && r.value[i].isConstant == (ops[i].kind == ConstantKind)
      && (r.value[i].badge.Some? <==> i > 0)
      && (i > 0 ==> r.value[i].badge == Some(OperatorBadge(OperatorSymbol(ops[i].operator.GetOr(Add)), ops[i].operator)))
  {
    if |ops| == 0 then None else Some(seq(|ops|, i requires 0 <= i < |ops| => Token(ops[i], i)))
  }

  /** The rendered panel. */
  function Render(ops: seq<Operand>): (v: PreviewView)
    ensures v.Placeholder? <==> |ops| == 0
    ensures v.Placeholder? ==> v.message == PlaceholderMessage
    ensures v.Formula? ==> v.tokens == FormulaElements(ops).value && v.equals == "=" && v.result == "Result"
  {
    if |ops| == 0 then Placeholder(PlaceholderMessage)
    else Formula(FormulaElements(ops).value, "=", "Result")
  }

  /** The panel never shows the operator of the head operand. */
  lemma RenderIgnoresHeadOperator(ops: seq<Operand>, op: Option<OperatorType>)
    requires |ops| > 0
    ensures Render(ops[0 := ops[0].(operator := op)]) == Render(ops)
  {
    var ops' := ops[0 := ops[0].(operator := op)];
    assert FormulaElements(ops').value == FormulaElements(ops).value;
  }

  /** An absent operator after index 0 shows the same `+` as add, but without
      add's colour. */
  lemma AbsentOperatorShowsUncolouredPlus(ops: seq<Operand>, i: nat)
    requires 0 < i < |ops| && ops[i].operator.None?
    ensures FormulaElements(ops).value[i].badge == Some(OperatorBadge("+", None))
    ensures FormulaElements(ops[i := ops[i].(operator := Some(Add))]).value[i].badge == Some(OperatorBadge("+", Some(Add)))
  {
  }

  /** The panel and the saved label agree term for term: the same display
      label, after index 0 preceded by the operator's glyph and a space; the
      glyphs agree for add only. */
  lemma PanelAgreesWithSavedLabel(ops: seq<Operand>, i: nat)
    requires i < |ops|
    ensures var t := FormulaElements(ops).value[i];
      Terms(ops)[i] == if i == 0 then t.labelText else HookSymbol(ops[i].operator.GetOr(Add)) + " " + t.labelText
    ensures OperatorSymbol(Add) == HookSymbol(Add)
    ensures OperatorSymbol(Subtract) != HookSymbol(Subtract) && OperatorSymbol(Multiply) != HookSymbol(Multiply)
  {
    assert OperatorSymbol(Subtract)[0] != HookSymbol(Subtract)[0];
    assert |OperatorSymbol(Multiply)| != |HookSymbol(Multiply)|;
  }
}
