/** The records and enumerations of the calculated-metric domain. */
module CalculatedMetricTypes {
  import opened Wrappers

  /** `'add' | 'subtract' | 'multiply'`. */
  datatype OperatorType = Add | Subtract | Multiply

  /** The six reference kinds an operand can have; there is no group kind. */
  datatype OperandType =
    | MetricKind            // 'metric'
    | ConstantKind          // 'constant'
    | CustomConversionKind  // 'custom-conversion'
    | UtmKind               // 'utm'
    | CustomImportKind      // 'custom-import'
    | CustomKpiKind         // 'custom-kpi'

  /** A JavaScript number, carried by the text `String(n)` gives for it: the core
      only ever displays the numbers it holds. */
  datatype JsNumber = JsNumber(text: string)

  /** `string | number`. */
  datatype OperandValue = TextValue(s: string) | NumberValue(n: JsNumber)

  /** One term of a formula; `value`, `source` and `operator` are optional. */
  datatype Operand = Operand(
    id: string,
    kind: OperandType,
    labelText: string,  // `label` in the source (a reserved word here)
    value: Option<OperandValue>,
    source: Option<string>,
    operator: Option<OperatorType>)

  /** The key the store finds, updates and removes operands by. */
  function OperandId(o: Operand): string { o.id }

  datatype Metric = Metric(id: string, name: string, source: Option<string>, category: Option<string>)

  /** A named number; `value` is required, the rest optional. */
  datatype Constant = Constant(
    id: string,
    name: string,
    value: JsNumber,
    unit: Option<string>,
    timeSeries: Option<bool>,
    location: Option<string>,
    periods: Option<int>)

  datatype GoalType = Simple | EventName

  datatype ConversionGoal = ConversionGoal(
    id: string,
    goalName: string,
    metric: string,
    goalType: GoalType,
    eventName: Option<string>)

  function GoalId(g: ConversionGoal): string { g.id }

  datatype CustomConversionConfig = CustomConversionConfig(id: string, name: string, goals: seq<ConversionGoal>)

  datatype UTMParameter = UTMParameter(id: string, dimension: string, value: string)

  function ParameterId(p: UTMParameter): string { p.id }

  datatype UTMConfig = UTMConfig(
    id: string, name: string, ga4Property: string, utmParameters: seq<UTMParameter>, metric: string)

  datatype CustomImportConfig = CustomImportConfig(id: string, title: string, metric: string)

  datatype CustomKPIConfig = CustomKPIConfig(id: string, title: string, metric: string)

  datatype CalculatedMetricConfig = CalculatedMetricConfig(
    name: string, operands: seq<Operand>, resultMetric: Option<string>)

  /** A step of the conversion funnel and what is assigned to it. */
  datatype FunnelStep = FunnelStep(
    id: string,
    name: string,
    isAssigned: bool,
    assignmentType: Option<string>,
    value: Option<string>)

  function StepId(s: FunnelStep): string { s.id }

  /** The seven ways a funnel step can be mapped. */
  datatype MappingType =
    | AssignMetric        // 'assign-metric'
    | CustomConversions   // 'custom-conversions'
    | UtmTracking         // 'utm-tracking'
    | CustomImport        // 'custom-import'
    | CustomMetric        // 'custom-metric'
    | CalculatedMetric    // 'calculated-metric'
    | IgnoreMapping       // 'ignore-mapping'

  datatype OperandTabType = MetricTab | CustomConversionsTab | UtmTab | CustomImportTab | CustomKpiTab | ConstantsTab
}
