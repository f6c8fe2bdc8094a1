/** The dialog that lists the constants and adds a new one from a draft: a
    name, a value typed as text, a unit, a location, and for a time-varying
    constant a number of periods. */
module ManageConstantsModal {
  import opened Wrappers
  import opened Text
  import opened CalculatedMetricTypes

  /** The location that is stored as no location at all. */
  const GlobalLocation: string := "Global"

  const Locations: seq<string> := [GlobalLocation, "Germany", "Switzerland", "Austria", "France", "UK", "USA"]

  /** The units the unit selector offers; the last one is 'None'. */
  const Units: seq<string> := ["%", "x", ""]

  /** `newConstant`: the fields of the 'New constant' section. */
  datatype ConstantDraft = ConstantDraft(
    name: string,
    value: string,     // the text of the number input
    unit: string,
    timeSeries: bool,
    location: string,
    periods: int)

  const DefaultDraft: ConstantDraft := ConstantDraft("", "", "%", false, GlobalLocation, 1)

  /** `isValidNew()`: a name that is not blank and a value that is not empty. */
  predicate DraftComplete(d: ConstantDraft): (r: bool)
    ensures r <==> d.value != "" && exists i :: 0 <= i < |d.name| && !IsJsWhitespace(d.name[i])
  {
    BlankIffAllWhitespace(d.name);
    !IsBlank(d.name) && d.value != ""
  }

  /** `parseInt(text) || 1` for the periods input, given what `parseInt`
      returned (`None` for NaN): NaN and 0 become 1; a negative count is kept. */
  function PeriodsFromInput(parsed: Option<int>): (n: int)
    ensures n != 0
    ensures parsed.Some? && parsed.value != 0 ==> n == parsed.value
    ensures parsed.None? || parsed.value == 0 ==> n == 1
  {
    if parsed.Some? && parsed.value != 0 then parsed.value else 1
  }

  /** What one input of the section sends; the periods input sends what
      `parseInt` returned for its text (`None` for NaN). */
  datatype DraftEdit =
    | NameEdit(name: string)
    | ValueEdit(value: string)
    | UnitEdit(unit: string)
    | LocationEdit(location: string)
    | TimeSeriesEdit(timeSeries: bool)
    | PeriodsEdit(parsed: Option<int>)

  /** `setNewConstant({ ...newConstant, <field>: <new value> })`: the edited
      field takes the input's value and every other field is kept. */
  function ApplyDraftEdit(d: ConstantDraft, e: DraftEdit): (r: ConstantDraft)
    ensures r.name == if e.NameEdit? then e.name else d.name
    ensures r.value == if e.ValueEdit? then e.value else d.value
    ensures r.unit == if e.UnitEdit? then e.unit else d.unit
    ensures r.location == if e.LocationEdit? then e.location else d.location
    ensures r.timeSeries == if e.TimeSeriesEdit? then e.timeSeries else d.timeSeries
    ensures r.periods == if e.PeriodsEdit? then PeriodsFromInput(e.parsed) else d.periods
  {
    match e
    case NameEdit(name) => d.(name := name)
    case ValueEdit(value) => d.(value := value)
    case UnitEdit(unit) => d.(unit := unit)
    case LocationEdit(location) => d.(location := location)
    case TimeSeriesEdit(timeSeries) => d.(timeSeries := timeSeries)
    case PeriodsEdit(parsed) => d.(periods := PeriodsFromInput(parsed))
  }

  /** No input makes the periods 0, so a listed time-varying constant shows
      the periods that were entered. Only the name and value inputs change
      whether the draft can be added. */
  lemma DraftEditsKeepPeriods(d: ConstantDraft, e: DraftEdit)
    ensures d.periods != 0 ==> ApplyDraftEdit(d, e).periods != 0
    ensures !e.NameEdit? && !e.ValueEdit? ==> (DraftComplete(ApplyDraftEdit(d, e)) <==> DraftComplete(d))
  {
  }

  /** The constant `handleAddConstant` builds; `timestamp` is the text of
      `Date.now()` and `parsedValue` what `parseFloat` returned for the value. */
  function BuildConstant(d: ConstantDraft, timestamp: string, parsedValue: JsNumber): (c: Constant)
    ensures c.id == "const-" + timestamp && c.name == d.name && c.value == parsedValue
    ensures c.unit == Some(d.unit) && c.timeSeries == Some(d.timeSeries)
    ensures c.location.None? <==> d.location == GlobalLocation
    ensures c.location.Some? ==> c.location.value == d.location
    ensures c.periods.Some? <==> d.timeSeries
    ensures c.periods.Some? ==> c.periods.value == d.periods
  {
    Constant("const-" + timestamp, d.name, parsedValue, Some(d.unit), Some(d.timeSeries),
             if d.location != GlobalLocation then Some(d.location) else None,
             if d.timeSeries then Some(d.periods) else None)
  }

  /** The existing-constants list shows the constant as time-varying. */
  predicate ListedAsTimeVarying(c: Constant) {
    c.timeSeries == Some(true)
  }

  /** The location in brackets after the name, when it is not empty. */
  function ListedLocation(c: Constant): Option<string> {
    if c.location.Some? && c.location.value != "" then c.location else None
  }

  /** `constant.periods || 1`: an absent or zero count shows as 1, any other
      count as itself. */
  function ListedPeriods(c: Constant): (n: int)
    ensures n != 0
    ensures c.periods.Some? && c.periods.value != 0 ==> n == c.periods.value
    ensures c.periods.None? || c.periods.value == 0 ==> n == 1
  {
    if c.periods.Some? && c.periods.value != 0 then c.periods.value else 1
  }

  /** The word 'period' takes an 's'. */
  predicate ListedPeriodsPlural(c: Constant) {
    ListedPeriods(c) > 1
  }

  /** A constant added from a draft is listed as the draft was filled in: as
      time-varying exactly when the switch was on, with the draft's periods
      when those are not 0, and with its location unless that was 'Global'. */
  lemma ListingShowsDraft(d: ConstantDraft, timestamp: string, parsedValue: JsNumber)
    requires d.periods != 0 && d.location != ""
    ensures var c := BuildConstant(d, timestamp, parsedValue);
            (ListedAsTimeVarying(c) <==> d.timeSeries) &&
            (d.timeSeries ==> ListedPeriods(c) == d.periods) &&
            ListedLocation(c) == if d.location == GlobalLocation then None else Some(d.location)
  {
  }

  /** Every location the selector offers is either 'Global' or is listed. */
  lemma OfferedLocationsAreListed(d: ConstantDraft, timestamp: string, parsedValue: JsNumber)
    requires d.location in Locations
    ensures d.location == GlobalLocation || ListedLocation(BuildConstant(d, timestamp, parsedValue)) == Some(d.location)
  {
  }

  class ManageConstantsForm {
    var isAddingNew: bool
    var newConstant: ConstantDraft
    var hasAttemptedSave: bool

    /** The dialog's state when it opens and after every reset. */
    predicate IsInitial()
      reads this
    {
      !isAddingNew && newConstant == DefaultDraft && !hasAttemptedSave
    }

    /** The periods the draft can hold: the default or what the input handler gives. */
    predicate Valid()
      reads this
    {
      newConstant.periods != 0
    }

    /** 'Name and value are required.' is shown. */
    predicate ShowsValidationError()
      reads this
    {
      hasAttemptedSave && !DraftComplete(newConstant)
    }

    constructor ()
      ensures IsInitial() && Valid()
    {
      isAddingNew := false;
      newConstant := DefaultDraft;
      hasAttemptedSave := false;
    }

    /** The 'Add new constant' button. */
    method StartAdding()
      modifies this
      ensures isAddingNew
      ensures newConstant == old(newConstant) && hasAttemptedSave == old(hasAttemptedSave)
    {
      isAddingNew := true;
    }

    /** One input of the 'New constant' section. */
    method EditDraft(e: DraftEdit)
      modifies this
      ensures newConstant == ApplyDraftEdit(old(newConstant), e)
      ensures isAddingNew == old(isAddingNew) && hasAttemptedSave == old(hasAttemptedSave)
      ensures old(Valid()) ==> Valid()
    {
      newConstant := ApplyDraftEdit(newConstant, e);
    }

    /** `resetNewConstant`, also the 'Cancel' button of the section. */
    method ResetNewConstant()
      modifies this
      ensures IsInitial() && Valid()
    {
      newConstant := DefaultDraft;
      isAddingNew := false;
      hasAttemptedSave := false;
    }

    /** `handleAddConstant`: the constant passed to `onAddConstant`, if any. */
    method HandleAddConstant(timestamp: string, parsedValue: JsNumber) returns (added: Option<Constant>)
      modifies this
      ensures old(DraftComplete(newConstant)) ==>
        added == Some(BuildConstant(old(newConstant), timestamp, parsedValue)) && IsInitial()
      ensures !old(DraftComplete(newConstant)) ==>
        added.None? && hasAttemptedSave && ShowsValidationError() &&
        newConstant == old(newConstant) && isAddingNew == old(isAddingNew)
      ensures old(Valid()) ==> Valid()
    {
      hasAttemptedSave := true;
      if !DraftComplete(newConstant) {
        return None;
      }
      added := Some(BuildConstant(newConstant, timestamp, parsedValue));
      ResetNewConstant();
    }

    /** `handleClose(open)`: closing resets the section; the value is passed on. */
    method HandleClose(open: bool) returns (openChange: bool)
      modifies this
      ensures openChange == open
      ensures !open ==> IsInitial()
      ensures open ==> unchanged(this)
    {
      if !open {
        ResetNewConstant();
      }
      openChange := open;
    }
  }
}
