/** The dialog that creates a UTM tracking configuration: a name, a GA4
    property, a metric and one to five UTM parameter rows. */
module UtmConfigModal {
  import opened Wrappers
  import opened Text
  import opened Seqs
  import opened CalculatedMetricTypes

  /** The dialog never offers more rows than this. */
  const MaxParameters: nat := 5

  /** The single empty row the form starts with and is reset to. */
  const InitialParameters: seq<UTMParameter> := [UTMParameter("1", "", "")]

  /** What `onSave` receives: the form as entered, without an id. */
  datatype UtmSubmission = UtmSubmission(
    name: string, ga4Property: string, utmParameters: seq<UTMParameter>, metric: string)

  /** `Partial<UTMParameter>`: the fields an update sets. */
  datatype ParameterUpdate = ParameterUpdate(id: Option<string>, dimension: Option<string>, value: Option<string>)

  /** `{...p, ...updates}`: every field the update sets wins, every other
      field keeps its value. */
  function OverlayParameter(p: UTMParameter, u: ParameterUpdate): (r: UTMParameter)
    ensures (u.id.Some? ==> r.id == u.id.value) && (u.id.None? ==> r.id == p.id)
    ensures (u.dimension.Some? ==> r.dimension == u.dimension.value) && (u.dimension.None? ==> r.dimension == p.dimension)
    ensures (u.value.Some? ==> r.value == u.value.value) && (u.value.None? ==> r.value == p.value)
  {
    UTMParameter(u.id.GetOr(p.id), u.dimension.GetOr(p.dimension), u.value.GetOr(p.value))
  }

  /** `addParameter`: one more empty row, unless five are shown already. */
  function AddParameterTo(ps: seq<UTMParameter>, freshId: string): (r: seq<UTMParameter>)
    ensures |ps| < MaxParameters ==> r == ps + [UTMParameter(freshId, "", "")]
    ensures |ps| >= MaxParameters ==> r == ps
  {
    if |ps| < MaxParameters then ps + [UTMParameter(freshId, "", "")] else ps
  }

  /** `removeParameter(id)`: the rows without that id, unless only one row is left. */
  function RemoveParameterFrom(ps: seq<UTMParameter>, id: string): (r: seq<UTMParameter>)
    ensures |ps| <= 1 ==> r == ps
    ensures |ps| > 1 ==> (forall i :: 0 <= i < |r| ==> r[i].id != id) && SubsequenceOf(r, ps)
    ensures |ps| > 1 ==> forall p :: p in ps && p.id != id ==> multiset(r)[p] == multiset(ps)[p]
  {
    RemoveKeyCounts(ps, ParameterId, id);
    if |ps| > 1 then RemoveKey(ps, ParameterId, id) else ps
  }

  /** `updateParameter(id, updates)`: every row with that id gets the update. */
  function UpdateParameterIn(ps: seq<UTMParameter>, id: string, u: ParameterUpdate): (r: seq<UTMParameter>)
    ensures |r| == |ps|
    ensures forall i :: 0 <= i < |ps| ==> r[i] == if ps[i].id == id then OverlayParameter(ps[i], u) else ps[i]
  {
    UpdateKey(ps, ParameterId, id, (p: UTMParameter) => OverlayParameter(p, u))
  }

  /** The rows the dialog can hold: one to five, with distinct ids. */
  ghost predicate ParametersValid(ps: seq<UTMParameter>) {
    1 <= |ps| <= MaxParameters && KeysDistinct(ps, ParameterId)
  }

  /** Adding (with an unused id), removing and updating (without touching the
      id) keep between one and five rows with distinct ids. */
  lemma ParameterEditsKeepRows(ps: seq<UTMParameter>, freshId: string, id: string, u: ParameterUpdate)
    requires ParametersValid(ps)
    ensures !HasKey(ps, ParameterId, freshId) ==> ParametersValid(AddParameterTo(ps, freshId))
    ensures ParametersValid(RemoveParameterFrom(ps, id))
    ensures u.id.None? ==> ParametersValid(UpdateParameterIn(ps, id, u))
  {
    if !HasKey(ps, ParameterId, freshId) && |ps| < MaxParameters {
      AppendKeepsDistinct(ps, ParameterId, UTMParameter(freshId, "", ""));
    }
    if |ps| > 1 {
      RemoveKeyKeepsDistinct(ps, ParameterId, id);
      RemoveKeyDropsAtMostOne(ps, ParameterId, id);
    }
    if u.id.None? {
      UpdateKeepsDistinct(ps, ParameterId, id, (p: UTMParameter) => OverlayParameter(p, u));
    }
  }

  /** The last-row guard counts rows, not ids: two rows that share an id are
      removed together and leave none. */
  lemma SharedIdRemovesEveryRow()
    ensures RemoveParameterFrom([UTMParameter("1", "", ""), UTMParameter("1", "utm_source", "x")], "1") == []
  {
    var ps := [UTMParameter("1", "", ""), UTMParameter("1", "utm_source", "x")];
    assert ps[1..][1..] == [];
  }

  /** `isValid()`: a name that is not blank, a property and a metric. */
  predicate FormComplete(name: string, ga4Property: string, metric: string): (r: bool)
    ensures r <==> (exists i :: 0 <= i < |name| && !IsJsWhitespace(name[i])) && ga4Property != "" && metric != ""
  {
    BlankIffAllWhitespace(name);
    !IsBlank(name) && ga4Property != "" && metric != ""
  }

  class UtmConfigForm {
    var name: string
    var ga4Property: string
    var utmParameters: seq<UTMParameter>
    var metric: string
    var hasAttemptedSave: bool

    /** The state the dialog opens in and every reset returns to. */
    predicate IsInitial()
      reads this
    {
      name == "" && ga4Property == "" && utmParameters == InitialParameters && metric == "" && !hasAttemptedSave
    }

    ghost predicate Valid()
      reads this
    {
      ParametersValid(utmParameters)
    }

    predicate IsValid()
      reads this
    {
      FormComplete(name, ga4Property, metric)
    }

    /** The message 'Name, GA4 property, and metric are required.' is shown. */
    predicate ShowsValidationError()
      reads this
    {
      hasAttemptedSave && !IsValid()
    }

    constructor ()
      ensures IsInitial() && Valid()
    {
      name := "";
      ga4Property := "";
      utmParameters := InitialParameters;
      metric := "";
      hasAttemptedSave := false;
    }

    method SetName(n: string)
      modifies this
      ensures name == n
      ensures ga4Property == old(ga4Property) && utmParameters == old(utmParameters)
      ensures metric == old(metric) && hasAttemptedSave == old(hasAttemptedSave)
    {
      name := n;
    }

    method SetGa4Property(p: string)
      modifies this
      ensures ga4Property == p
      ensures name == old(name) && utmParameters == old(utmParameters)
      ensures metric == old(metric) && hasAttemptedSave == old(hasAttemptedSave)
    {
      ga4Property := p;
    }

    method SetMetric(m: string)
      modifies this
      ensures metric == m
      ensures name == old(name) && ga4Property == old(ga4Property)
      ensures utmParameters == old(utmParameters) && hasAttemptedSave == old(hasAttemptedSave)
    {
      metric := m;
    }

    /** `freshId` is the id `Date.now().toString()` gives. */
    method AddParameter(freshId: string)
      modifies this
      ensures utmParameters == AddParameterTo(old(utmParameters), freshId)
      ensures name == old(name) && ga4Property == old(ga4Property)
      ensures metric == old(metric) && hasAttemptedSave == old(hasAttemptedSave)
      ensures old(Valid()) && !old(HasKey(utmParameters, ParameterId, freshId)) ==> Valid()
    {
      if Valid() {
        ParameterEditsKeepRows(utmParameters, freshId, freshId, ParameterUpdate(None, None, None));
      }
      utmParameters := AddParameterTo(utmParameters, freshId);
    }

    method RemoveParameter(id: string)
      modifies this
      ensures utmParameters == RemoveParameterFrom(old(utmParameters), id)
      ensures name == old(name) && ga4Property == old(ga4Property)
      ensures metric == old(metric) && hasAttemptedSave == old(hasAttemptedSave)
      ensures old(Valid()) ==> Valid()
    {
      if Valid() {
        ParameterEditsKeepRows(utmParameters, id, id, ParameterUpdate(None, None, None));
      }
      utmParameters := RemoveParameterFrom(utmParameters, id);
    }

    method UpdateParameter(id: string, u: ParameterUpdate)
      modifies this
      ensures utmParameters == UpdateParameterIn(old(utmParameters), id, u)
      ensures name == old(name) && ga4Property == old(ga4Property)
      ensures metric == old(metric) && hasAttemptedSave == old(hasAttemptedSave)
      ensures old(Valid()) && u.id.None? ==> Valid()
    {
      if Valid() {
        ParameterEditsKeepRows(utmParameters, id, id, u);
      }
      utmParameters := UpdateParameterIn(utmParameters, id, u);
    }

    method ResetForm()
      modifies this
      ensures IsInitial() && Valid()
    {
      name := "";
      ga4Property := "";
      utmParameters := InitialParameters;
      metric := "";
      hasAttemptedSave := false;
    }

    /** `handleSave`: what `onSave` receives, if anything, and the value passed
        to `onOpenChange`, if it is called. */
    method HandleSave() returns (submitted: Option<UtmSubmission>, openChange: Option<bool>)
      modifies this
      ensures old(IsValid()) ==>
        submitted == Some(UtmSubmission(old(name), old(ga4Property), old(utmParameters), old(metric))) &&
        openChange == Some(false) && IsInitial()
      ensures !old(IsValid()) ==>
        submitted.None? && openChange.None? && hasAttemptedSave && ShowsValidationError() &&
        name == old(name) && ga4Property == old(ga4Property) &&
        utmParameters == old(utmParameters) && metric == old(metric)
    {
      hasAttemptedSave := true;
      if !IsValid() {
        return None, None;
      }
      submitted := Some(UtmSubmission(name, ga4Property, utmParameters, metric));
      ResetForm();
      openChange := Some(false);
    }

    /** `handleClose(open)`: closing resets the form; the value is passed on. */
    method HandleClose(open: bool) returns (openChange: bool)
      modifies this
      ensures openChange == open
      ensures !open ==> IsInitial()
      ensures open ==> unchanged(this)
    {
      if !open {
        ResetForm();
      }
      openChange := open;
    }
  }
}
