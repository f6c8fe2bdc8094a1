/** The two dialogs that create a configuration from a title and a metric:
    the custom import dialog and the custom KPI dialog. They differ only in
    their heading, their tip and the metrics they offer. */
module TitledConfigModal {
  import opened Wrappers
  import opened Text

  /** Which of the two dialogs. */
  datatype TitledConfigKind = CustomImportDialog | CustomKpiDialog

  /** The heading of the dialog; each heading names one dialog. */
  function DialogTitle(kind: TitledConfigKind): (r: string)
    ensures r == "Create custom import configuration" <==> kind == CustomImportDialog
    ensures r == "Create custom KPI configuration" <==> kind == CustomKpiDialog
  {
    match kind
    case CustomImportDialog => "Create custom import configuration"
    case CustomKpiDialog => "Create custom KPI configuration"
  }

  /** What `onSave` receives. */
  datatype TitledSubmission = TitledSubmission(title: string, metric: string)

  /** `isValid()`: a title that is not blank and a metric. A form can be saved
      exactly when its title has a character that is not whitespace and a
      metric is chosen. */
  predicate TitledComplete(title: string, metric: string): (r: bool)
    ensures r <==> metric != "" && exists i :: 0 <= i < |title| && !IsJsWhitespace(title[i])
  {
    BlankIffAllWhitespace(title);
    !IsBlank(title) && metric != ""
  }

  class TitledConfigForm {
    const kind: TitledConfigKind
    var title: string
    var metric: string
    var hasAttemptedSave: bool

    predicate IsInitial()
      reads this
    {
      title == "" && metric == "" && !hasAttemptedSave
    }

    predicate IsValid()
      reads this
    {
      TitledComplete(title, metric)
    }

    /** 'Title and metric are required.' is shown. */
    predicate ShowsValidationError()
      reads this
    {
      hasAttemptedSave && !IsValid()
    }

    constructor (kind: TitledConfigKind)
      ensures this.kind == kind && IsInitial()
    {
      this.kind := kind;
      title := "";
      metric := "";
      hasAttemptedSave := false;
    }

    method SetTitle(t: string)
      modifies this
      ensures title == t && metric == old(metric) && hasAttemptedSave == old(hasAttemptedSave)
    {
      title := t;
    }

    method SetMetric(m: string)
      modifies this
      ensures metric == m && title == old(title) && hasAttemptedSave == old(hasAttemptedSave)
    {
      metric := m;
    }

    method ResetForm()
      modifies this
      ensures IsInitial()
    {
      title := "";
      metric := "";
      hasAttemptedSave := false;
    }

    /** `handleSave`: what `onSave` receives, if anything, and the value passed
        to `onOpenChange`, if it is called. */
    method HandleSave() returns (submitted: Option<TitledSubmission>, openChange: Option<bool>)
      modifies this
      ensures old(IsValid()) ==>
        submitted == Some(TitledSubmission(old(title), old(metric))) && openChange == Some(false) && IsInitial()
      ensures !old(IsValid()) ==>
        submitted.None? && openChange.None? && hasAttemptedSave && ShowsValidationError() &&
        title == old(title) && metric == old(metric)
    {
      hasAttemptedSave := true;
      if !IsValid() {
        return None, None;
      }
      submitted := Some(TitledSubmission(title, metric));
      ResetForm();
      openChange := Some(false);
    }

    /** `handleClose(open)`: closing resets the form; the value is passed on. */
    method HandleClose(open: bool) returns (openChange: bool)
      modifies this
      ensures openChange == open
      ensures !open ==> IsInitial()
      ensures open ==> unchanged(this)
    {
      if !open {
        ResetForm();
      }
      openChange := open;
    }
  }
}
