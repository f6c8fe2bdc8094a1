/** The dialog that creates a custom conversion: a name and any number of
    goals, each either a simple conversion goal or an event name, and each
    with a metric. */
module CustomConversionModal {
  import opened Wrappers
  import opened Text
  import opened Seqs
  import opened CalculatedMetricTypes

  /** The single empty simple goal the form starts with and is reset to. */
  const InitialGoals: seq<ConversionGoal> := [ConversionGoal("1", "", "", Simple, None)]

  /** What `onSave` receives: the name and the goals as entered. */
  datatype ConversionSubmission = ConversionSubmission(name: string, goals: seq<ConversionGoal>)

  /** `Partial<Goal>` as the goal rows send it: each field an update sets. */
  datatype GoalUpdate = GoalUpdate(
    id: Option<string>,
    goalName: Option<string>,
    metric: Option<string>,
    goalType: Option<GoalType>,
    eventName: Option<string>)

  /** `{...g, ...updates}`: every field the update sets wins, every other
      field keeps its value. */
  function OverlayGoal(g: ConversionGoal, u: GoalUpdate): (r: ConversionGoal)
    ensures (u.id.Some? ==> r.id == u.id.value) && (u.goalName.Some? ==> r.goalName == u.goalName.value)
    ensures (u.metric.Some? ==> r.metric == u.metric.value) && (u.goalType.Some? ==> r.goalType == u.goalType.value)
    ensures u.eventName.Some? ==> r.eventName == u.eventName
    ensures (u.id.None? ==> r.id == g.id) && (u.goalName.None? ==> r.goalName == g.goalName)
    ensures (u.metric.None? ==> r.metric == g.metric) && (u.goalType.None? ==> r.goalType == g.goalType)
    ensures u.eventName.None? ==> r.eventName == g.eventName
  {
    ConversionGoal(u.id.GetOr(g.id), u.goalName.GetOr(g.goalName), u.metric.GetOr(g.metric),
                   u.goalType.GetOr(g.goalType), if u.eventName.Some? then u.eventName else g.eventName)
  }

  /** `addGoal`: one more empty simple goal; there is no upper bound. */
  function AddGoalTo(goals: seq<ConversionGoal>, freshId: string): (r: seq<ConversionGoal>)
    ensures r == goals + [ConversionGoal(freshId, "", "", Simple, None)]
    ensures |r| == |goals| + 1 && r[..|goals|] == goals
    ensures r[|goals|].id == freshId && r[|goals|].goalType == Simple && !GoalComplete(r[|goals|])
  {
    goals + [ConversionGoal(freshId, "", "", Simple, None)]
  }

  /** `removeGoal(id)`: the goals without that id, unless only one is left. */
  function RemoveGoalFrom(goals: seq<ConversionGoal>, id: string): (r: seq<ConversionGoal>)
    ensures |goals| <= 1 ==> r == goals
    ensures |goals| > 1 ==> (forall i :: 0 <= i < |r| ==> r[i].id != id) && SubsequenceOf(r, goals)
    ensures |goals| > 1 ==> forall g :: g in goals && g.id != id ==> multiset(r)[g] == multiset(goals)[g]
  {
    RemoveKeyCounts(goals, GoalId, id);
    if |goals| > 1 then RemoveKey(goals, GoalId, id) else goals
  }

  /** `updateGoal(id, updates)`: every goal with that id gets the update. */
  function UpdateGoalIn(goals: seq<ConversionGoal>, id: string, u: GoalUpdate): (r: seq<ConversionGoal>)
    ensures |r| == |goals|
    ensures forall i :: 0 <= i < |goals| ==> r[i] == if goals[i].id == id then OverlayGoal(goals[i], u) else goals[i]
  {
    UpdateKey(goals, GoalId, id, (g: ConversionGoal) => OverlayGoal(g, u))
  }

  /** The goal counts towards validity: its type's own selection and a metric
      are made. Fields of the other type are ignored. */
  predicate GoalComplete(g: ConversionGoal): (r: bool)
    ensures r ==> g.metric != ""
    ensures g.goalType == Simple ==> (r <==> g.goalName != "" && g.metric != "")
    ensures g.goalType == EventName ==> (r <==> g.eventName.Some? && g.eventName.value != "" && g.metric != "")
  {
    match g.goalType
    case Simple => g.goalName != "" && g.metric != ""
    case EventName => g.eventName.Some? && g.eventName.value != "" && g.metric != ""
  }

  /** `isValid()`: a name that is not blank and at least one complete goal. */
  predicate FormComplete(name: string, goals: seq<ConversionGoal>): (r: bool)
    ensures r <==> (exists i :: 0 <= i < |name| && !IsJsWhitespace(name[i])) &&
                   exists i :: 0 <= i < |goals| && GoalComplete(goals[i])
    ensures r ==> |goals| > 0
  {
    BlankIffAllWhitespace(name);
    !IsBlank(name) && exists i :: 0 <= i < |goals| && GoalComplete(goals[i])
  }

  /** The goals the dialog can hold: at least one, with distinct ids. */
  ghost predicate GoalsValid(goals: seq<ConversionGoal>) {
    |goals| >= 1 && KeysDistinct(goals, GoalId)
  }

  /** Adding (with an unused id), removing and updating (without touching the
      id) keep at least one goal and distinct ids. */
  lemma GoalEditsKeepList(goals: seq<ConversionGoal>, freshId: string, id: string, u: GoalUpdate)
    requires GoalsValid(goals)
    ensures !HasKey(goals, GoalId, freshId) ==> GoalsValid(AddGoalTo(goals, freshId))
    ensures GoalsValid(RemoveGoalFrom(goals, id))
    ensures u.id.None? ==> GoalsValid(UpdateGoalIn(goals, id, u))
  {
    if !HasKey(goals, GoalId, freshId) {
      AppendKeepsDistinct(goals, GoalId, ConversionGoal(freshId, "", "", Simple, None));
    }
    if |goals| > 1 {
      RemoveKeyKeepsDistinct(goals, GoalId, id);
      RemoveKeyDropsAtMostOne(goals, GoalId, id);
    }
    if u.id.None? {
      UpdateKeepsDistinct(goals, GoalId, id, (g: ConversionGoal) => OverlayGoal(g, u));
    }
  }

  /** Adding a goal never makes a complete form incomplete, and removing a
      goal other than a complete one keeps the form complete. */
  lemma CompletenessUnderEdits(name: string, goals: seq<ConversionGoal>, freshId: string, id: string)
    ensures FormComplete(name, goals) ==> FormComplete(name, AddGoalTo(goals, freshId))
    ensures (!IsBlank(name) && exists i :: 0 <= i < |goals| && GoalComplete(goals[i]) && goals[i].id != id) ==>
      FormComplete(name, RemoveGoalFrom(goals, id))
  {
    if FormComplete(name, goals) {
      var i :| 0 <= i < |goals| && GoalComplete(goals[i]);
      var a := AddGoalTo(goals, freshId);
      assert FormComplete(name, a) by {
        assert a[i] == goals[i];
      }
    }
    if !IsBlank(name) && exists i :: 0 <= i < |goals| && GoalComplete(goals[i]) && goals[i].id != id {
      var i :| 0 <= i < |goals| && GoalComplete(goals[i]) && goals[i].id != id;
      RemoveKeepsGoal(goals, id, i);
    }
  }

  /** A goal whose id is not the removed one survives the removal. */
  lemma RemoveKeepsGoal(goals: seq<ConversionGoal>, id: string, i: nat)
    requires i < |goals| && goals[i].id != id
    ensures exists k :: 0 <= k < |RemoveGoalFrom(goals, id)| && RemoveGoalFrom(goals, id)[k] == goals[i]
  {
    var r := RemoveGoalFrom(goals, id);
    assert goals[i] in goals;
    if |goals| > 1 {
      assert multiset(r)[goals[i]] == multiset(goals)[goals[i]] > 0;
    }
    assert goals[i] in r;
  }

  /** Switching a complete simple goal to an event name leaves it incomplete
      until an event is chosen: its goal name is kept but no longer counts. */
  lemma TypeSwitchNeedsEventName(g: ConversionGoal)
    requires g.goalType == Simple && GoalComplete(g) && g.eventName.None?
    ensures var s := OverlayGoal(g, GoalUpdate(None, None, None, Some(EventName), None));
            s.goalName == g.goalName && !GoalComplete(s)
  {
  }

  class CustomConversionForm {
    var name: string
    var goals: seq<ConversionGoal>
    var hasAttemptedSave: bool

    predicate IsInitial()
      reads this
    {
      name == "" && goals == InitialGoals && !hasAttemptedSave
    }

    ghost predicate Valid()
      reads this
    {
      GoalsValid(goals)
    }

    predicate IsValid()
      reads this
    {
      FormComplete(name, goals)
    }

    /** The message 'Name and at least one complete goal are required.' is shown. */
    predicate ShowsValidationError()
      reads this
    {
      hasAttemptedSave && !IsValid()
    }

    constructor ()
      ensures IsInitial() && Valid()
    {
      name := "";
      goals := InitialGoals;
      hasAttemptedSave := false;
    }

    method SetName(n: string)
      modifies this
      ensures name == n && goals == old(goals) && hasAttemptedSave == old(hasAttemptedSave)
    {
      name := n;
    }

    /** `freshId` is the id `Date.now().toString()` gives. */
    method AddGoal(freshId: string)
      modifies this
      ensures goals == AddGoalTo(old(goals), freshId)
      ensures name == old(name) && hasAttemptedSave == old(hasAttemptedSave)
      ensures old(Valid()) && !old(HasKey(goals, GoalId, freshId)) ==> Valid()
    {
      if Valid() {
        GoalEditsKeepList(goals, freshId, freshId, GoalUpdate(None, None, None, None, None));
      }
      goals := AddGoalTo(goals, freshId);
    }

    method RemoveGoal(id: string)
      modifies this
      ensures goals == RemoveGoalFrom(old(goals), id)
      ensures name == old(name) && hasAttemptedSave == old(hasAttemptedSave)
      ensures old(Valid()) ==> Valid()
    {
      if Valid() {
        GoalEditsKeepList(goals, id, id, GoalUpdate(None, None, None, None, None));
      }
      goals := RemoveGoalFrom(goals, id);
    }

    method UpdateGoal(id: string, u: GoalUpdate)
      modifies this
      ensures goals == UpdateGoalIn(old(goals), id, u)
      ensures name == old(name) && hasAttemptedSave == old(hasAttemptedSave)
      ensures old(Valid()) && u.id.None? ==> Valid()
    {
      if Valid() {
        GoalEditsKeepList(goals, id, id, u);
      }
      goals := UpdateGoalIn(goals, id, u);
    }

    method ResetForm()
      modifies this
      ensures IsInitial() && Valid()
    {
      name := "";
      goals := InitialGoals;
      hasAttemptedSave := false;
    }

    /** `handleSave`: what `onSave` receives, if anything, and the value passed
        to `onOpenChange`, if it is called. */
    method HandleSave() returns (submitted: Option<ConversionSubmission>, openChange: Option<bool>)
      modifies this
      ensures old(IsValid()) ==>
        submitted == Some(ConversionSubmission(old(name), old(goals))) && openChange == Some(false) && IsInitial()
      ensures !old(IsValid()) ==>
        submitted.None? && openChange.None? && hasAttemptedSave && ShowsValidationError() &&
        name == old(name) && goals == old(goals)
    {
      hasAttemptedSave := true;
      if !IsValid() {
        return None, None;
      }
      submitted := Some(ConversionSubmission(name, goals));
      ResetForm();
      openChange := Some(false);
    }

    /** `handleClose(open)`: closing resets the form; the value is passed on. */
    method HandleClose(open: bool) returns (openChange: bool)
      modifies this
      ensures openChange == open
      ensures !open ==> IsInitial()
      ensures open ==> unchanged(this)
    {
      if !open {
        ResetForm();
      }
      openChange := open;
    }
  }
}
