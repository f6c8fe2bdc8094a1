# Smart metrics builder, calculated-metric core

This Dafny project models the part of the smart metrics builder that builds a
calculated metric and maps it onto a funnel step.

- **The formula store** (`useCalculatedMetric`) holds an ordered list of
  operands and a metric name. Its callbacks append an operand with a fresh id,
  update, remove or re-operate an operand by id, move an operand to another
  operand's place, check validity and reset. `getFormulaPreview` turns the list
  into the label that is saved on the funnel step.
- **The calculation builder** turns a catalogue pick into an operand. A metric
  gets the operator `add` and a constant gets `multiply`, except on an empty
  list, where the operand gets no operator. A drag reorders only onto a
  different operand.
- **The formula preview panel** projects the same list to display tokens. Its
  minus and times glyphs differ from the store's, and it ends with `= Result`.
- **The operand selector** filters the metric and constant catalogues by a
  case-insensitive search. It buckets metrics by category in order of first
  appearance.
- **The calculated-metric page** holds the selected step, the mapping type and
  the funnel. It saves the formula onto the selected step and moves to the next
  or previous step.
- **Five configuration dialogs** edit and save a record:
  - UTM tracking, with one to five parameter rows;
  - custom conversion, with at least one goal;
  - constants, which builds a constant from a draft;
  - custom import and custom KPI, which share one model.

Layout:

- `types.dfy` holds the records of `src/types/calculated-metric.ts` as
  datatypes.
- `metrics_data.dfy` holds the funnel the page starts with.
- `wrappers.dfy`, `text.dfy` and `seqs.dfy` are helpers:
  - `Option`;
  - JavaScript `trim`, ASCII lower-casing, `includes` and `join`;
  - keyed list operations (`filter`/`map` by id, `findIndex`, the stable
    `arrayMove`), with lemmas about them.
- Every other file models one source file:
  - stateful code (the store, the page, the dialogs) is a class whose fields
    are the React state and whose methods are the handlers;
  - each handler is specified by a pure function on the old state.

Inputs that come from outside the program are parameters:

- fresh ids (`Date.now()`, `Math.random()`);
- the timestamp of a new constant;
- the results of `parseFloat` and `parseInt`;
- what the user types or picks.

Toasts, `onSave` and `onOpenChange` are returned values.

## Model

| member | source | states |
|---|---|---|
| UseCalculatedMetric.WithId | src/hooks/use-calculated-metric.ts:10-13 | The new operand is the caller's fields, unchanged, plus the generated id. |
| UseCalculatedMetric.AppendOperand | src/hooks/use-calculated-metric.ts:9-15 | Exactly one operand is added, at the end, with the caller's fields and the fresh id. Every earlier operand is unchanged and in order. |
| UseCalculatedMetric.AppendKeepsIdsDistinct | src/hooks/use-calculated-metric.ts:9-15 | An id not in use keeps operand ids distinct. |
| UseCalculatedMetric.Overlay | src/hooks/use-calculated-metric.ts:19 | Each key present in the update takes the update's value, including an optional key set to `undefined`. Each key absent from it keeps the operand's value. |
| UseCalculatedMetric.OverlayLaws | src/hooks/use-calculated-metric.ts:19 | The spread `{...op, ...updates}` is the identity for an empty update. It replaces the operand for an update naming every key. Applying an update twice is the same as applying it once. |
| UseCalculatedMetric.UpdateOperandById | src/hooks/use-calculated-metric.ts:17-21 | Length and order are kept. A matching operand gets the overlay and every other operand is unchanged. An unknown id leaves the list identical. |
| UseCalculatedMetric.RemoveOperandById | src/hooks/use-calculated-metric.ts:23-25 | No operand with the id remains. Every other operand keeps its multiplicity, its relative order (a subsequence) and its operator. An unknown id leaves the list identical. |
| UseCalculatedMetric.RemoveKeepsNewHeadOperator | src/hooks/use-calculated-metric.ts:23-25 | Removing the head leaves the new head's operator in place, with no clearing. |
| UseCalculatedMetric.SetOperatorById | src/hooks/use-calculated-metric.ts:27-31 | Only the `operator` field of a matching operand changes, and index 0 is not guarded. An unknown id leaves the list identical. |
| UseCalculatedMetric.SetHeadOperatorKeepsPreview | src/hooks/use-calculated-metric.ts:44-46 | Setting the head's operator (allowed by `updateOperator`) never changes the saved label. |
| UseCalculatedMetric.ReorderById | src/hooks/use-calculated-metric.ts:33-39 | With both ids present, the operand at `activeId`'s first index lands at `overId`'s first index. Removing it from both lists gives the same list, so the others keep their relative order. The result is a permutation with no field changed. |
| UseCalculatedMetric.ReorderOntoItselfKeepsList | src/hooks/use-calculated-metric.ts:33-39 | Reordering an operand onto its own id leaves the list unchanged, so the drag handler's different-id guard skips only a call that would change nothing. |
| Seqs.ArrayMove | src/hooks/use-calculated-metric.ts:37 | The stable move keeps the length. The element taken from `from` sits at `to`. Taking it out again gives the input with that element taken out. |
| Seqs.ArrayMovePermutes | src/hooks/use-calculated-metric.ts:37 | The stable move is a permutation. |
| Seqs.ArrayMoveAt | src/hooks/use-calculated-metric.ts:37 | The new position of every element: the moved one sits at `to`, those between the two indices shift by one towards `from`, and the rest stay put. |
| UseCalculatedMetric.EditsKeepIdsDistinct | src/hooks/use-calculated-metric.ts:23-39 | Removing, re-operating and reordering keep operand ids distinct. |
| UseCalculatedMetric.ValueText | src/hooks/use-calculated-metric.ts:45 | `${op.value}`: an absent value prints as `undefined`, a text value as itself and a number as its JavaScript text. |
| UseCalculatedMetric.DisplayLabel | src/hooks/use-calculated-metric.ts:45 | A constant shows its value text between `[` and `]`. Any other operand shows its label. |
| UseCalculatedMetric.Term | src/hooks/use-calculated-metric.ts:46-54 | A term is the bare display label exactly at index 0. After index 0 it is a symbol, a space and the label (an absent operator counts as add). |
| UseCalculatedMetric.Terms | src/hooks/use-calculated-metric.ts:44-55 | One term per operand, in order, each the operand's term at its own index. |
| UseCalculatedMetric.FormulaPreview | src/hooks/use-calculated-metric.ts:41-56 | No operands give `''`, and one operand gives its display label. A longer label starts with the head's bare display label, whatever the head's operator. |
| UseCalculatedMetric.PreviewByAppending | src/hooks/use-calculated-metric.ts:41-56 | The label of no operands is `''`. One operand shows its bare display label (`[value]` for a constant, the label otherwise). Each further operand adds a space, its symbol (an absent operator counts as add), a space and its display label. |
| UseCalculatedMetric.PreviewAfterAppend | src/hooks/use-calculated-metric.ts:41-56 | `addOperand` on a non-empty list extends the label by that operand's term. |
| UseCalculatedMetric.PreviewIgnoresHeadOperator | src/hooks/use-calculated-metric.ts:46 | The label never depends on the head operand's operator. |
| UseCalculatedMetric.PreviewAbsentOperatorIsAdd | src/hooks/use-calculated-metric.ts:48-52 | After index 0, an absent operator renders exactly as add. |
| UseCalculatedMetric.IsValidFormula | src/hooks/use-calculated-metric.ts:58-60 | `isValid` holds exactly when there are at least two operands and the name has a character that is not JavaScript whitespace. |
| UseCalculatedMetric.CalculatedMetricStore.constructor | src/hooks/use-calculated-metric.ts:6-7 | The store starts with no operands and an empty name. |
| UseCalculatedMetric.CalculatedMetricStore.SetMetricName | src/hooks/use-calculated-metric.ts:7 | Only the name changes. |
| UseCalculatedMetric.CalculatedMetricStore.AddOperand | src/hooks/use-calculated-metric.ts:9-15 | The list becomes `AppendOperand` of the old list and the name is kept. A fresh id keeps ids distinct. |
| UseCalculatedMetric.CalculatedMetricStore.UpdateOperand | src/hooks/use-calculated-metric.ts:17-21 | The list becomes `UpdateOperandById` of the old list and the name is kept. |
| UseCalculatedMetric.CalculatedMetricStore.RemoveOperand | src/hooks/use-calculated-metric.ts:23-25 | The list becomes `RemoveOperandById` of the old list and the name is kept. |
| UseCalculatedMetric.CalculatedMetricStore.UpdateOperator | src/hooks/use-calculated-metric.ts:27-31 | The list becomes `SetOperatorById` of the old list and the name is kept. |
| UseCalculatedMetric.CalculatedMetricStore.ReorderOperands | src/hooks/use-calculated-metric.ts:33-39 | With both ids present, the list becomes `ReorderById` of the old list and the name is kept. |
| UseCalculatedMetric.CalculatedMetricStore.Reset | src/hooks/use-calculated-metric.ts:62-65 | Both fields are emptied. |
| CalculationBuilder.HandleSelectMetric | src/components/calculated-metric/CalculationBuilder.tsx:71-78 | Picking a metric calls `onAddOperand` with a `metric` operand with the metric's name as label and its source. It has no operator on an empty list and `add` otherwise. |
| CalculationBuilder.HandleSelectConstant | src/components/calculated-metric/CalculationBuilder.tsx:80-87 | Picking a constant calls `onAddOperand` with a `constant` operand with the constant's name as label and its value. It has no operator on an empty list and `multiply` otherwise. |
| CalculationBuilder.HandleDragEnd | src/components/calculated-metric/CalculationBuilder.tsx:64-69 | A reorder is issued exactly when there is a drop target with a different id, and it is that pair. |
| CalculationBuilder.OnOperatorChange | src/components/calculated-metric/CalculationBuilder.tsx:166-168 | A row's operator control calls `onUpdateOperator` with that row's own id and the chosen operator. |
| CalculationBuilder.OnRemove | src/components/calculated-metric/CalculationBuilder.tsx:169 | A row's remove button calls `onRemoveOperand` with that row's own id. |
| CalculationBuilder.AddPicks | src/components/calculated-metric/CalculationBuilder.tsx:71-87 | Adding picks one after another appends one operand per pick and keeps the earlier list. |
| CalculationBuilder.PicksPlaceOperators | src/components/calculated-metric/CalculationBuilder.tsx:71-87 | Starting from an empty list, or any list whose operators are placed, adding only through `handleSelectMetric` and `handleSelectConstant` leaves the first operand without an operator and every later one with one. |
| CalculationBuilder.PicksAreTheirEntities | src/components/calculated-metric/CalculationBuilder.tsx:71-87 | Each added operand has its fresh id and is the picked metric (kind, name, source) or constant (kind, name, value). |
| CalculatedMetricPage.ApplyCommand | src/pages/CalculatedMetricPage.tsx:137-140 | The store call wired to each callback: an addition appends one operand with the fresh id and the given fields. An operator change keeps every position and id. A removal leaves an ordered subsequence without the id. A reorder is a permutation. |
| CalculatedMetricPage.RowControlsActOnTheirRow | src/components/calculated-metric/CalculationBuilder.tsx:166-169 | With distinct ids, the operator control of row `i` changes only row `i`'s operator, and its remove button removes exactly row `i`. |
| FormulaPreview.Token | src/components/calculated-metric/FormulaPreview.tsx:20-37 | A token is keyed by the operand's id and shows its display label, styled as a constant exactly when it is one. It has a badge exactly after index 0, with the glyph of the operator (`+` when absent) and the set operator's colour. |
| FormulaPreview.FormulaElements | src/components/calculated-metric/FormulaPreview.tsx:17-51 | There are no tokens exactly when there are no operands. Otherwise there is one token per operand, in order, keyed by its id, and showing its display label. A badge appears exactly after index 0, with the operator's glyph (`+` when absent) and a colour only when the operator is set. |
| FormulaPreview.Render | src/components/calculated-metric/FormulaPreview.tsx:53-70 | An empty list shows "Your formula will appear here". A non-empty one shows its tokens followed by `=` and `Result`. |
| FormulaPreview.RenderIgnoresHeadOperator | src/components/calculated-metric/FormulaPreview.tsx:26-37 | The panel never shows the head operand's operator. |
| FormulaPreview.AbsentOperatorShowsUncolouredPlus | src/components/calculated-metric/FormulaPreview.tsx:28-35 | An absent operator shows add's `+` without add's colour class. An explicit add shows it coloured. |
| FormulaPreview.PanelAgreesWithSavedLabel | src/components/calculated-metric/FormulaPreview.tsx:10-14 | The panel and the saved label agree term for term on display labels and positions. Their glyphs agree for add only, because minus (U+2212) and times (U+00D7) differ from the store's. |
| OperandSelector.FilterMetrics | src/components/calculated-metric/OperandSelector.tsx:25-28 | The result is exactly the metrics whose name or source contains the search, ignoring case, each with its multiplicity and in order. A metric without a source is matched on its name. |
| OperandSelector.FilterMetricsAsWritten | src/components/calculated-metric/OperandSelector.tsx:25-28 | The filter as written fails (a TypeError) exactly when some metric without a source misses on its name. Otherwise it agrees with `FilterMetrics`. |
| OperandSelector.FilterMetricsAsWrittenThrows | src/components/calculated-metric/OperandSelector.tsx:27 | A concrete catalogue of one source-less metric with the search "x" makes the filter fail. |
| OperandSelector.FilterConstants | src/components/calculated-metric/OperandSelector.tsx:30-32 | The result is exactly the constants whose name contains the search, ignoring case, in order. |
| OperandSelector.EmptySearchKeepsAll | src/components/calculated-metric/OperandSelector.tsx:25-32 | An empty search keeps every metric and every constant. |
| OperandSelector.CategoryOf | src/components/calculated-metric/OperandSelector.tsx:36 | `metric.category \|\| 'Other'` is never empty. It is the category when that is set and not empty, and it is 'Other' exactly when the category is missing, empty or 'Other'. |
| OperandSelector.Bucket | src/components/calculated-metric/OperandSelector.tsx:35-40 | A bucket is exactly the metrics of its category (`'Other'` when the category is missing or empty), in order. |
| OperandSelector.BucketSnoc | src/components/calculated-metric/OperandSelector.tsx:38 | Pushing a metric extends only its own category's bucket, at the end. |
| OperandSelector.PushMetric | src/components/calculated-metric/OperandSelector.tsx:36-39 | One reduce step adds the metric's category as a key if it is new. The metric goes at the end of that category's bucket, created empty when new. Every other bucket is unchanged. |
| OperandSelector.CategoryOrder | src/components/calculated-metric/OperandSelector.tsx:35-40 | Headings are distinct and are exactly the categories that occur. |
| OperandSelector.GroupMetrics | src/components/calculated-metric/OperandSelector.tsx:35-40 | The reduce leaves one key per occurring category, in order of first occurrence, and each key holds that category's bucket. |
| OperandSelector.BucketsPartition | src/components/calculated-metric/OperandSelector.tsx:35-40 | Each metric is in the bucket of its own category and in no other, and that category is a heading. |
| OperandSelector.BucketSizesTotal | src/components/calculated-metric/OperandSelector.tsx:35-40 | The buckets together hold exactly as many metrics as were filtered. |
| OperandSelector.NoMetricsFoundIffNoHeadings | src/components/calculated-metric/OperandSelector.tsx:93-97 | "No metrics found" shows exactly when there is no category heading. |
| CalculatedMetricPage.FindStep | src/pages/CalculatedMetricPage.tsx:31 | `find` yields a step exactly when one has the id. The step yielded is the first with that id. |
| CalculatedMetricPage.AssignFormula | src/pages/CalculatedMetricPage.tsx:47-59 | Every step with the selected id becomes assigned, as "Calculated metric", with the label as value. Every other step is unchanged, and ids, names and length are kept. |
| CalculatedMetricPage.AssignFormulaOverwrites | src/pages/CalculatedMetricPage.tsx:47-59 | Saving twice on one step keeps only the second label. |
| CalculatedMetricPage.SaveProgress | src/pages/CalculatedMetricPage.tsx:33-66 | The "Incomplete configuration" toast shows exactly when the mapping is a calculated metric and `isValid()` fails, and the funnel is then unchanged. Another mapping type leaves the funnel unchanged. A valid formula is assigned to the selected step. |
| CalculatedMetricPage.SavedStepShowsFormula | src/pages/CalculatedMetricPage.tsx:43-59 | After a valid save, the selected step is found with `isAssigned`, "Calculated metric" and the formula preview as value. |
| CalculatedMetricPage.UnnamedFormulaNeverSaves | src/pages/CalculatedMetricPage.tsx:34 | With the empty name the page leaves the store in, every calculated-metric save is refused, whatever the operands. |
| CalculatedMetricPage.NextStepId | src/pages/CalculatedMetricPage.tsx:68-75 | When the selected id first occurs at index `i`, 'next' leads to step `i+1` and past the last step nowhere. An unknown id (index -1) leads to the first step. |
| CalculatedMetricPage.PreviousStepId | src/pages/CalculatedMetricPage.tsx:77-84 | When the selected id first occurs at index `i`, 'previous' leads to step `i-1` and from the first step nowhere. An unknown id leads nowhere. |
| CalculatedMetricPage.PreviousButtonDisabled | src/pages/CalculatedMetricPage.tsx:162 | 'Previous step' is disabled exactly when the first step has the selected id. |
| CalculatedMetricPage.NavigationFromIndex | src/pages/CalculatedMetricPage.tsx:68-84 | With distinct ids, step `i` moves next to `i+1` and previous to `i-1`, never past an end. The 'Previous step' button (line 162) is disabled exactly at index 0. |
| CalculatedMetricPage.NavigationFromUnknownStep | src/pages/CalculatedMetricPage.tsx:69-79 | An unknown id (index -1) moves next to the first step and never back, and leaves 'Previous step' enabled. |
| CalculatedMetricPage.NextPreviousRoundTrip | src/pages/CalculatedMetricPage.tsx:68-84 | With distinct ids, 'previous' undoes 'next' and 'next' undoes 'previous'. |
| CalculatedMetricPage.SaveKeepsNavigation | src/pages/CalculatedMetricPage.tsx:47-59 | A save never changes where the step buttons lead, nor whether 'Previous step' is disabled. |
| CalculatedMetricPage.CommandsKeepIdsDistinct | src/pages/CalculatedMetricPage.tsx:137-140 | Every builder callback the page wires keeps operand ids distinct, given a fresh id for an addition. |
| CalculatedMetricPage.CalculatedMetricPageState.constructor | src/pages/CalculatedMetricPage.tsx:15-17 | The page starts on step 'cost', in calculated-metric mode, with the catalogue funnel and an empty store, so `NameUnset` holds. |
| CalculatedMetricPage.CalculatedMetricPageState.HandleSaveProgress | src/pages/CalculatedMetricPage.tsx:33-66 | The toast and the new funnel are `SaveProgress` of the old state. Step and mapping type are kept. While the store's name is `''` (`NameUnset`), a calculated-metric save shows "Incomplete configuration", leaves the funnel unchanged and leaves the name `''`. |
| CalculatedMetricPage.CalculatedMetricPageState.HandleNextStep | src/pages/CalculatedMetricPage.tsx:68-75 | If there is a next step, it is selected, the store is reset and the mapping becomes 'assign-metric'. Otherwise nothing changes. The funnel is kept either way, and so is `NameUnset`. |
| CalculatedMetricPage.CalculatedMetricPageState.HandlePreviousStep | src/pages/CalculatedMetricPage.tsx:77-84 | If there is a previous step, it is selected with the same reset. Otherwise nothing changes. `NameUnset` is kept. |
| CalculatedMetricPage.CalculatedMetricPageState.SelectStep | src/pages/CalculatedMetricPage.tsx:109 | Selecting a step in the funnel changes only the selection and does not reset the formula. `NameUnset` is kept. |
| CalculatedMetricPage.CalculatedMetricPageState.SelectMappingType | src/pages/CalculatedMetricPage.tsx:127 | Only the mapping type changes. `NameUnset` is kept. |
| CalculatedMetricPage.CalculatedMetricPageState.Dispatch | src/pages/CalculatedMetricPage.tsx:133-142 | While the builder is shown, each of its declared callbacks changes the operands as the store operation it is wired to, and keeps the name, so `NameUnset` is kept. |
| CalculatedMetricPage.CalculatedMetricPageState.HandleMetricNameChange | src/components/calculated-metric/CalculationBuilder.tsx:30-40 | This is the corrected wiring of the builder's `onMetricNameChange` to `setMetricName`. Only the store's name changes. |
| UtmConfigModal.OverlayParameter | src/components/calculated-metric/modals/UTMConfigModal.tsx:63 | `{...p, ...updates}`: each field the update sets takes its value, and each other field keeps the row's. |
| UtmConfigModal.AddParameterTo | src/components/calculated-metric/modals/UTMConfigModal.tsx:47-54 | With fewer than five rows, one empty row with the fresh id is appended. At five rows, the list is unchanged. |
| UtmConfigModal.RemoveParameterFrom | src/components/calculated-metric/modals/UTMConfigModal.tsx:56-60 | With one row or none, nothing changes. Otherwise every row with the id goes and the rest keep their multiplicity and order. |
| UtmConfigModal.UpdateParameterIn | src/components/calculated-metric/modals/UTMConfigModal.tsx:62-64 | Length is kept. Matching rows get the overlay and all others are unchanged. |
| UtmConfigModal.ParameterEditsKeepRows | src/components/calculated-metric/modals/UTMConfigModal.tsx:47-64 | From one to five rows with distinct ids, hold across three edits: adding with an unused id, removing, and updating without touching the id. |
| UtmConfigModal.SharedIdRemovesEveryRow | src/components/calculated-metric/modals/UTMConfigModal.tsx:56-60 | The guard counts rows, not ids: two rows sharing an id are removed together. |
| UtmConfigModal.FormComplete | src/components/calculated-metric/modals/UTMConfigModal.tsx:66-68 | `isValid` holds exactly when the name has a character that is not whitespace and a GA4 property and a metric are chosen. The rows are not checked. |
| UtmConfigModal.UtmConfigForm.constructor | src/components/calculated-metric/modals/UTMConfigModal.tsx:39-45 | The form starts empty, with the single row `'1'` and no save attempted. |
| UtmConfigModal.UtmConfigForm.SetName | src/components/calculated-metric/modals/UTMConfigModal.tsx:108 | Only the name changes. |
| UtmConfigModal.UtmConfigForm.SetGa4Property | src/components/calculated-metric/modals/UTMConfigModal.tsx:115 | Only the GA4 property changes. |
| UtmConfigModal.UtmConfigForm.SetMetric | src/components/calculated-metric/modals/UTMConfigModal.tsx:200 | Only the metric changes. |
| UtmConfigModal.UtmConfigForm.AddParameter | src/components/calculated-metric/modals/UTMConfigModal.tsx:47-54 | The rows become `AddParameterTo` of the old rows and the other fields are kept. Given an unused id, the row invariant is kept. |
| UtmConfigModal.UtmConfigForm.RemoveParameter | src/components/calculated-metric/modals/UTMConfigModal.tsx:56-60 | The rows become `RemoveParameterFrom` of the old rows, the other fields are kept and the row invariant is kept. |
| UtmConfigModal.UtmConfigForm.UpdateParameter | src/components/calculated-metric/modals/UTMConfigModal.tsx:62-64 | The rows become `UpdateParameterIn` of the old rows. The invariant is kept when the id is not updated. |
| UtmConfigModal.UtmConfigForm.ResetForm | src/components/calculated-metric/modals/UTMConfigModal.tsx:79-85 | The form returns to its initial state. |
| UtmConfigModal.UtmConfigForm.HandleSave | src/components/calculated-metric/modals/UTMConfigModal.tsx:70-77 | A complete form (name not blank, property and metric chosen, rows unchecked) emits its values, resets and closes. An incomplete one emits nothing, keeps its fields and shows the error. |
| UtmConfigModal.UtmConfigForm.HandleClose | src/components/calculated-metric/modals/UTMConfigModal.tsx:87-92 | The value is passed on. Closing resets the form and staying open changes nothing. |
| CustomConversionModal.OverlayGoal | src/components/calculated-metric/modals/CustomConversionModal.tsx:63 | `{...g, ...updates}`: each field the update sets takes its value, and each other field keeps the goal's. |
| CustomConversionModal.AddGoalTo | src/components/calculated-metric/modals/CustomConversionModal.tsx:49-54 | The list becomes the old goals followed by `{id: freshId, type: 'simple', goalName: '', metric: ''}` with no event name. It is appended at any length and is not complete. |
| CustomConversionModal.RemoveGoalFrom | src/components/calculated-metric/modals/CustomConversionModal.tsx:56-60 | With one goal or none, nothing changes. Otherwise every goal with the id goes and the rest keep their multiplicity and order. |
| CustomConversionModal.UpdateGoalIn | src/components/calculated-metric/modals/CustomConversionModal.tsx:62-64 | Length is kept. Matching goals get the overlay and all others are unchanged. |
| CustomConversionModal.GoalComplete | src/components/calculated-metric/modals/CustomConversionModal.tsx:68-73 | A complete goal has a metric. A simple goal is complete exactly when it has a goal name and a metric, an event-name goal exactly when it has a non-empty event name and a metric. |
| CustomConversionModal.FormComplete | src/components/calculated-metric/modals/CustomConversionModal.tsx:66-74 | `isValid` holds exactly when the name has a character that is not whitespace and some goal is complete. A complete form has at least one goal. |
| CustomConversionModal.GoalEditsKeepList | src/components/calculated-metric/modals/CustomConversionModal.tsx:49-64 | At least one goal with distinct ids holds across three edits: adding with an unused id, removing, and updating without touching the id. |
| CustomConversionModal.RemoveKeepsGoal | src/components/calculated-metric/modals/CustomConversionModal.tsx:56-60 | Removing an id keeps every goal whose id differs, whatever the length of the list. |
| CustomConversionModal.CompletenessUnderEdits | src/components/calculated-metric/modals/CustomConversionModal.tsx:66-74 | Adding a goal keeps a complete form complete, and so does removing a goal other than a complete one. |
| CustomConversionModal.TypeSwitchNeedsEventName | src/components/calculated-metric/modals/CustomConversionModal.tsx:66-74 | Switching a complete simple goal to event-name keeps its goal name but leaves it incomplete until an event is chosen. |
| CustomConversionModal.CustomConversionForm.constructor | src/components/calculated-metric/modals/CustomConversionModal.tsx:43-47 | The form starts with an empty name, the single simple goal `'1'` and no save attempted. |
| CustomConversionModal.CustomConversionForm.SetName | src/components/calculated-metric/modals/CustomConversionModal.tsx:112 | Only the name changes. |
| CustomConversionModal.CustomConversionForm.AddGoal | src/components/calculated-metric/modals/CustomConversionModal.tsx:49-54 | The goals become `AddGoalTo` of the old goals. Given an unused id, the invariant is kept. |
| CustomConversionModal.CustomConversionForm.RemoveGoal | src/components/calculated-metric/modals/CustomConversionModal.tsx:56-60 | The goals become `RemoveGoalFrom` of the old goals and the invariant is kept. |
| CustomConversionModal.CustomConversionForm.UpdateGoal | src/components/calculated-metric/modals/CustomConversionModal.tsx:62-64 | The goals become `UpdateGoalIn` of the old goals. The invariant is kept when the id is not updated. |
| CustomConversionModal.CustomConversionForm.ResetForm | src/components/calculated-metric/modals/CustomConversionModal.tsx:85-89 | The form returns to its initial state. |
| CustomConversionModal.CustomConversionForm.HandleSave | src/components/calculated-metric/modals/CustomConversionModal.tsx:76-83 | A form whose name is not blank and which has a complete goal (simple: goal name and metric; event-name: event and metric) emits `{name, goals}`, resets and closes. Otherwise it emits nothing, keeps its fields and shows the error. |
| CustomConversionModal.CustomConversionForm.HandleClose | src/components/calculated-metric/modals/CustomConversionModal.tsx:91-96 | The value is passed on. Closing resets the form and staying open changes nothing. |
| ManageConstantsModal.DraftComplete | src/components/calculated-metric/modals/ManageConstantsModal.tsx:51-53 | `isValidNew` holds exactly when the value text is not empty and the name has a character that is not whitespace. |
| ManageConstantsModal.ApplyDraftEdit | src/components/calculated-metric/modals/ManageConstantsModal.tsx:163-249 | The edited field takes the input's value (the periods through `parseInt(..) \|\| 1`), and every other field of the draft is kept. |
| ManageConstantsModal.PeriodsFromInput | src/components/calculated-metric/modals/ManageConstantsModal.tsx:248 | `parseInt(..) \|\| 1` is the parsed count when it is not 0. Otherwise (0 or NaN) it is 1. It is never 0. |
| ManageConstantsModal.DraftEditsKeepPeriods | src/components/calculated-metric/modals/ManageConstantsModal.tsx:163-249 | No input of the draft makes the periods 0. Only the name and value inputs change whether the draft can be added. |
| ManageConstantsModal.BuildConstant | src/components/calculated-metric/modals/ManageConstantsModal.tsx:59-67 | The id is `const-` followed by the timestamp, and name, parsed value, unit and switch are taken from the draft. The location is absent exactly for 'Global'. The periods are present exactly when time-varying. |
| ManageConstantsModal.ListedPeriods | src/components/calculated-metric/modals/ManageConstantsModal.tsx:130 | `constant.periods \|\| 1` is never 0. It is the stored count when that is set and not 0, and 1 otherwise. |
| ManageConstantsModal.ListingShowsDraft | src/components/calculated-metric/modals/ManageConstantsModal.tsx:121-133 | An added constant is listed as the draft was filled in: time-varying exactly when the switch was on, with the draft's periods, and with the location unless that was 'Global'. |
| ManageConstantsModal.OfferedLocationsAreListed | src/components/calculated-metric/modals/ManageConstantsModal.tsx:23 | Every offered location other than 'Global' shows in the listing. |
| ManageConstantsModal.ManageConstantsForm.constructor | src/components/calculated-metric/modals/ManageConstantsModal.tsx:40-49 | The dialog starts closed to adding, with the default draft ('%', not time-varying, 'Global', 1 period). |
| ManageConstantsModal.ManageConstantsForm.StartAdding | src/components/calculated-metric/modals/ManageConstantsModal.tsx:268 | Only the adding section opens. |
| ManageConstantsModal.ManageConstantsForm.EditDraft | src/components/calculated-metric/modals/ManageConstantsModal.tsx:163-249 | The draft becomes the old draft with the input's field set. Nothing else changes and the periods stay non-zero. |
| ManageConstantsModal.ManageConstantsForm.ResetNewConstant | src/components/calculated-metric/modals/ManageConstantsModal.tsx:73-84 | The draft, the section and the save attempt return to their defaults. |
| ManageConstantsModal.ManageConstantsForm.HandleAddConstant | src/components/calculated-metric/modals/ManageConstantsModal.tsx:55-71 | A complete draft (name not blank, value not empty) emits `BuildConstant` of it and resets. An incomplete one emits nothing, keeps the draft and shows the error. |
| ManageConstantsModal.ManageConstantsForm.HandleClose | src/components/calculated-metric/modals/ManageConstantsModal.tsx:86-91 | The value is passed on. Closing resets the section and staying open changes nothing. |
| TitledConfigModal.DialogTitle | src/components/calculated-metric/modals/CustomImportModal.tsx:66 | Each dialog has its own heading: "Create custom import configuration" exactly for the import dialog and "Create custom KPI configuration" (CustomKPIModal.tsx line 66) exactly for the KPI one. |
| TitledConfigModal.TitledComplete | src/components/calculated-metric/modals/CustomImportModal.tsx:36-38 | `isValid` holds exactly when a metric is chosen and the title has a character that is not whitespace. |
| TitledConfigModal.TitledConfigForm.constructor | src/components/calculated-metric/modals/CustomImportModal.tsx:32-34 | The form starts empty with no save attempted. |
| TitledConfigModal.TitledConfigForm.SetTitle | src/components/calculated-metric/modals/CustomImportModal.tsx:76 | Only the title changes. |
| TitledConfigModal.TitledConfigForm.SetMetric | src/components/calculated-metric/modals/CustomImportModal.tsx:83 | Only the metric changes. |
| TitledConfigModal.TitledConfigForm.ResetForm | src/components/calculated-metric/modals/CustomKPIModal.tsx:49-53 | Title, metric and save attempt return to empty. The same holds at the same lines of CustomImportModal.tsx. |
| TitledConfigModal.TitledConfigForm.HandleSave | src/components/calculated-metric/modals/CustomKPIModal.tsx:40-47 | A complete form emits `{title, metric}`, resets and closes. An incomplete one only records the attempt and shows the error. The same holds at the same lines of CustomImportModal.tsx. |
| TitledConfigModal.TitledConfigForm.HandleClose | src/components/calculated-metric/modals/CustomKPIModal.tsx:55-60 | The value is passed on. Closing resets and staying open keeps the fields. The same holds at the same lines of CustomImportModal.tsx. |

## Left out

Presentation and host code:
- JSX markup, styling, the Radix dialogs, selects, popovers and tabs, and the dnd-kit sensors and animation are presentation. Only the handlers' effects on data are modelled.
- The layout, the sidebar, `FunnelVisualization.tsx`, `MappingTypeSelector.tsx` and `DraggableOperand.tsx` are not part of this model. They render without logic of their own; the operator badge rule of `DraggableOperand.tsx` is the one `FormulaPreview` states.
- Toasts, `onSave`, `onAddConstant` and `onOpenChange` are side effects on the host. They are returned values here.
- The `onSave` prop of the constants dialog is declared but never called, so it has no counterpart.
- React's batching and the handlers' stale closures are not modelled. Each handler runs to completion on the current state.

Inputs and JavaScript semantics:
- Id generation (`Date.now()`, `Math.random()`) is nondeterministic and not guaranteed unique, so ids are parameters. Distinct-id invariants are stated on the condition that the id given is unused.
- `parseFloat`, `parseInt` and floating-point values are left out. A number is carried as its display text, and the parse result is a parameter.
- The listing of constants concatenates numbers into text. Only the parts the listing chooses are modelled (time-varying, location, periods and plural), not the final string.
- `Object.entries` order of the category buckets is modelled as first-insertion order. That differs for integer-like category names, and a category named like an `Object.prototype` member is not modelled.
- The page heading `Configure {selectedStep?.name}` is modelled as `FindStep`. The text rendered for a missing step is left out.

Operations modelled weaker than or differently from the source:
- UseCalculatedMetric.ReorderById: requires both ids to be present. `arrayMove` with index -1 is behaviour of the dnd-kit library; the same requirement is on `CalculatedMetricStore.ReorderOperands` and `CalculatedMetricPageState.Dispatch`.
- OperandSelector.FilterMetrics: lower-cases ASCII letters only. Unicode case mapping is left out.
- OperandSelector.FilterConstants: lower-cases ASCII letters only, with the same helper. Unicode case mapping is left out.
- CustomConversionModal.GoalUpdate: an update cannot set `eventName` back to `undefined`, since no caller sends that.
- CalculatedMetricPage.CalculatedMetricPageState: the page destructures a `setOperands` the store does not return and passes an `onSetOperands` the builder does not declare. Neither is ever called, so neither is modelled. Each interface is modelled as its own file declares it.

Where this model follows the code rather than the usual description of a formula builder:
- There is no grouping, no ungrouping and no numeric evaluation.
- `removeOperand` and `reorderOperands` never clear the new head's operator, and `updateOperator` does not guard index 0. The renderers ignore the head's operator instead.
- The saved label has no `= Result`; only the panel shows it.
- The store's multiply glyph is kept as the source spells it (U+00C3 U+2014), not as U+00D7.

## Findings

| source | as written | input that shows it | evidently intended | confidence | as-written member | corrected member |
|---|---|---|---|---|---|---|
| src/components/calculated-metric/OperandSelector.tsx:25-28 | `m.source.toLowerCase()` is called on an optional `source` | a metric with no source whose name misses the search, e.g. `Clicks` with no source and the search "x", makes the filter throw a TypeError | a missing source does not match | not executed; latent with the shipped catalogue, where every metric has a source | OperandSelector.FilterMetricsAsWrittenThrows | OperandSelector.FilterMetrics |
| src/pages/CalculatedMetricPage.tsx:133-142 | the page passes neither `metricName` nor `onMetricNameChange` to the builder. Typing in the name input calls the undefined `onMetricNameChange` (CalculationBuilder.tsx line 100), which throws a TypeError. The store's name stays `''` (`CalculatedMetricPageState.NameUnset`, kept by every page handler) | any funnel in calculated-metric mode with any operands: every save shows "Incomplete configuration", and typing a name throws | `onMetricNameChange` wired to `setMetricName` | not executed | CalculatedMetricPage.UnnamedFormulaNeverSaves | CalculatedMetricPage.CalculatedMetricPageState.HandleMetricNameChange |
