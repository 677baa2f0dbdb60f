# Role-based clinical note engine: a Dafny model

This project models the record engine of `backend/app.py`: an in-memory
timeline of clinical notes that patients, staff, clinicians, the AI scribe and
the system write to, with per-role visibility, version history with revert,
an action (task) workflow with forwarding and an audit trail, text highlights,
and the "glance" summary view with time-decayed key signals.

The model is split by concern:

- `wrappers.dfy` (`Wrappers`): `Option`, `Result` and the four error outcomes.
  These are not-found (404), unauthorised (403), no history to revert (400),
  and an invalid role for ending a consult (400).
- `text.dfy` (`Text`): the string operations the handlers use. These are
  `str.find`, substring tests, ASCII `lower`/`title`, `replace`, slicing and
  code-point string order.
- `ordering.dfy` (`Ordering`): a descending sort by a total preorder, standing
  in for Python's `sort(..., reverse=True)`.
- `records.dfy` (`Records`): the note, highlight, action and scope records.
  It also holds the versioning invariant `version == |history| + 1`.
- `access.dfy` (`Access`): `SCOPE_TEMPLATES`, `get_standardized_scope`,
  `can_view_note` and `can_edit_note`.
- `versioning.dfy` (`Versioning`): the note lookup and the edit and revert
  transitions of one note.
- `intake.dfy` (`Intake`): the note a `create_note` request builds, and the
  note `end_consult` builds. Both merge suggested highlights and actions.
- `workflow.dfy` (`Workflow`): the first-match action search, and the
  timeline after `resolve_action`.
- `glance.dfy` (`Glance`): the decay weight and the glance view as functions.
  It also holds the loop methods that gather the view in one pass.
- `store.dfy` (`Store`): class `NoteStore`, holding the global `notes` and
  `system_actions` lists. `get_timeline` changes nothing and is the function
  `Timeline`. Every other request handler is a method with a `modifies`
  clause. Each method's `ensures` ties the result and the new timeline to the
  pure functions above. Each method also keeps the versioning invariant.
- `scenarios.dfy` (`Scenarios`): request sequences from the repository's test
  files, replayed against a fresh store.

The collaborators the handlers call are parameters:

- the current time is `now` (a string);
- the age of a timestamp in whole days is `age: string -> Option<int>`, where
  `None` means a timestamp that does not parse;
- fresh ids come from an `IdSource` seed `ids`: the k-th id a request draws
  is `FreshId(ids, k)`. The handler draws the note id first, then the ids of
  accepted highlights, suggested actions and manual actions. Some handlers
  take explicit id parameters instead;
- the suggestion generator's output is a `Suggestions` value. No generator
  configured is `NoSuggestions`.

Where the code and its documentation disagree, the model follows the code.

- `calculate_decay_weight`'s docstring promises linear decay to 0% at 14 days.
  The code computes `1 / (1 + 0.5 * days)`, which gives 0.5 at two days.
  The model uses the formula.
- Only `critical` highlights are exempt from the decay filter. User
  highlights are not.
- The admin sees every action on the glance view, resolved ones included.
- Nothing stops an already resolved action from being resolved again.
- `add_highlight` checks no role.
- `tests/test_rbac_scope.py:37-57` expects a patient to see a
  `clinician_note`. The code resolves that type to clinician-only
  (`backend/app.py:254-255`). The model follows the code:
  `Access.PatientViewOfImplicitScope`.

## Model

| member | source | states |
|---|---|---|
| Access.TemplatesDistinct | backend/app.py:205-224 | the three templates are pairwise different maps |
| Access.LegacyTemplate | backend/app.py:237-246 | a legacy tag resolves to a template: patient-visible iff the tag is `patient`, clinician-only iff it is `clinician`, and staff-visible for `staff` and for every unknown tag |
| Access.InferredTemplate | backend/app.py:248-267 | a missing scope is inferred from the type: clinician-only iff a doctor summary or clinician note, patient-visible iff a patient session summary or patient input, and staff-visible for every other type |
| Access.StandardScope | backend/app.py:226-267 | an explicit map is returned verbatim; any other stored scope resolves to a template |
| Access.CanView | backend/app.py:269-281 | the admin may always view; a patient never views a nurse consult summary; any other view is granted by the resolved scope naming the role as true |
| Access.CanEdit | backend/app.py:283-292 | the admin may always edit; anyone else only their own notes, or the clinician an AI or system note |
| Access.AdminSeesAll | backend/app.py:270-271 | the admin sees a note whatever its scope |
| Access.ExplicitScopeDecides | backend/app.py:226-281 | with an explicit map, a role other than the admin (and other than a patient facing a nurse summary) sees the note iff the map names it as true |
| Access.StaffViewOfImplicitScope | backend/app.py:237-267 | without an explicit map, staff are hidden from a note iff it has the legacy tag `clinician`, or has no scope and a doctor-summary or clinician-note type |
| Access.Viewable | backend/app.py:299 | the filter keeps exactly the notes the role may view, and is no longer than the timeline |
| Access.ViewableCounts | backend/app.py:299 | each note the role may view is kept as many times as the store holds it, and every other note is dropped |
| Access.TemplatesAreNested | backend/app.py:205-224 | the templates are nested clinician-only ⊆ staff-visible ⊆ patient-visible; all grant the clinician and the admin, and none grants an unknown role |
| Access.ResolvedScopeIsStable | backend/app.py:226-281 | storing the resolved map back into a note changes neither the map nor anyone's view of the note |
| Access.NurseSummaryHiddenFromPatient | backend/app.py:273-275 | whatever scope a nurse consult summary carries, even an explicit map granting the patient, the patient cannot view it |
| Access.PatientViewOfImplicitScope | backend/app.py:237-281 | without an explicit map, a patient sees a note iff it has the legacy tag `patient` (and is not a nurse summary), or has no scope and a patient-facing type |
| Access.ImplicitScopeViewers | backend/app.py:269-281 | an unknown role sees a note iff the note's own map names it as true; the clinician and the admin see every note without an explicit map |
| Access.EditDependsOnAuthorOnly | backend/app.py:283-292 | edit rights depend on the author alone, not on type, scope or content |
| Access.EditFollowsAuthorship | backend/app.py:283-292 | the edit truth table: the admin always; otherwise only one's own notes, plus AI and system notes for the clinician, who may edit both; an unknown role never |
| Access.ViewDoesNotImplyEdit | backend/app.py:269-292 | there are notes staff see but may not edit, and notes the clinician sees but may not edit |
| Versioning.FindNote | backend/app.py:619 | the lookup finds the first note with the id, and finds none iff no note has it |
| Versioning.EditedNote | backend/app.py:624-641 | an edited note keeps its id, gains one version and the prior state as its last snapshot, and carries the edit time |
| Versioning.EditRecordsPriorState | backend/app.py:624-634 | an edit appends exactly one snapshot (the prior note with empty history) after the untouched earlier ones, adds one to the version, sets the content to the new content or keeps it, stamps the edit time, leaves id, type, highlights, actions, scope, the revert record and the provenance alone, keeps author and last editor unless the clinician takes an AI note over, and keeps the versioning invariant |
| Versioning.TakeoverLocksOutStaff | backend/app.py:636-641 | a clinician edit of an AI note makes it the clinician's, with last editor clinician, so staff and the patient can no longer edit it |
| Versioning.EditorKeepsRights | backend/app.py:621-641 | whoever may edit a note may still edit it after their own edit |
| Versioning.EditKeepsAuthor | backend/app.py:636-641 | an edit changes the author iff a clinician edits an AI note |
| Versioning.RevertedNote | backend/app.py:665-731 | a reverted note keeps its id, gains one version and the pre-revert state as its last snapshot, and records who reverted it and when |
| Versioning.RevertRestoresLastState | backend/app.py:665-731 | a revert takes content and author from the last snapshot, appends the pre-revert state after all earlier entries, adds one to the version, records the revert time and role, leaves the timestamp, type, highlights, actions, scope, last editor and provenance, and keeps the versioning invariant |
| Versioning.EditThenRevert | backend/app.py:614-731 | edit then revert restores the pre-edit content and author; history grows by two (pre-edit state, then edited state) and the version by two |
| Intake.AcceptedHighlights | backend/app.py:371-382 | no more highlights than candidates are accepted, and each one's start is the first occurrence of its text in the content, with end = start + length |
| Intake.AcceptedIffOccurs | backend/app.py:371-373 | a candidate's text is among the accepted highlights iff it occurs in the content |
| Intake.OccurringCounts | backend/app.py:371-382 | each suggestion whose text occurs is kept as many times as it was made, even when other suggestions share its text, and every other suggestion is dropped |
| Intake.AcceptedOnePerOccurring | backend/app.py:371-382 | the accepted highlights match the occurring suggestions one for one and in order. Each is anchored at the first occurrence of its text and has the next fresh id |
| Intake.AcceptedFromSuggestion | backend/app.py:374-382 | every accepted highlight is a candidate with its default type (`risk`) and reason (`AI detected`) filled in, at a found position |
| Intake.MergeHighlights | backend/app.py:371-382 | the merge loop computes exactly the accepted highlights |
| Intake.MergeSuggestedActions | backend/app.py:384-394 | the loop computes, for each suggestion in order, a pending AI action tied to the new note, with the description, title or `Untitled Action` as title, and the clinician as default assignee |
| Intake.AddManualActions | backend/app.py:397-414 | the loop computes, for each manual title in order, an unresolved action by the creator, assigned by the role swap |
| Intake.NewNote | backend/app.py:340-351 | the new note has the first fresh id, the creator as author, the given content and the current time, version 1 and no history |
| Intake.BuildNote | backend/app.py:340-414 | the building steps produce exactly the new note |
| Intake.NewNoteShape | backend/app.py:340-414 | a new note satisfies the invariant; its added highlights are anchored; suggested actions are pending and from the AI; manual ones are unresolved and swap-assigned; all actions point to the note; a patient gets no suggestions |
| Intake.ManualAssigneeSwaps | backend/app.py:400-404 | manual tasks cross between the clinician and staff, and anyone else's go to staff |
| Intake.ConsultNote | backend/app.py:564-612 | the consult summary is a version-1 system note with no history, the first fresh id, the summary as content, the role's summary type and scope, and the source note as provenance |
| Intake.BuildConsultNote | backend/app.py:564-612 | the building steps produce exactly the consult summary |
| Intake.ConsultNoteAudience | backend/app.py:500-612 | a doctor summary is seen by the clinician and the admin, a nurse summary also by staff, and a patient session summary by everyone. Only the clinician and the admin may edit it. It is version 1, its highlights are anchored, and a patient's gets no suggestions |
| Intake.ConsultRoles | backend/app.py:500-513 | only the clinician, staff and the patient may end a consult |
| Workflow.FindActionIn | backend/app.py:431-435 | the inner scan finds the first action with the id, and none iff no action has it |
| Workflow.FindAction | backend/app.py:427-438 | the nested scan finds the first note holding the id and, in it, the first action; none iff no note holds it |
| Workflow.FindActionCharacterized | backend/app.py:427-438 | the first-match conditions determine the scan's result |
| Workflow.Resolution | backend/app.py:445-490 | the timeline grows by one: the system log entry with the log id comes first, and every note but the one holding the action moves down one unchanged; that note keeps its id, content and version |
| Workflow.Resolve | backend/app.py:445-490 | the resolving steps (mark resolved, append the titled follow-up, build the audit text, put the log note first) produce exactly the resolution, and the returned action is the resolved one |
| Workflow.ResolutionEffect | backend/app.py:445-490 | the log note comes first, and it is exactly the scopeless system note with the log id, the time and the audit text of this resolution and its forward. The timeline shifts by one. The held note changes only in its actions: that action is resolved with the time and comment, the others are untouched, and one follow-up is appended iff a forward names a non-empty title, unresolved, with the original provenance and the swapped assignee |
| Workflow.ResolutionKeepsConsistent | backend/app.py:445-490 | a resolution keeps the versioning invariant of every note |
| Workflow.ResolvedActionStaysFirst | backend/app.py:427-448 | after a resolution the same id leads to the same action, now resolved |
| Workflow.LogTextRecords | backend/app.py:452-477 | the audit text opens with the resolved title. It contains the comment when one is given, and the follow-up's assignee and title when one is created. With neither, it is only the opening line |
| Workflow.LogNoteAudience | backend/app.py:480-490 | the audit note, with no scope of its own, is seen exactly by staff, the clinician and the admin, and edited exactly by the clinician and the admin |
| Workflow.ForwardAssigneeSwaps | backend/app.py:461 | a forward goes to staff iff the clinician forwards, and otherwise to the clinician |
| Glance.DecayWeight | backend/app.py:95-113 | the decay weight lies in [0, 1], and is 1.0 for a timestamp that does not parse |
| Glance.PastWeight | backend/app.py:108-111 | for a past timestamp the weight is 1 / (1 + 0.5 days), unclamped |
| Glance.DecayThreshold | backend/app.py:95-113 | an item d ≥ 0 days old weighs less than 0.2 iff d ≥ 9 |
| Glance.DecayMonotone | backend/app.py:95-113 | older items never weigh more |
| Glance.DecayFixedPoints | backend/app.py:100-113 | weight 1.0 today and 0.5 at two days; 1.0 one or two days ahead (the second by the caught division by zero); 0.0 three or more days ahead |
| Glance.Annotated | backend/app.py:808-810 | tagging changes a highlight only in its note id, weight and timestamp |
| Glance.KeptSignals | backend/app.py:806-815 | no more signals are kept than the note has highlights, and each kept one passes the filter and carries the note's id, the weight and the note's timestamp |
| Glance.KeptSignalsCounts | backend/app.py:806-815 | each tagged highlight that passes the filter is kept as many times as the note holds it, and no other highlight is kept |
| Glance.KeptSignalsMembership | backend/app.py:806-815 | a note's kept signals are exactly its tagged highlights that are critical or weigh at least 0.2 |
| Glance.Signals | backend/app.py:803-815 | every collected signal carries an annotation |
| Glance.SignalsMembership | backend/app.py:788-815 | the collected signals are exactly the union of the per-note contributions |
| Glance.WeighingIsHarmless | backend/app.py:806-810 | tagging the stored highlights changes nothing else: no one's view or edit rights, and not the versioning invariant |
| Glance.ShownActionsMembership | backend/app.py:819-834 | a note's shown actions are exactly those the admin sees (all), or the open ones assigned to the role |
| Glance.ShownActionsCounts | backend/app.py:819-834 | each shown action appears as many times as in the note, and no other action appears |
| Glance.TimelineActionsMembership | backend/app.py:817-834 | the shown actions come from any note, whether or not the role sees it |
| Glance.Confirmed | backend/app.py:838-861 | each note yields at most two confirmed items |
| Glance.ConfirmedSources | backend/app.py:838-861 | each confirmed item comes from a clinician-written note the role sees: a decision item from one mentioning plan or decision or of type clinician note, a modification item from one whose first snapshot the AI wrote |
| Glance.DecisionsConfirmed | backend/app.py:838-847 | every clinician note the role sees that records a decision yields its decision item |
| Glance.ModificationsConfirmed | backend/app.py:849-861 | every clinician-written note the role sees whose first snapshot the AI wrote yields its modification item |
| Glance.SummaryShape | backend/app.py:798 | the summary is the content when at most 100 characters, else its first 100 characters then `...` |
| Glance.Unmarked | backend/app.py:797 | removing the `ai_` markers never lengthens the type, and removes at least three characters from a type that starts with `ai_` |
| Glance.Humanize | backend/app.py:797 | the humanised type is as long as the unmarked type, so three characters shorter when the type starts with `ai_`. Each underscore of the unmarked type becomes a space, every other character stays the same up to the case of a letter, a letter is upper-case exactly where a word starts, and no underscore is left |
| Glance.MarkerNotShown | backend/app.py:797 | a type shows the same with or without the leading `ai_` marker |
| Glance.Scribed | backend/app.py:791-801 | each note yields at most one AI-scribed entry |
| Glance.ScribedEntries | backend/app.py:791-801 | each AI-scribed entry comes from an `ai_`-typed note the role sees, with its id, humanised type, summary, timestamp and author |
| Glance.ScribedComplete | backend/app.py:791-801 | every `ai_`-typed note the role sees yields its AI-scribed entry |
| Glance.SignalOrder | backend/app.py:867 | the (weight, timestamp) order is total and transitive |
| Glance.SortSignals | backend/app.py:867 | the sorted signals are a permutation of the collected ones, non-increasing by (weight, timestamp) |
| Glance.GlanceOf | backend/app.py:775-874 | the view is suppressed iff the role is the patient; otherwise its actions start with the store-level ones and it has as many key signals as were collected |
| Glance.KeySignalsExact | backend/app.py:803-867 | the key signals are exactly the tagged highlights of notes the role sees that are critical or weigh at least 0.2 |
| Glance.KeySignalsOrdered | backend/app.py:867 | key signals come heaviest first, and newest first among equal weights |
| Glance.DecayFilter | backend/app.py:806-815 | a non-critical highlight of a visible note d ≥ 0 days old is a key signal iff d < 9 |
| Glance.GlanceActionsExact | backend/app.py:784-834 | the glance actions are exactly the store-level ones plus the shown actions of all notes; for a non-admin each is an open action assigned to the role |
| Glance.ConfirmedForClinicalRolesOnly | backend/app.py:863-864 | confirmed items are emptied unless the role is the clinician or the admin |
| Glance.WeighHighlights | backend/app.py:806-815 | the loop tags every highlight of the note and keeps exactly the ones the filter lets through |
| Glance.SelectActions | backend/app.py:819-834 | the loop keeps exactly the shown actions, in order |
| Glance.ConfirmItems | backend/app.py:838-861 | the note's confirmed items are computed exactly |
| Glance.VisitNote | backend/app.py:788-861 | one note's tagged form, signals, shown actions, confirmed items and AI-scribed entry are computed exactly |
| Glance.Gather | backend/app.py:781-861 | the pass over the timeline computes the tagged timeline and each collected list exactly |
| Text.Find | backend/app.py:373 | `find` gives the first index where the text occurs, or -1 iff it occurs nowhere |
| Text.Lower | backend/app.py:840 | lower-casing keeps the length, keeps every character that is not an upper-case letter, and turns each upper-case letter into the lower-case letter it is the capital of |
| Text.LowerIsIdempotent | backend/app.py:840 | lower-casing twice is lower-casing once, and no upper-case letter is left |
| Text.Title | backend/app.py:797 | title-casing keeps the length and every non-letter; a lower-case letter that starts a word becomes its capital, an upper-case letter inside a word becomes its lower-case form, and letters already in the right case stay |
| Text.TitleIsIdempotent | backend/app.py:797 | title-casing twice is title-casing once |
| Text.TitleChangesCaseOnly | backend/app.py:797 | title-casing changes nothing but the case of letters |
| Text.TitleCapitalisesWords | backend/app.py:797 | title-casing keeps which characters are letters, and afterwards a letter is upper-case exactly where a word starts |
| Text.Replace | backend/app.py:797 | replacing by the empty string never lengthens the text and removes at least the pattern's length when the pattern occurs; replacing by a text of the pattern's length keeps the length |
| Text.ReplaceSkips | backend/app.py:797 | a prefix in which the pattern starts nowhere is kept as it is |
| Text.ReplaceAtFirst | backend/app.py:797 | with no occurrence nothing changes; otherwise the text before the first occurrence `find` reports is kept, that occurrence becomes the replacement, and replacing goes on after it |
| Text.ReplaceCharByChar | backend/app.py:797 | replacing one character by another keeps the length and rewrites exactly the places where that character stood |
| Text.ReplaceAbsent | backend/app.py:797 | replacing a pattern that occurs nowhere changes nothing |
| Text.StartsWith | backend/app.py:794 | a text starts with a prefix iff the prefix occurs at index 0, and then `find` gives 0 |
| Store.NoteOrder | backend/app.py:301 | ordering by timestamp is total and transitive |
| Store.WithoutHighlight | backend/app.py:771 | removal keeps exactly the highlights with another id |
| Store.WithoutAbsentId | backend/app.py:771 | removing an id that is not there changes nothing |
| Store.RemoveUndoesAdd | backend/app.py:738-773 | removing a highlight just added under a fresh id restores the list |
| Store.RemoveIsIdempotent | backend/app.py:771 | removing twice is removing once |
| Store.NoteStore.constructor | backend/app.py:46-85 | the store starts with the loaded notes and no store-level actions |
| Store.NoteStore.Timeline | backend/app.py:296-302 | the timeline is a permutation of the viewable notes, holds exactly the notes the role may view, and is sorted newest first |
| Store.NoteStore.Locate | backend/app.py:619 | the loop finds the first note with the id |
| Store.NoteStore.LocateAction | backend/app.py:427-438 | the nested loop with early exit finds the first matching action |
| Store.NoteStore.CreateNote | backend/app.py:304-417 | a patient filing anything but patient input is refused and nothing changes; otherwise the new note is placed first and returned, and the invariant is kept |
| Store.NoteStore.EndConsult | backend/app.py:494-612 | a role other than the clinician, staff or the patient is refused and nothing changes; otherwise the summary note is placed first and returned |
| Store.NoteStore.UpdateNote | backend/app.py:614-643 | an unknown id gives not-found and an unauthorised role unauthorised, both with no change; otherwise exactly the first note with the id is replaced by its edited form, and the invariant is kept |
| Store.NoteStore.RevertNote | backend/app.py:645-736 | not-found, unauthorised and empty history (in that order) change nothing; otherwise exactly that note is replaced by its reverted form, and the invariant is kept |
| Store.NoteStore.AddHighlight | backend/app.py:738-762 | an unknown id gives not-found with no change; otherwise a user highlight is appended to that note only |
| Store.NoteStore.RemoveHighlight | backend/app.py:764-773 | an unknown id gives not-found with no change; otherwise that note loses exactly the highlights with the id |
| Store.NoteStore.ResolveAction | backend/app.py:419-492 | a missing action gives not-found, and a requester neither admin nor assignee gets unauthorised, both with no change; otherwise the timeline becomes the resolution, the resolved action is returned, and the invariant is kept |
| Store.NoteStore.Glance | backend/app.py:775-874 | a patient gets nothing and nothing changes; otherwise the view is the glance function of the prior timeline, and the stored highlights of visible notes are tagged |
| Store.NoteStore.Reset | backend/app.py:876-881 | both lists are emptied |
| Scenarios.ConcurrentEdits | tests/test_concurrent_edits.py:1-39 | after a clinician edit of an AI note, a staff edit is refused and the clinician's content and authorship remain |
| Scenarios.EditIncrementsVersion | tests/test_revision_history.py:1-21 | one edit gives version 2 with the new content, and one snapshot holding the original content at version 1 |
| Scenarios.EditThenUndo | backend/app.py:614-731 | a clinician correcting and then reverting an AI note gets the AI content and author back at version 3, with both earlier states saved |
| Scenarios.PatientCannotFileClinicianNote | backend/app.py:310-311 | a patient's clinician note is refused and the timeline stays empty |

## Left out

- HTTP: Flask routing, JSON request parsing, `jsonify` and status codes
  (`backend/app.py:12-28`, `883-896`). Each handler takes typed parameters.
  It returns a `Result`, whose error cases stand for the 404, 403 and 400
  responses.
- Fernet key loading and decrypting `note.json` at start-up
  (`backend/app.py:49-81`). This is file I/O and cryptography; the
  constructor takes the loaded notes as a value.
- `call_llm_analysis` and every Gemini call (`backend/app.py:136-199`). These
  are a foreign, nondeterministic service, so the model takes their output as
  an untrusted `Suggestions` parameter.
- `redact_phi` (`backend/app.py:115-134`). It only shapes the text sent to
  that service.
- The generated consult summary text and the `simulate_ai` scenario content
  (`backend/app.py:316-338`, `516-563`). `content` and `summary` are
  parameters holding whatever text the handler ends up with.
- `datetime.now`, `strftime`, `strptime` and `uuid4` (`backend/app.py:89-104`).
  These are the `now`, `age` and id parameters. `uuid4` draws random ids;
  the model draws `FreshId(ids, k)` from a seed and promises nothing about
  ids being distinct.
- Glance.DecayWeight: the weight is computed in exact real arithmetic rather
  than IEEE doubles. The 0.2 cut-off agrees at every whole-day age: day 8
  gives exactly 0.2 in both.
- Text.Lower, Text.Title: case mapping covers ASCII letters only. Python's
  `lower` and `title` also map other Unicode letters, and `title` then also
  treats them as word characters.
- Store.NoteStore.Timeline: Python's sort is stable, so notes with equal
  timestamps keep their store order. The model promises a permutation sorted
  newest first, but not that tie order.
- Glance.SortSignals: signals with equal (weight, timestamp) keep their
  collected order in Python. The model does not promise that tie order.
- Records with fields missing or of the wrong JSON type are left out. For
  example, a highlight without a `type` would be read as `None` by the
  glance filter.
- Access.CanView: a stored scope is a dict of booleans, a legacy tag string
  or no scope. A dict holding other values (1, "yes", `None`) is left out.
  `can_view_note` returns such a value as it is, and Python truthiness
  decides (`backend/app.py:281`).
- Store.NoteStore.AddHighlight: `text`, `start` and `end` are taken as given
  values. A request that omits them stores `None` in Python.
- The one-shot scripts `generate_synthetic_data.py`, `setup_security.py`,
  `list_models.py` and `reorder_layout.py`. They only read and write files,
  encrypt data and list models.
- `tests/test_highlight_provenance.py` and
  `tests/test_self_learning_importance.py` depend on the suggestion
  generator's output or are placeholders.
