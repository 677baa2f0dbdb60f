/** Request sequences the repository's tests walk through, replayed against a
    fresh store with no suggestion generator. */
module Scenarios {
  import opened Wrappers
  import opened Records
  import opened Access
  import opened Versioning
  import opened Intake
  import opened Store

  /** An AI note is edited by the clinician and then by staff: the clinician's
      edit takes the note over, so the staff edit is refused and the
      clinician's content stays. */
  method ConcurrentEdits(ids: IdSource, t0: string, t1: string, t2: string)
    returns (first: Result<Note>, second: Result<Note>, current: Note)
    ensures first.Success? && second == Failure(Unauthorized)
    ensures current.author == Clinician && current.content == "Clinician corrected content"
    ensures current.version == 2 && |current.history| == 1 && current.history[0].author == Ai
  {
    var store := new NoteStore([]);
    var created := store.CreateNote(Ai, Some("ai_consult_summary"), "AI generated content", [], [], NoSuggestions, ids, t0);
    NewNoteShape(Ai, Some("ai_consult_summary"), "AI generated content", [], [], NoSuggestions, ids, t0);
    var id := created.value.id;
    first := store.UpdateNote(id, Clinician, Some("Clinician corrected content"), t1);
    second := store.UpdateNote(id, Staff, Some("AI Refinement"), t2);
    current := store.notes[0];
  }

  /** One edit of a clinician's note: version 2, the new content, and one saved
      state holding the original content at version 1. */
  method EditIncrementsVersion(ids: IdSource, t0: string, t1: string) returns (edited: Result<Note>)
    ensures edited.Success?
    ensures edited.value.version == 2 && edited.value.content == "Edited Content"
    ensures |edited.value.history| == 1
    ensures edited.value.history[0].content == "Original Content" && edited.value.history[0].version == 1
  {
    var store := new NoteStore([]);
    var created := store.CreateNote(Clinician, Some(ClinicianNote), "Original Content", [], [], NoSuggestions, ids, t0);
    NewNoteShape(Clinician, Some(ClinicianNote), "Original Content", [], [], NoSuggestions, ids, t0);
    edited := store.UpdateNote(created.value.id, Clinician, Some("Edited Content"), t1);
  }

  /** The undo path: a clinician corrects an AI note and then reverts; the AI
      content and authorship are back, with both earlier states saved. */
  method EditThenUndo(ids: IdSource, t0: string, t1: string, t2: string) returns (reverted: Result<Note>)
    ensures reverted.Success?
    ensures reverted.value.content == "Draft" && reverted.value.author == Ai
    ensures reverted.value.version == 3 && |reverted.value.history| == 2
    ensures reverted.value.history[0].content == "Draft" && reverted.value.history[1].content == "Corrected"
  {
    var store := new NoteStore([]);
    var created := store.CreateNote(Ai, Some(DoctorConsultSummary), "Draft", [], [], NoSuggestions, ids, t0);
    NewNoteShape(Ai, Some(DoctorConsultSummary), "Draft", [], [], NoSuggestions, ids, t0);
    var id := created.value.id;
    var edited := store.UpdateNote(id, Clinician, Some("Corrected"), t1);
    reverted := store.RevertNote(id, Clinician, t2);
  }

  /** A patient may not file a clinician note, and the timeline stays empty. */
  method PatientCannotFileClinicianNote(ids: IdSource, t0: string) returns (r: Result<Note>, left: seq<Note>)
    ensures r == Failure(Unauthorized) && left == []
  {
    var store := new NoteStore([]);
    r := store.CreateNote(Patient, Some(ClinicianNote), "Public Summary", [], [], NoSuggestions, ids, t0);
    left := store.notes;
  }
}
