/** Lookup by id and the edit and revert transitions of a single note. */
module Versioning {
  import opened Wrappers
  import opened Records
  import opened Access

  /** The position of the first note with this id, as a scan from the front finds it. */
  function FindNote(ns: seq<Note>, id: string): (r: Option<nat>)
    ensures r.Some? ==> r.value < |ns| && ns[r.value].id == id
    ensures r.Some? ==> forall k :: 0 <= k < r.value ==> ns[k].id != id
    ensures r.None? <==> forall k :: 0 <= k < |ns| ==> ns[k].id != id
  {
    if ns == [] then None
    else if ns[0].id == id then Some(0)
    else
      match FindNote(ns[1..], id)
      case None => None
      case Some(k) => Some(k + 1)
  }

  /** A clinician's edit of an AI-written note makes the note the clinician's. */
  predicate TakesOver(role: string, n: Note) {
    role == Clinician && n.author == Ai
  }

  /** The note after an edit: its prior state is saved to history, the version
      goes up, the content is replaced when new content is given, and the
      timestamp becomes the edit time. */
  function EditedNote(n: Note, role: string, content: Option<string>, now: string): (e: Note)
    ensures e.version == n.version + 1 && e.history == n.history + [Snapshot(n)]
    ensures e.timestamp == now && e.id == n.id
  {
    n.(history := n.history + [Snapshot(n)],
       version := n.version + 1,
       content := content.GetOr(n.content),
       timestamp := now,
       author := if TakesOver(role, n) then Clinician else n.author,
       lastEditor := if TakesOver(role, n) then Some(Clinician) else n.lastEditor)
  }

  /** The note after a revert: the last saved state supplies content and author,
      and the state being left is saved to history after it. */
  function RevertedNote(n: Note, role: string, now: string): (r: Note)
    requires n.history != []
    ensures r.version == n.version + 1 && r.history == n.history + [Snapshot(n)]
    ensures r.revertedAt == Some(now) && r.revertedBy == Some(role) && r.id == n.id
  {
    var target := n.history[|n.history| - 1];
    n.(history := n.history + [Snapshot(n)],
       version := n.version + 1,
       content := target.content,
       author := target.author,
       revertedAt := Some(now),
       revertedBy := Some(role))
  }

  // ---- Properties of an edit ----

  /** An edit saves exactly one new state, the note as it was, after the
      untouched earlier ones; it stamps the note with the edit time; it leaves
      id, type, highlights, actions, scope, revert record and provenance alone,
      and author and last editor too unless the clinician takes the note over;
      and it keeps the versioning invariant. */
  lemma EditRecordsPriorState(n: Note, role: string, content: Option<string>, now: string)
    ensures var e := EditedNote(n, role, content, now);
      && |e.history| == |n.history| + 1
      && e.history[..|n.history|] == n.history
      && e.history[|n.history|] == n.(history := [])
      && e.version == n.version + 1
      && e.content == (if content.Some? then content.value else n.content)
      && e.timestamp == now
      && e.id == n.id && e.kind == n.kind && e.highlights == n.highlights
      && e.actions == n.actions && e.scope == n.scope
      && e.revertedAt == n.revertedAt && e.revertedBy == n.revertedBy
      && e.provenancePointer == n.provenancePointer
      && (!TakesOver(role, n) ==> e.author == n.author && e.lastEditor == n.lastEditor)
      && (Consistent(n) ==> Consistent(e))
  {
    var e := EditedNote(n, role, content, now);
    assert e.history[..|n.history|] == n.history;
  }

  /** The ownership rule: after a clinician edits an AI note, the note is the
      clinician's, and staff may no longer edit it. */
  lemma TakeoverLocksOutStaff(n: Note, content: Option<string>, now: string)
    requires n.author == Ai
    ensures var e := EditedNote(n, Clinician, content, now);
      e.author == Clinician && e.lastEditor == Some(Clinician) &&
      CanEdit(Clinician, e) && !CanEdit(Staff, e) && !CanEdit(Patient, e)
  {
  }

  /** Whoever could edit a note can still edit it after an edit of theirs, so they
      can always revert their own edit. */
  lemma EditorKeepsRights(n: Note, role: string, content: Option<string>, now: string)
    requires CanEdit(role, n)
    ensures CanEdit(role, EditedNote(n, role, content, now))
  {
  }

  /** Only a clinician editing an AI note changes the author. */
  lemma EditKeepsAuthor(n: Note, role: string, content: Option<string>, now: string)
    ensures EditedNote(n, role, content, now).author != n.author <==> TakesOver(role, n)
  {
  }

  // ---- Properties of a revert ----

  /** A revert restores content and author from the last saved state, saves the
      state being left as the new last entry after all earlier ones, records
      who reverted and when, leaves the timestamp, type, highlights, actions,
      scope, last editor and provenance alone, and keeps the versioning invariant. */
  lemma RevertRestoresLastState(n: Note, role: string, now: string)
    requires n.history != []
    ensures var r := RevertedNote(n, role, now);
      var last := n.history[|n.history| - 1];
      && r.content == last.content && r.author == last.author
      && |r.history| == |n.history| + 1
      && r.history[..|n.history|] == n.history
      && r.history[|n.history|] == n.(history := [])
      && r.version == n.version + 1
      && r.timestamp == n.timestamp
      && r.revertedAt == Some(now) && r.revertedBy == Some(role)
      && r.id == n.id && r.kind == n.kind && r.highlights == n.highlights
      && r.actions == n.actions && r.scope == n.scope
      && r.lastEditor == n.lastEditor && r.provenancePointer == n.provenancePointer
      && (Consistent(n) ==> Consistent(r))
  {
    var r := RevertedNote(n, role, now);
    assert r.history[..|n.history|] == n.history;
  }

  /** Edit followed by revert: the pre-edit content and author are back, the
      history grew by two (the pre-edit state, then the edited state), and the
      version by two. */
  lemma {:induction false} EditThenRevert(n: Note, role: string, content: Option<string>, t1: string, t2: string)
    requires CanEdit(role, n)
    ensures var e := EditedNote(n, role, content, t1);
      CanEdit(role, e) && e.history != [] &&
      var r := RevertedNote(e, role, t2);
      && r.content == n.content && r.author == n.author
      && |r.history| == |n.history| + 2
      && r.history[..|n.history|] == n.history
      && r.history[|n.history|] == Snapshot(n)
      && r.history[|n.history| + 1] == Snapshot(e)
      && r.version == n.version + 2
  {
    var e := EditedNote(n, role, content, t1);
    EditorKeepsRights(n, role, content, t1);
    EditRecordsPriorState(n, role, content, t1);
    RevertRestoresLastState(e, role, t2);
    var r := RevertedNote(e, role, t2);
    assert r.history[..|n.history|] == e.history[..|n.history|];
  }
}
