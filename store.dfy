/** The in-memory timeline and the request handlers that read and change it. */
module Store {
  import opened Wrappers
  import opened Text
  import opened Ordering
  import opened Records
  import opened Access
  import opened Versioning
  import opened Intake
  import opened Workflow
  import opened Glance

  /** Timeline order: `a`'s timestamp is at least `b`'s. */
  predicate NewerOrSame(a: Note, b: Note) {
    LexLe(b.timestamp, a.timestamp)
  }

  lemma NoteOrder()
    ensures Total(NewerOrSame) && Transitive(NewerOrSame)
  {
    forall a: Note, b: Note
      ensures NewerOrSame(a, b) || NewerOrSame(b, a)
    {
      LexLeTotal(a.timestamp, b.timestamp);
    }
    forall a: Note, b: Note, c: Note | NewerOrSame(a, b) && NewerOrSame(b, c)
      ensures NewerOrSame(a, c)
    {
      LexLeTransitive(c.timestamp, b.timestamp, a.timestamp);
    }
  }

  /** The highlight a user marks by hand. */
  function UserHighlight(id: string, text: string, start: int, end: int): Highlight {
    Highlight(id, text, UserHighlightKind, None, start, end, None)
  }

  /** `hs` without the highlights whose id is `id`, in order. */
  function WithoutHighlight(hs: seq<Highlight>, id: string): (r: seq<Highlight>)
    ensures |r| <= |hs|
    ensures forall h :: h in r <==> h in hs && h.id != id
  {
    if hs == [] then []
    else
      var rest := WithoutHighlight(hs[1..], id);
      assert forall h :: h in hs <==> h == hs[0] || h in hs[1..];
      if hs[0].id == id then rest else [hs[0]] + rest
  }

  /** Removing an id that is not there changes nothing. */
  lemma {:induction false} WithoutAbsentId(hs: seq<Highlight>, id: string)
    requires forall h :: h in hs ==> h.id != id
    ensures WithoutHighlight(hs, id) == hs
  {
    if hs != [] {
      WithoutAbsentId(hs[1..], id);
      assert hs == [hs[0]] + hs[1..];
    }
  }

  /** Removing a highlight just added under a new id gives back the list as it was. */
  lemma {:induction false} RemoveUndoesAdd(hs: seq<Highlight>, id: string, text: string, start: int, end: int)
    requires forall h :: h in hs ==> h.id != id
    ensures WithoutHighlight(hs + [UserHighlight(id, text, start, end)], id) == hs
  {
    if hs == [] {
      assert [UserHighlight(id, text, start, end)][1..] == [];
    } else {
      RemoveUndoesAdd(hs[1..], id, text, start, end);
      assert (hs + [UserHighlight(id, text, start, end)])[1..] == hs[1..] + [UserHighlight(id, text, start, end)];
      assert hs == [hs[0]] + hs[1..];
    }
  }

  /** Removing twice is removing once. */
  lemma RemoveIsIdempotent(hs: seq<Highlight>, id: string)
    ensures WithoutHighlight(WithoutHighlight(hs, id), id) == WithoutHighlight(hs, id)
  {
    WithoutAbsentId(WithoutHighlight(hs, id), id);
  }

  lemma ReplaceKeepsConsistent(ns: seq<Note>, i: nat, n: Note)
    requires i < |ns| && AllConsistent(ns) && Consistent(n)
    ensures AllConsistent(ns[i := n])
  {
    var m := ns[i := n];
    forall k | 0 <= k < |m|
      ensures Consistent(m[k])
    {
      if k != i {
        assert Consistent(ns[k]);
      }
    }
  }

  lemma PrependKeepsConsistent(ns: seq<Note>, n: Note)
    requires AllConsistent(ns) && n.version == 1 && n.history == []
    ensures AllConsistent([n] + ns)
  {
    var m := [n] + ns;
    forall k | 0 <= k < |m|
      ensures Consistent(m[k])
    {
      if k > 0 {
        assert m[k] == ns[k - 1];
      }
    }
  }

  class NoteStore {
    /** The timeline, newest insertion first. */
    var notes: seq<Note>
    /** Store-level actions listed ahead of the notes' own on the glance view. */
    var systemActions: seq<Action>

    /** Every note keeps one version per saved state plus the live one. Data
        loaded at start-up need not satisfy it; every handler preserves it. */
    ghost predicate Valid()
      reads this
    {
      AllConsistent(notes)
    }

    /** A store over the notes loaded at start-up. */
    constructor (initial: seq<Note>)
      ensures notes == initial && systemActions == []
    {
      notes := initial;
      systemActions := [];
    }

    /** The timeline as `role` sees it: exactly the notes it may view, newest first. */
    function Timeline(role: string): (r: seq<Note>)
      reads this
      ensures multiset(r) == multiset(Viewable(notes, role))
      ensures forall n :: n in r <==> n in notes && CanView(role, n)
      ensures SortedDesc(r, NewerOrSame)
    {
      NoteOrder();
      var visible := Viewable(notes, role);
      var r := SortDesc(visible, NewerOrSame);
      NonIncreasingIsSorted(r, NewerOrSame);
      assert forall n :: n in r <==> n in visible by {
        forall n
          ensures n in r <==> n in visible
        {
          assert n in r <==> n in multiset(r);
          assert n in visible <==> n in multiset(visible);
        }
      }
      r
    }

    /** The position of the first note with this id. */
    method Locate(id: string) returns (found: Option<nat>)
      ensures found == FindNote(notes, id)
    {
      var i := 0;
      while i < |notes|
        invariant 0 <= i <= |notes|
        invariant forall k :: 0 <= k < i ==> notes[k].id != id
      {
        if notes[i].id == id {
          var f := FindNote(notes, id);
          assert f.Some? && f.value == i by {
            assert f.Some?;
            assert !(f.value < i);
            assert !(i < f.value);
          }
          return Some(i);
        }
        i := i + 1;
      }
      return None;
    }

    /** Where the scan over every note's actions first meets this id. */
    method LocateAction(id: string) returns (found: Option<(nat, nat)>)
      ensures found == Workflow.FindAction(notes, id)
    {
      var i := 0;
      while i < |notes|
        invariant 0 <= i <= |notes|
        invariant forall k :: 0 <= k < i ==> !HasAction(notes[k], id)
      {
        var acts := notes[i].actions;
        var j := 0;
        while j < |acts|
          invariant 0 <= j <= |acts|
          invariant forall m :: 0 <= m < j ==> acts[m].id != id
        {
          if acts[j].id == id {
            FindActionCharacterized(notes, id, i, j);
            return Some((i, j));
          }
          j := j + 1;
        }
        i := i + 1;
      }
      return None;
    }

    /** Adds a note at the top of the timeline. A patient may add only
        patient-input notes. */
    method CreateNote(role: string, kind: Option<string>, content: string, given: seq<Highlight>,
                      manual: seq<string>, llm: Suggestions, ids: IdSource, now: string)
      returns (r: Result<Note>)
      modifies this
      ensures systemActions == old(systemActions)
      ensures !CreationAllowed(role, kind) ==> r == Failure(Unauthorized) && notes == old(notes)
      ensures CreationAllowed(role, kind) ==>
        r == Success(NewNote(role, kind, content, given, manual, llm, ids, now)) && notes == [r.value] + old(notes)
      ensures old(Valid()) ==> Valid()
    {
      if role == Patient && kind != Some(PatientInput) {
        return Failure(Unauthorized);
      }
      var n := BuildNote(role, kind, content, given, manual, llm, ids, now);
      if Valid() {
        PrependKeepsConsistent(notes, n);
      }
      notes := [n] + notes;
      r := Success(n);
    }

    /** Adds the system-written summary that ends a consult. Only the clinician,
        staff and the patient may end one. */
    method EndConsult(role: string, sourceNoteId: Option<string>, summary: string, llm: Suggestions,
                      ids: IdSource, now: string)
      returns (r: Result<Note>)
      modifies this
      ensures systemActions == old(systemActions)
      ensures ConsultSetting(role).None? ==> r == Failure(ValidationError) && notes == old(notes)
      ensures ConsultSetting(role).Some? ==>
        r == Success(ConsultNote(role, sourceNoteId, summary, llm, ids, now)) && notes == [r.value] + old(notes)
      ensures old(Valid()) ==> Valid()
    {
      if ConsultSetting(role).None? {
        return Failure(ValidationError);
      }
      var n := BuildConsultNote(role, sourceNoteId, summary, llm, ids, now);
      if Valid() {
        PrependKeepsConsistent(notes, n);
      }
      notes := [n] + notes;
      r := Success(n);
    }

    /** Edits the first note with id `id`: its state is saved to history, the
        version goes up, and the content is replaced when new content is given. */
    method UpdateNote(id: string, role: string, content: Option<string>, now: string) returns (r: Result<Note>)
      modifies this
      ensures systemActions == old(systemActions)
      ensures FindNote(old(notes), id).None? ==> r == Failure(NotFound) && notes == old(notes)
      ensures FindNote(old(notes), id).Some? ==>
        var i := FindNote(old(notes), id).value;
        if !CanEdit(role, old(notes)[i]) then r == Failure(Unauthorized) && notes == old(notes)
        else notes == old(notes)[i := EditedNote(old(notes)[i], role, content, now)] && r == Success(notes[i])
      ensures old(Valid()) ==> Valid()
    {
      var found := Locate(id);
      if found.None? {
        return Failure(NotFound);
      }
      var i := found.value;
      var note := notes[i];
      if !CanEdit(role, note) {
        return Failure(Unauthorized);
      }
      EditRecordsPriorState(note, role, content, now);
      var prev := note.(history := []);
      note := note.(history := note.history + [prev]);
      note := note.(version := note.version + 1);
      note := note.(content := content.GetOr(note.content));
      note := note.(timestamp := now);
      if role == Clinician && note.author == Ai {
        note := note.(author := Clinician, lastEditor := Some(Clinician));
      }
      if Valid() {
        ReplaceKeepsConsistent(notes, i, note);
      }
      notes := notes[i := note];
      r := Success(note);
    }

    /** Reverts the first note with id `id` to its last saved state, saving the
        state it leaves. */
    method RevertNote(id: string, role: string, now: string) returns (r: Result<Note>)
      modifies this
      ensures systemActions == old(systemActions)
      ensures FindNote(old(notes), id).None? ==> r == Failure(NotFound) && notes == old(notes)
      ensures FindNote(old(notes), id).Some? ==>
        var i := FindNote(old(notes), id).value;
        if !CanEdit(role, old(notes)[i]) then r == Failure(Unauthorized) && notes == old(notes)
        else if old(notes)[i].history == [] then r == Failure(InvalidState) && notes == old(notes)
        else notes == old(notes)[i := RevertedNote(old(notes)[i], role, now)] && r == Success(notes[i])
      ensures old(Valid()) ==> Valid()
    {
      var found := Locate(id);
      if found.None? {
        return Failure(NotFound);
      }
      var i := found.value;
      var note := notes[i];
      if !CanEdit(role, note) {
        return Failure(Unauthorized);
      }
      if note.history == [] {
        return Failure(InvalidState);
      }
      ghost var before := note;
      RevertRestoresLastState(before, role, now);
      // take the last saved state off, then put it back and save the state being left
      var target := note.history[|note.history| - 1];
      note := note.(history := note.history[..|note.history| - 1]);
      var archive := note.(history := []);
      note := note.(history := note.history + [target]);
      assert note.history == before.history;
      note := note.(version := note.version + 1);
      note := note.(content := target.content, author := target.author);
      note := note.(revertedAt := Some(now), revertedBy := Some(role));
      note := note.(history := note.history + [archive]);
      assert note == RevertedNote(before, role, now);
      if Valid() {
        ReplaceKeepsConsistent(notes, i, note);
      }
      notes := notes[i := note];
      r := Success(note);
    }

    /** Marks text of the first note with id `noteId`. Any role may do so. */
    method AddHighlight(noteId: string, hid: string, text: string, start: int, end: int) returns (r: Result<Note>)
      modifies this
      ensures systemActions == old(systemActions)
      ensures FindNote(old(notes), noteId).None? ==> r == Failure(NotFound) && notes == old(notes)
      ensures FindNote(old(notes), noteId).Some? ==>
        var i := FindNote(old(notes), noteId).value;
        var n := old(notes)[i];
        notes == old(notes)[i := n.(highlights := n.highlights + [UserHighlight(hid, text, start, end)])]
        && r == Success(notes[i])
      ensures old(Valid()) ==> Valid()
    {
      var found := Locate(noteId);
      if found.None? {
        return Failure(NotFound);
      }
      var i := found.value;
      var note := notes[i];
      var h := Highlight(hid, text, UserHighlightKind, None, start, end, None);
      note := note.(highlights := note.highlights + [h]);
      if Valid() {
        ReplaceKeepsConsistent(notes, i, note);
      }
      notes := notes[i := note];
      r := Success(note);
    }

    /** Drops every highlight with id `hid` from the first note with id `noteId`. */
    method RemoveHighlight(noteId: string, hid: string) returns (r: Result<Note>)
      modifies this
      ensures systemActions == old(systemActions)
      ensures FindNote(old(notes), noteId).None? ==> r == Failure(NotFound) && notes == old(notes)
      ensures FindNote(old(notes), noteId).Some? ==>
        var i := FindNote(old(notes), noteId).value;
        var n := old(notes)[i];
        notes == old(notes)[i := n.(highlights := WithoutHighlight(n.highlights, hid))]
        && r == Success(notes[i])
      ensures old(Valid()) ==> Valid()
    {
      var found := Locate(noteId);
      if found.None? {
        return Failure(NotFound);
      }
      var i := found.value;
      var note := notes[i];
      note := note.(highlights := WithoutHighlight(note.highlights, hid));
      if Valid() {
        ReplaceKeepsConsistent(notes, i, note);
      }
      notes := notes[i := note];
      r := Success(note);
    }

    /** Resolves the first action with id `actionId`, optionally forwarding a
        follow-up, and logs the resolution at the top of the timeline. */
    method ResolveAction(actionId: string, role: string, resolutionType: string, comment: string,
                         newTitle: Option<string>, forwardId: string, logId: string, now: string)
      returns (r: Result<Action>)
      modifies this
      ensures systemActions == old(systemActions)
      ensures Workflow.FindAction(old(notes), actionId).None? ==> r == Failure(NotFound) && notes == old(notes)
      ensures Workflow.FindAction(old(notes), actionId).Some? ==>
        var (i, j) := Workflow.FindAction(old(notes), actionId).value;
        var a := old(notes)[i].actions[j];
        if !MayResolve(role, a) then r == Failure(Unauthorized) && notes == old(notes)
        else
          && r == Success(ResolvedAction(a, comment, now))
          && notes == Resolution(old(notes), i, j, role, resolutionType, comment, newTitle, forwardId, logId, now)
      ensures old(Valid()) ==> Valid()
    {
      var found := LocateAction(actionId);
      if found.None? {
        return Failure(NotFound);
      }
      var (i, j) := found.value;
      var note := notes[i];
      var a := note.actions[j];
      if role != Admin && a.assignee != role {
        return Failure(Unauthorized);
      }
      var ns, resolved := Workflow.Resolve(notes, i, j, role, resolutionType, comment, newTitle, forwardId, logId, now);
      ghost var old_notes := notes;
      notes := ns;
      r := Success(resolved);
      if AllConsistent(old_notes) {
        ResolutionKeepsConsistent(old_notes, i, j, role, resolutionType, comment, newTitle, forwardId, logId, now);
      }
    }

    /** The glance view of `role`. Except for a patient, who gets nothing, the
        pass also tags the stored highlights of every note the role sees. */
    method Glance(role: string, age: string -> Option<int>) returns (g: GlanceView)
      modifies this
      ensures systemActions == old(systemActions)
      ensures g == GlanceOf(old(notes), old(systemActions), role, age)
      ensures role == Patient ==> notes == old(notes)
      ensures role != Patient ==> notes == Weighed(old(notes), role, age)
      ensures old(Valid()) ==> Valid()
    {
      if role == Patient {
        return Suppressed;
      }
      var ns := notes;
      var weighed, signals, actions, confirmed, scribed := Gather(ns, role, age);
      actions := systemActions + actions;
      if role != Clinician && role != Admin {
        confirmed := [];
      }
      notes := weighed;
      g := View(actions, SortSignals(signals), confirmed, scribed);
      WeighingIsHarmless(ns, role, age);
    }

    /** Empties the store. */
    method Reset()
      modifies this
      ensures notes == [] && systemActions == []
      ensures Valid()
    {
      notes := [];
      systemActions := [];
    }
  }
}
