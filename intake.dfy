/** Building new notes: merging suggested highlights and actions into a note
    being created, and the note that ends a consult. */
module Intake {
  import opened Wrappers
  import opened Text
  import opened Records
  import opened Access

  /** A highlight proposed by the suggestion generator (untrusted). */
  datatype HighlightSuggestion = HighlightSuggestion(text: string, kind: Option<string>, reason: Option<string>)

  /** An action proposed by the suggestion generator (untrusted). */
  datatype ActionSuggestion = ActionSuggestion(
    description: Option<string>, title: Option<string>, assignee: Option<string>, tags: Option<seq<string>>)

  datatype Suggestions = Suggestions(highlights: seq<HighlightSuggestion>, actions: seq<ActionSuggestion>)

  const NoSuggestions := Suggestions([], [])

  /** What the engine acts on: suggestions are never sought for a patient. */
  function Effective(role: string, llm: Suggestions): Suggestions {
    if role == Patient then NoSuggestions else llm
  }

  /** `h` marks the first occurrence of its text in `content`. */
  ghost predicate Anchored(content: string, h: Highlight) {
    && h.end == h.start + |h.text|
    && OccursAt(content, h.text, h.start)
    && forall k :: 0 <= k < h.start ==> !OccursAt(content, h.text, k)
  }

  /** The highlight kept for a suggestion found at index `at`. */
  function AiHighlight(c: HighlightSuggestion, at: int, id: string): Highlight {
    Highlight(id, c.text, c.kind.GetOr("risk"), Some(c.reason.GetOr("AI detected")), at, at + |c.text|, None)
  }

  /** The suggestions whose text occurs in `content`, in order, each anchored at
      its first occurrence; ids are drawn from `FreshId(ids, base)`, `FreshId(ids, base + 1)`, ... */
  function AcceptedHighlights(content: string, cands: seq<HighlightSuggestion>, ids: IdSource, base: nat): (r: seq<Highlight>)
    ensures |r| <= |cands|
    ensures forall h :: h in r ==> Anchored(content, h)
    decreases |cands|
  {
    if cands == [] then []
    else
      var prev := AcceptedHighlights(content, cands[..|cands| - 1], ids, base);
      var c := cands[|cands| - 1];
      var at := Find(content, c.text);
      if at == -1 then prev else prev + [AiHighlight(c, at, FreshId(ids, base + |prev|))]
  }

  /** The suggestions whose text occurs in `content`, in order. */
  function Occurring(content: string, cands: seq<HighlightSuggestion>): (r: seq<HighlightSuggestion>)
    ensures |r| <= |cands|
  {
    if cands == [] then []
    else
      var c := cands[|cands| - 1];
      Occurring(content, cands[..|cands| - 1]) + (if Contains(content, c.text) then [c] else [])
  }

  /** Each suggestion whose text occurs is kept as many times as it was made,
      whatever other suggestions share its text; no other suggestion is kept. */
  lemma {:induction false} OccurringCounts(content: string, cands: seq<HighlightSuggestion>)
    ensures forall c :: multiset(Occurring(content, cands))[c] == if Contains(content, c.text) then multiset(cands)[c] else 0
  {
    if cands != [] {
      OccurringCounts(content, cands[..|cands| - 1]);
      assert cands == cands[..|cands| - 1] + [cands[|cands| - 1]];
    }
  }

  /** The accepted highlights are the occurring suggestions, one for one and in
      order, each anchored at the first occurrence of its text and given the
      next fresh id. */
  lemma {:induction false} AcceptedOnePerOccurring(content: string, cands: seq<HighlightSuggestion>, ids: IdSource, base: nat)
    ensures var r := AcceptedHighlights(content, cands, ids, base);
      var o := Occurring(content, cands);
      && |r| == |o|
      && forall k :: 0 <= k < |r| ==> r[k] == AiHighlight(o[k], Find(content, o[k].text), FreshId(ids, base + k))
    decreases |cands|
  {
    if cands != [] {
      AcceptedOnePerOccurring(content, cands[..|cands| - 1], ids, base);
    }
  }

  /** A suggestion is dropped exactly when its text does not occur in the content. */
  lemma {:induction false} AcceptedIffOccurs(content: string, cands: seq<HighlightSuggestion>, ids: IdSource, base: nat)
    ensures var r := AcceptedHighlights(content, cands, ids, base);
      forall c :: c in cands ==> ((exists h :: h in r && h.text == c.text) <==> Contains(content, c.text))
    decreases |cands|
  {
    if cands != [] {
      var r := AcceptedHighlights(content, cands, ids, base);
      var init := cands[..|cands| - 1];
      var c := cands[|cands| - 1];
      var prev := AcceptedHighlights(content, init, ids, base);
      AcceptedIffOccurs(content, init, ids, base);
      assert r == prev || r == prev + [r[|r| - 1]];
      forall d | d in cands
        ensures (exists h :: h in r && h.text == d.text) <==> Contains(content, d.text)
      {
        if exists h :: h in r && h.text == d.text {
          var h :| h in r && h.text == d.text;
          assert Anchored(content, h);
          assert OccursAt(content, d.text, h.start);
        }
        if Contains(content, d.text) {
          if d in init {
            var h :| h in prev && h.text == d.text;
            assert h in r;
          } else {
            assert d == c by { assert cands == init + [c]; }
            assert r[|r| - 1] in r;
          }
        }
      }
    }
  }

  /** Every accepted highlight carries a suggestion's text, kind (default
      "risk") and reason (default "AI detected"). */
  lemma {:induction false} AcceptedFromSuggestion(content: string, cands: seq<HighlightSuggestion>, ids: IdSource, base: nat)
    ensures var r := AcceptedHighlights(content, cands, ids, base);
      forall h :: h in r ==> exists c :: c in cands && h == AiHighlight(c, h.start, h.id)
    decreases |cands|
  {
    if cands != [] {
      var r := AcceptedHighlights(content, cands, ids, base);
      var init := cands[..|cands| - 1];
      var c := cands[|cands| - 1];
      var prev := AcceptedHighlights(content, init, ids, base);
      AcceptedFromSuggestion(content, init, ids, base);
      forall h | h in r
        ensures exists d :: d in cands && h == AiHighlight(d, h.start, h.id)
      {
        if h in prev {
          var d :| d in init && h == AiHighlight(d, h.start, h.id);
          assert d in cands;
        } else {
          assert c in cands;
          assert h == AiHighlight(c, h.start, h.id);
        }
      }
    }
  }

  /** Merges highlight suggestions into a note whose content is `content`. */
  method MergeHighlights(content: string, cands: seq<HighlightSuggestion>, ids: IdSource, base: nat)
    returns (hs: seq<Highlight>)
    ensures hs == AcceptedHighlights(content, cands, ids, base)
  {
    hs := [];
    var i := 0;
    while i < |cands|
      invariant 0 <= i <= |cands|
      invariant hs == AcceptedHighlights(content, cands[..i], ids, base)
    {
      var c := cands[i];
      var at := Find(content, c.text);
      if at != -1 {
        hs := hs + [AiHighlight(c, at, FreshId(ids, base + |hs|))];
      }
      assert cands[..i + 1][..i] == cands[..i];
      i := i + 1;
    }
    assert cands[..|cands|] == cands;
  }

  /** The action kept for a suggestion: pending, from the AI, tied to the new note,
      assigned to the clinician unless the suggestion names an assignee. */
  function SuggestedAction(c: ActionSuggestion, noteId: string, id: string, now: string): Action {
    Action(id, c.description.GetOr(c.title.GetOr("Untitled Action")), Pending, Ai,
           c.assignee.GetOr(Clinician), noteId, now, Some(c.tags.GetOr([])), None, None)
  }

  function SuggestedActions(cands: seq<ActionSuggestion>, noteId: string, ids: IdSource, base: nat, now: string): (r: seq<Action>)
    ensures |r| == |cands|
    ensures forall k :: 0 <= k < |r| ==> r[k] == SuggestedAction(cands[k], noteId, FreshId(ids, base + k), now)
  {
    if cands == [] then []
    else [SuggestedAction(cands[0], noteId, FreshId(ids, base), now)] + SuggestedActions(cands[1..], noteId, ids, base + 1, now)
  }

  /** Merges action suggestions into the note with id `noteId`. */
  method MergeSuggestedActions(cands: seq<ActionSuggestion>, noteId: string, ids: IdSource, base: nat, now: string)
    returns (acts: seq<Action>)
    ensures acts == SuggestedActions(cands, noteId, ids, base, now)
  {
    acts := [];
    var i := 0;
    while i < |cands|
      invariant 0 <= i <= |cands|
      invariant |acts| == i
      invariant forall k :: 0 <= k < i ==> acts[k] == SuggestedAction(cands[k], noteId, FreshId(ids, base + k), now)
    {
      var c := cands[i];
      acts := acts + [Action(FreshId(ids, base + i), c.description.GetOr(c.title.GetOr("Untitled Action")), Pending, Ai,
                             c.assignee.GetOr(Clinician), noteId, now, Some(c.tags.GetOr([])), None, None)];
      i := i + 1;
    }
  }

  /** Who a manually entered task goes to: the other side of the clinician/staff pair, staff by default. */
  function ManualAssignee(role: string): string {
    if role == Clinician then Staff
    else if role == Staff then Clinician
    else Staff
  }

  function ManualAction(title: string, role: string, noteId: string, id: string, now: string): Action {
    Action(id, title, Unresolved, role, ManualAssignee(role), noteId, now, None, None, None)
  }

  function ManualActions(titles: seq<string>, role: string, noteId: string, ids: IdSource, base: nat, now: string): (r: seq<Action>)
    ensures |r| == |titles|
    ensures forall k :: 0 <= k < |r| ==> r[k] == ManualAction(titles[k], role, noteId, FreshId(ids, base + k), now)
  {
    if titles == [] then []
    else [ManualAction(titles[0], role, noteId, FreshId(ids, base), now)] + ManualActions(titles[1..], role, noteId, ids, base + 1, now)
  }

  /** Turns manually entered task titles into actions of the note with id `noteId`. */
  method AddManualActions(titles: seq<string>, role: string, noteId: string, ids: IdSource, base: nat, now: string)
    returns (acts: seq<Action>)
    ensures acts == ManualActions(titles, role, noteId, ids, base, now)
  {
    acts := [];
    var i := 0;
    while i < |titles|
      invariant 0 <= i <= |titles|
      invariant |acts| == i
      invariant forall k :: 0 <= k < i ==> acts[k] == ManualAction(titles[k], role, noteId, FreshId(ids, base + k), now)
    {
      var assignedTo := Staff;
      if role == Clinician {
        assignedTo := Staff;
      } else if role == Staff {
        assignedTo := Clinician;
      }
      acts := acts + [Action(FreshId(ids, base + i), titles[i], Unresolved, role, assignedTo, noteId, now, None, None, None)];
      i := i + 1;
    }
  }

  /** A patient may create only patient-input notes. */
  predicate CreationAllowed(role: string, kind: Option<string>) {
    !(role == Patient && kind != Some(PatientInput))
  }

  /** The note a creation request adds: version 1 with no history, the supplied
      highlights followed by the accepted suggested ones, the suggested actions
      followed by the manual ones, and the scope resolved from its type. Ids come
      from `ids`: the note's first, then its highlights' and actions'. */
  function NewNote(role: string, kind: Option<string>, content: string, given: seq<Highlight>,
                   manual: seq<string>, llm: Suggestions, ids: IdSource, now: string): (n: Note)
    ensures n.id == FreshId(ids, 0) && n.author == role && n.content == content && n.timestamp == now
    ensures n.version == 1 && n.history == []
  {
    var id := FreshId(ids, 0);
    var s := Effective(role, llm);
    var hs := AcceptedHighlights(content, s.highlights, ids, 1);
    var la := SuggestedActions(s.actions, id, ids, 1 + |hs|, now);
    var ma := ManualActions(manual, role, id, ids, 1 + |hs| + |la|, now);
    var draft := Note(id, content, role, kind.GetOr(StaffNote), now, 1, [], given + hs, la + ma,
                      Absent, None, None, None, None);
    draft.(scope := Explicit(StandardScope(draft)))
  }

  /** Builds the note a creation request adds: merges the accepted highlights,
      the suggested actions and the manual ones, then resolves the scope. The
      handler resolves the scope before merging; `StandardScope` reads only the
      scope and the type, which merging leaves alone, so the result is the same. */
  method BuildNote(role: string, kind: Option<string>, content: string, given: seq<Highlight>,
                   manual: seq<string>, llm: Suggestions, ids: IdSource, now: string)
    returns (n: Note)
    ensures n == NewNote(role, kind, content, given, manual, llm, ids, now)
  {
    var id := FreshId(ids, 0);
    var s := Effective(role, llm);
    var hs := MergeHighlights(content, s.highlights, ids, 1);
    var la := MergeSuggestedActions(s.actions, id, ids, 1 + |hs|, now);
    var ma := AddManualActions(manual, role, id, ids, 1 + |hs| + |la|, now);
    var draft := Note(id, content, role, kind.GetOr(StaffNote), now, 1, [], given + hs, la + ma,
                      Absent, None, None, None, None);
    n := draft.(scope := Explicit(StandardScope(draft)));
    // The merged lists, in the terms `NewNote` builds them from.
    assert hs == AcceptedHighlights(content, Effective(role, llm).highlights, ids, 1);
    assert la == SuggestedActions(Effective(role, llm).actions, FreshId(ids, 0), ids, 1 + |AcceptedHighlights(content, Effective(role, llm).highlights, ids, 1)|, now);
    assert id == FreshId(ids, 0);
    assert ma == ManualActions(manual, role, id, ids, 1 + |AcceptedHighlights(content, Effective(role, llm).highlights, ids, 1)| + |la|, now);
  }

  /** What creation promises about the new note. */
  lemma NewNoteShape(role: string, kind: Option<string>, content: string, given: seq<Highlight>,
                     manual: seq<string>, llm: Suggestions, ids: IdSource, now: string)
    ensures var n := NewNote(role, kind, content, given, manual, llm, ids, now);
      var s := Effective(role, llm);
      && n.version == 1 && n.history == [] && Consistent(n)
      && n.id == FreshId(ids, 0) && n.author == role && n.content == content && n.timestamp == now
      && n.kind == (if kind.Some? then kind.value else StaffNote)
      // the scope stored is the one a missing scope would have been inferred as
      && n.scope == Explicit(InferredTemplate(n.kind))
      && (forall v :: CanView(v, n) == CanView(v, n.(scope := Absent)))
      // supplied highlights come first; every added one is anchored in the content
      && |given| <= |n.highlights| <= |given| + |s.highlights|
      && n.highlights[..|given|] == given
      && (forall k :: |given| <= k < |n.highlights| ==> Anchored(content, n.highlights[k]))
      // suggested actions are pending, manual ones unresolved, all tied to the note
      && |n.actions| == |s.actions| + |manual|
      && (forall a :: a in n.actions ==> a.provenance == n.id)
      && (forall k :: 0 <= k < |s.actions| ==> n.actions[k].status == Pending && n.actions[k].createdBy == Ai)
      && (forall k :: |s.actions| <= k < |n.actions| ==>
            n.actions[k].status == Unresolved && n.actions[k].createdBy == role &&
            n.actions[k].assignee == ManualAssignee(role) && n.actions[k].title == manual[k - |s.actions|])
      // nothing is suggested on a patient's behalf
      && (role == Patient ==> n.highlights == given && |n.actions| == |manual|)
  {
    var n := NewNote(role, kind, content, given, manual, llm, ids, now);
    var s := Effective(role, llm);
    var hs := AcceptedHighlights(content, s.highlights, ids, 1);
    assert n.highlights == given + hs;
    assert n.highlights[..|given|] == given;
    forall k | |given| <= k < |n.highlights|
      ensures Anchored(content, n.highlights[k])
    {
      assert n.highlights[k] == hs[k - |given|];
      assert hs[k - |given|] in hs;
    }
  }

  /** Manual tasks cross between the clinician and staff; anyone else's go to staff. */
  lemma ManualAssigneeSwaps(role: string)
    ensures role == Clinician || role == Staff ==> ManualAssignee(role) != role
    ensures ManualAssignee(role) == Clinician <==> role == Staff
    ensures ManualAssignee(role) in {Staff, Clinician}
  {
  }

  /** The type and scope of the summary note that ends a consult; only the
      clinician, staff and the patient may end one. */
  function ConsultSetting(role: string): Option<(string, map<string, bool>)> {
    if role == Clinician then Some((DoctorConsultSummary, ClinicianOnly))
    else if role == Staff then Some((NurseConsultSummary, StaffVisible))
    else if role == Patient then Some((PatientSessionSummary, PatientVisible))
    else None
  }

  /** The system-authored summary note that ends a consult. */
  function ConsultNote(role: string, sourceNoteId: Option<string>, summary: string, llm: Suggestions,
                       ids: IdSource, now: string): (n: Note)
    requires ConsultSetting(role).Some?
    ensures n.id == FreshId(ids, 0) && n.author == System && n.content == summary && n.timestamp == now
    ensures n.kind == ConsultSetting(role).value.0 && n.scope == Explicit(ConsultSetting(role).value.1)
    ensures n.version == 1 && n.history == [] && n.provenancePointer == sourceNoteId
  {
    var setting := ConsultSetting(role).value;
    var id := FreshId(ids, 0);
    var s := Effective(role, llm);
    var hs := AcceptedHighlights(summary, s.highlights, ids, 1);
    var la := SuggestedActions(s.actions, id, ids, 1 + |hs|, now);
    Note(id, summary, System, setting.0, now, 1, [], hs, la, Explicit(setting.1), None, None, None, sourceNoteId)
  }

  /** Builds the summary note that ends a consult: the record with the type and
      scope the role's consult calls for, then the accepted highlights and the
      suggested actions. */
  method BuildConsultNote(role: string, sourceNoteId: Option<string>, summary: string, llm: Suggestions,
                          ids: IdSource, now: string)
    returns (n: Note)
    requires ConsultSetting(role).Some?
    ensures n == ConsultNote(role, sourceNoteId, summary, llm, ids, now)
  {
    var kind, scope;
    if role == Clinician {
      kind, scope := DoctorConsultSummary, ClinicianOnly;
    } else if role == Staff {
      kind, scope := NurseConsultSummary, StaffVisible;
    } else {
      kind, scope := PatientSessionSummary, PatientVisible;
    }
    var id := FreshId(ids, 0);
    var s := Effective(role, llm);
    var hs := MergeHighlights(summary, s.highlights, ids, 1);
    var la := MergeSuggestedActions(s.actions, id, ids, 1 + |hs|, now);
    n := Note(id, summary, System, kind, now, 1, [], hs, la, Explicit(scope), None, None, None, sourceNoteId);
    // The record's type and scope and its merged lists, in `ConsultNote`'s terms.
    assert (kind, scope) == ConsultSetting(role).value;
    assert hs == AcceptedHighlights(summary, Effective(role, llm).highlights, ids, 1);
    assert la == SuggestedActions(Effective(role, llm).actions, FreshId(ids, 0), ids, 1 + |AcceptedHighlights(summary, Effective(role, llm).highlights, ids, 1)|, now);
  }

  /** Who sees a consult summary: a doctor's summary clinicians only, a nurse's
      staff too, a patient session summary everyone; the admin always. It is a
      version-1 note that only clinicians and admins may edit, and its
      highlights are anchored in the summary text. */
  lemma ConsultNoteAudience(role: string, sourceNoteId: Option<string>, summary: string, llm: Suggestions,
                            ids: IdSource, now: string)
    requires ConsultSetting(role).Some?
    ensures var n := ConsultNote(role, sourceNoteId, summary, llm, ids, now);
      && (forall v :: CanView(v, n) <==>
            v == Admin || v == Clinician || (v == Staff && role != Clinician) || (v == Patient && role == Patient))
      && (forall v :: CanEdit(v, n) <==> v == Admin || v == Clinician)
      && Consistent(n) && n.version == 1
      && (forall h :: h in n.highlights ==> Anchored(summary, h))
      && (role == Patient ==> n.highlights == [] && n.actions == [])
  {
  }

  lemma ConsultRoles(role: string)
    ensures ConsultSetting(role).Some? <==> role in {Clinician, Staff, Patient}
  {
  }
}
