/** The action workflow: finding an action across the timeline and resolving
    it, optionally forwarding a follow-up, with an audit entry in the timeline. */
module Workflow {
  import opened Wrappers
  import opened Records
  import opened Access
  import opened Text

  /** The note has an action with this id. */
  predicate HasAction(n: Note, id: string) {
    exists j :: 0 <= j < |n.actions| && n.actions[j].id == id
  }

  /** The position of the first action with this id in `acts`. */
  function FindActionIn(acts: seq<Action>, id: string): (r: Option<nat>)
    ensures r.Some? ==> r.value < |acts| && acts[r.value].id == id
    ensures r.Some? ==> forall k :: 0 <= k < r.value ==> acts[k].id != id
    ensures r.None? <==> forall k :: 0 <= k < |acts| ==> acts[k].id != id
  {
    if acts == [] then None
    else if acts[0].id == id then Some(0)
    else
      match FindActionIn(acts[1..], id)
      case None => None
      case Some(k) => Some(k + 1)
  }

  /** Where a scan of the notes front to back, and of each note's actions front
      to back, first meets an action with this id: (note index, action index). */
  function FindAction(ns: seq<Note>, id: string): (r: Option<(nat, nat)>)
    ensures r.Some? ==> r.value.0 < |ns| && r.value.1 < |ns[r.value.0].actions|
    ensures r.Some? ==> ns[r.value.0].actions[r.value.1].id == id
    ensures r.Some? ==> forall k :: 0 <= k < r.value.0 ==> !HasAction(ns[k], id)
    ensures r.Some? ==> forall j :: 0 <= j < r.value.1 ==> ns[r.value.0].actions[j].id != id
    ensures r.None? <==> forall k :: 0 <= k < |ns| ==> !HasAction(ns[k], id)
  {
    if ns == [] then None
    else
      match FindActionIn(ns[0].actions, id)
      case Some(j) => Some((0, j))
      case None =>
        match FindAction(ns[1..], id)
        case None => None
        case Some(p) => Some((p.0 + 1, p.1))
  }

  /** Only the assignee, or the admin, may resolve an action. */
  predicate MayResolve(role: string, a: Action) {
    role == Admin || a.assignee == role
  }

  /** Who a forwarded follow-up goes to: staff when the clinician forwards,
      the clinician otherwise. */
  function ForwardAssignee(role: string): string {
    if role == Clinician then Staff else Clinician
  }

  /** A follow-up is created only for a forward that names a non-empty title. */
  predicate Forwards(resolutionType: string, newTitle: Option<string>) {
    resolutionType == "forward" && newTitle.Some? && newTitle.value != ""
  }

  function ResolvedAction(a: Action, comment: string, now: string): Action {
    a.(status := Resolved, resolvedAt := Some(now), resolutionComment := Some(comment))
  }

  /** The follow-up of `a`, tied to the note `a` came from. */
  function ForwardedAction(a: Action, role: string, title: string, id: string, now: string): Action {
    Action(id, title, Unresolved, role, ForwardAssignee(role), a.provenance, now, None, None, None)
  }

  /** The audit text: the resolved title, the comment when there is one, and
      the follow-up when one was created. */
  function LogText(title: string, comment: string, forward: Option<(string, string)>): string {
    "\U{2705} Action Resolved: " + title
    + (if comment != "" then "\nNote: " + comment else "")
    + (if forward.Some? then "\n\U{27A1}\U{FE0F} Forwarded to " + forward.value.0 + ": " + forward.value.1 else "")
  }

  /** The audit entry: a system-authored log note with no scope of its own. */
  function LogNote(id: string, content: string, now: string): Note {
    Note(id, content, System, SystemLog, now, 1, [], [], [], Absent, None, None, None, None)
  }

  /** The timeline after resolving action `j` of note `i`. */
  function Resolution(ns: seq<Note>, i: nat, j: nat, role: string, resolutionType: string, comment: string,
                      newTitle: Option<string>, forwardId: string, logId: string, now: string): (r: seq<Note>)
    requires i < |ns| && j < |ns[i].actions|
    ensures |r| == |ns| + 1
    ensures r[0].id == logId && r[0].author == System && r[0].kind == SystemLog
    ensures forall k :: 0 <= k < |ns| && k != i ==> r[k + 1] == ns[k]
    ensures r[i + 1].id == ns[i].id && r[i + 1].content == ns[i].content && r[i + 1].version == ns[i].version
  {
    var n := ns[i];
    var a := n.actions[j];
    var fwd := Forwards(resolutionType, newTitle);
    var follow := if fwd then [ForwardedAction(a, role, newTitle.value, forwardId, now)] else [];
    var text := LogText(a.title, comment, if fwd then Some((ForwardAssignee(role), newTitle.value)) else None);
    [LogNote(logId, text, now)] + ns[i := n.(actions := n.actions[j := ResolvedAction(a, comment, now)] + follow)]
  }

  /** Resolves action `j` of note `i`: marks it resolved with the comment,
      appends the follow-up a titled forward asks for, and puts the audit
      entry first. */
  method Resolve(ns: seq<Note>, i: nat, j: nat, role: string, resolutionType: string, comment: string,
                 newTitle: Option<string>, forwardId: string, logId: string, now: string)
    returns (r: seq<Note>, a: Action)
    requires i < |ns| && j < |ns[i].actions|
    ensures a == ResolvedAction(ns[i].actions[j], comment, now)
    ensures r == Resolution(ns, i, j, role, resolutionType, comment, newTitle, forwardId, logId, now)
  {
    var note := ns[i];
    a := note.actions[j];
    ghost var original := a;
    a := a.(status := Resolved, resolvedAt := Some(now), resolutionComment := Some(comment));
    var acts := note.actions[j := a];
    var log := "\U{2705} Action Resolved: " + a.title;
    if comment != "" {
      log := log + ("\nNote: " + comment);
    }
    if resolutionType == "forward" {
      if newTitle.Some? && newTitle.value != "" {
        var assignee := if role == Clinician then Staff else Clinician;
        acts := acts + [Action(forwardId, newTitle.value, Unresolved, role, assignee, a.provenance, now, None, None, None)];
        log := log + ("\n\U{27A1}\U{FE0F} Forwarded to " + assignee + ": " + newTitle.value);
      }
    }
    ghost var fwd := Forwards(resolutionType, newTitle);
    assert acts == note.actions[j := ResolvedAction(original, comment, now)]
      + (if fwd then [ForwardedAction(original, role, newTitle.value, forwardId, now)] else []);
    assert log == LogText(original.title, comment, if fwd then Some((ForwardAssignee(role), newTitle.value)) else None);
    r := [LogNote(logId, log, now)] + ns[i := note.(actions := acts)];
  }

  // ---- Properties of a resolution ----

  /** A resolution puts the audit entry first and shifts every note down one;
      the note holding the action changes only in its actions: the action is
      resolved with the comment, the others are untouched, and a follow-up is
      appended exactly when a titled forward was asked for. */
  lemma ResolutionEffect(ns: seq<Note>, i: nat, j: nat, role: string, resolutionType: string, comment: string,
                         newTitle: Option<string>, forwardId: string, logId: string, now: string)
    requires i < |ns| && j < |ns[i].actions|
    ensures var r := Resolution(ns, i, j, role, resolutionType, comment, newTitle, forwardId, logId, now);
      var a := ns[i].actions[j];
      var acts := r[i + 1].actions;
      && |r| == |ns| + 1
      && r[0].id == logId && r[0].author == System && r[0].kind == SystemLog
      && r[0].version == 1 && r[0].history == [] && r[0].actions == []
      && r[0] == LogNote(logId, LogText(a.title, comment,
           if Forwards(resolutionType, newTitle) then Some((ForwardAssignee(role), newTitle.value)) else None), now)
      && (forall k :: 0 <= k < |ns| && k != i ==> r[k + 1] == ns[k])
      && r[i + 1] == ns[i].(actions := acts)
      && |acts| == |ns[i].actions| + (if Forwards(resolutionType, newTitle) then 1 else 0)
      && acts[j] == a.(status := Resolved, resolvedAt := Some(now), resolutionComment := Some(comment))
      && (forall k :: 0 <= k < |ns[i].actions| && k != j ==> acts[k] == ns[i].actions[k])
      && (Forwards(resolutionType, newTitle) ==>
            var f := acts[|ns[i].actions|];
            && f.id == forwardId && f.title == newTitle.value && f.status == Unresolved
            && f.provenance == a.provenance && f.createdBy == role
            && f.assignee == (if role == Clinician then Staff else Clinician))
  {
  }

  /** The forward line is the arrow mark followed by "Forwarded to ". */
  lemma ForwardMarkSplits()
    ensures "\n\U{27A1}\U{FE0F} Forwarded to " == "\n\U{27A1}\U{FE0F} " + "Forwarded to "
  {
  }

  /** The audit text records the resolution: it opens with the resolved
      title, contains the comment when there is one and the follow-up's
      assignee and title when one was created, and is nothing more than the
      opening line when there is neither. */
  lemma LogTextRecords(title: string, comment: string, forward: Option<(string, string)>)
    ensures var text := LogText(title, comment, forward);
      && StartsWith(text, "\U{2705} Action Resolved: " + title)
      && (comment != "" ==> Contains(text, "\nNote: " + comment))
      && (forward.Some? ==> Contains(text, "Forwarded to " + forward.value.0 + ": " + forward.value.1))
      && (comment == "" && forward.None? ==> text == "\U{2705} Action Resolved: " + title)
  {
    var head := "\U{2705} Action Resolved: " + title;
    var note := if comment != "" then "\nNote: " + comment else "";
    var tail := if forward.Some? then "\n\U{27A1}\U{FE0F} Forwarded to " + forward.value.0 + ": " + forward.value.1 else "";
    var text := LogText(title, comment, forward);
    assert text == head + note + tail;
    OccursInside("", head, note + tail);
    assert "" + head + (note + tail) == text;
    if comment != "" {
      OccursInside(head, note, tail);
    }
    if forward.Some? {
      ForwardRecorded(head + note, forward.value.0, forward.value.1);
    }
  }

  /** The forward line, after whatever precedes it, names the assignee and the title. */
  lemma ForwardRecorded(pre: string, assignee: string, title: string)
    ensures Contains(pre + ("\n\U{27A1}\U{FE0F} Forwarded to " + assignee + ": " + title),
                     "Forwarded to " + assignee + ": " + title)
  {
    var mark := "\n\U{27A1}\U{FE0F} ";
    var lead := "Forwarded to " + assignee;
    var pat := lead + ": " + title;
    ForwardMarkSplits();
    assert "\n\U{27A1}\U{FE0F} Forwarded to " + assignee == mark + lead;
    assert "\n\U{27A1}\U{FE0F} Forwarded to " + assignee + ": " + title == mark + pat;
    OccursAtEnd(pre + mark, pat);
    assert pre + mark + pat == pre + (mark + pat);
  }

  /** Resolving keeps the versioning invariant of every note. */
  lemma ResolutionKeepsConsistent(ns: seq<Note>, i: nat, j: nat, role: string, resolutionType: string, comment: string,
                                  newTitle: Option<string>, forwardId: string, logId: string, now: string)
    requires i < |ns| && j < |ns[i].actions|
    requires AllConsistent(ns)
    ensures AllConsistent(Resolution(ns, i, j, role, resolutionType, comment, newTitle, forwardId, logId, now))
  {
    var r := Resolution(ns, i, j, role, resolutionType, comment, newTitle, forwardId, logId, now);
    forall k | 0 <= k < |r|
      ensures Consistent(r[k])
    {
      if k > 0 {
        assert Consistent(ns[k - 1]);
      }
    }
  }

  /** The first-match position is determined by its defining properties. */
  lemma FindActionCharacterized(ns: seq<Note>, id: string, i: nat, j: nat)
    requires i < |ns| && j < |ns[i].actions| && ns[i].actions[j].id == id
    requires forall k :: 0 <= k < i ==> !HasAction(ns[k], id)
    requires forall k :: 0 <= k < j ==> ns[i].actions[k].id != id
    ensures FindAction(ns, id) == Some((i, j))
  {
    assert HasAction(ns[i], id);
    var q := FindAction(ns, id);
    assert HasAction(ns[q.value.0], id);
  }

  /** After a resolution the same id still leads to the same action, now
      resolved: resolving it again finds it in the same place. */
  lemma ResolvedActionStaysFirst(ns: seq<Note>, id: string, role: string, resolutionType: string,
                                 comment: string, newTitle: Option<string>, forwardId: string,
                                 logId: string, now: string)
    requires FindAction(ns, id).Some?
    ensures var (i, j) := FindAction(ns, id).value;
      var r := Resolution(ns, i, j, role, resolutionType, comment, newTitle, forwardId, logId, now);
      FindAction(r, id) == Some((i + 1, j)) && r[i + 1].actions[j].status == Resolved
  {
    var (i, j) := FindAction(ns, id).value;
    var r := Resolution(ns, i, j, role, resolutionType, comment, newTitle, forwardId, logId, now);
    forall k | 0 <= k < i + 1
      ensures !HasAction(r[k], id)
    {
      if k > 0 {
        assert r[k] == ns[k - 1];
      }
    }
    var acts := r[i + 1].actions;
    forall k | 0 <= k < j
      ensures acts[k].id != id
    {
      assert acts[k] == ns[i].actions[k];
    }
    FindActionCharacterized(r, id, i + 1, j);
  }

  /** The audit entry is seen by staff, the clinician and the admin, and by no
      one else: its type is inferred as staff-visible. */
  lemma LogNoteAudience(id: string, content: string, now: string)
    ensures forall v :: CanView(v, LogNote(id, content, now)) <==> v == Staff || v == Clinician || v == Admin
    ensures forall v :: CanEdit(v, LogNote(id, content, now)) <==> v == Clinician || v == Admin
  {
  }

  /** A forward goes to the other side of the clinician/staff pair; the admin's
      forwards go to the clinician. */
  lemma ForwardAssigneeSwaps(role: string)
    ensures ForwardAssignee(role) == Staff <==> role == Clinician
    ensures role == Staff || role == Admin ==> ForwardAssignee(role) == Clinician
    ensures role == Clinician || role == Staff ==> ForwardAssignee(role) != role
  {
  }
}
