/** The record shapes of the note store: notes, their highlights and actions,
    and the role and type names the engine compares them against. */
module Records {
  import opened Wrappers

  // Roles. Requests carry a role as free text; these are the ones the engine knows.
  const Patient := "patient"
  const Staff := "staff"
  const Clinician := "clinician"
  const Admin := "admin"
  const Ai := "ai"
  const System := "system"

  // Note types the engine treats specially.
  const DoctorConsultSummary := "ai_doctor_consult_summary"
  const NurseConsultSummary := "ai_nurse_consult_summary"
  const PatientSessionSummary := "ai_patient_session_summary"
  const ClinicianNote := "clinician_note"
  const StaffNote := "staff_note"
  const PatientInput := "patient_input"
  const SystemLog := "system_log"

  // Highlight kinds.
  const Critical := "critical"
  const UserHighlightKind := "user-highlight"

  /** Where a request's fresh ids come from. Ids are random in the engine; the
      model takes a seed, and the k-th id a request draws is `FreshId(src, k)`. */
  datatype IdSource = IdSource(seed: string)

  function FreshId(src: IdSource, k: nat): string {
    src.seed + "-" + Decimal(k)
  }

  function Decimal(k: nat): string
    decreases k
  {
    var d := ['0', '1', '2', '3', '4', '5', '6', '7', '8', '9'];
    if k < 10 then [d[k]] else Decimal(k / 10) + [d[k % 10]]
  }

  /** A note's stored `visibility_scope`: a per-role map, a legacy role tag, or
      nothing usable (missing, or neither a map nor a string). */
  datatype Scope = Explicit(roles: map<string, bool>) | Legacy(tag: string) | Absent

  /** What the glance view writes into a stored highlight: the owning note's id,
      its decay weight and its timestamp. */
  datatype Annotation = Annotation(sourceNoteId: string, weight: real, stamp: string)

  datatype Highlight = Highlight(
    id: string,
    text: string,
    kind: string,               // the highlight's `type`
    reason: Option<string>,
    start: int,
    end: int,
    annotation: Option<Annotation>)

  datatype Status = Pending | Unresolved | Resolved

  datatype Action = Action(
    id: string,
    title: string,
    status: Status,
    createdBy: string,
    assignee: string,
    provenance: string,         // id of the note the action came from
    createdAt: string,
    tags: Option<seq<string>>,
    resolvedAt: Option<string>,
    resolutionComment: Option<string>)

  /** A timeline entry. `history` holds earlier states of the note, each a copy of
      the note as it then was with its own history emptied. */
  datatype Note = Note(
    id: string,
    content: string,
    author: string,             // `author_role`
    kind: string,               // `type`
    timestamp: string,
    version: int,
    history: seq<Note>,
    highlights: seq<Highlight>,
    actions: seq<Action>,
    scope: Scope,
    lastEditor: Option<string>,
    revertedAt: Option<string>,
    revertedBy: Option<string>,
    provenancePointer: Option<string>)

  /** A note's state saved to history: the note itself, not nested. */
  function Snapshot(n: Note): (s: Note)
    ensures s.history == [] && s.(history := n.history) == n
  {
    n.(history := [])
  }

  /** The versioning invariant: one version per saved state plus the live one,
      and no saved state carries a history of its own. */
  ghost predicate Consistent(n: Note) {
    && n.version == |n.history| + 1
    && forall k :: 0 <= k < |n.history| ==> n.history[k].history == []
  }

  ghost predicate AllConsistent(ns: seq<Note>) {
    forall i :: 0 <= i < |ns| ==> Consistent(ns[i])
  }
}
