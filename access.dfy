/** Visibility resolution and the view and edit predicates. */
module Access {
  import opened Wrappers
  import opened Records

  // The three fixed visibility templates.
  const ClinicianOnly: map<string, bool> :=
    map[Patient := false, Staff := false, Clinician := true, Admin := true]
  const StaffVisible: map<string, bool> :=
    map[Patient := false, Staff := true, Clinician := true, Admin := true]
  const PatientVisible: map<string, bool> :=
    map[Patient := true, Staff := true, Clinician := true, Admin := true]

  predicate IsTemplate(m: map<string, bool>) {
    m == ClinicianOnly || m == StaffVisible || m == PatientVisible
  }

  /** The three templates differ: staff tell the first from the second, the
      patient the second from the third. */
  lemma TemplatesDistinct()
    ensures ClinicianOnly != StaffVisible && StaffVisible != PatientVisible && ClinicianOnly != PatientVisible
  {
    assert ClinicianOnly[Staff] != StaffVisible[Staff];
    assert StaffVisible[Patient] != PatientVisible[Patient];
    assert ClinicianOnly[Patient] != PatientVisible[Patient];
  }

  /** The template a legacy string scope stands for; unknown tags get staff-visible. */
  function LegacyTemplate(tag: string): (m: map<string, bool>)
    ensures IsTemplate(m)
    ensures m == PatientVisible <==> tag == Patient
    ensures m == ClinicianOnly <==> tag == Clinician
    ensures tag !in {Patient, Staff, Clinician} ==> m == StaffVisible
  {
    TemplatesDistinct();
    if tag == Patient then PatientVisible
    else if tag == Staff then StaffVisible
    else if tag == Clinician then ClinicianOnly
    else StaffVisible
  }

  /** The template inferred from a note's type when it has no usable scope. */
  function InferredTemplate(kind: string): (m: map<string, bool>)
    ensures IsTemplate(m)
    ensures m == ClinicianOnly <==> kind in {DoctorConsultSummary, ClinicianNote}
    ensures m == PatientVisible <==> kind in {PatientSessionSummary, PatientInput}
    ensures kind !in {DoctorConsultSummary, ClinicianNote, PatientSessionSummary, PatientInput} ==> m == StaffVisible
  {
    TemplatesDistinct();
    if kind == DoctorConsultSummary || kind == ClinicianNote then ClinicianOnly
    else if kind == NurseConsultSummary || kind == StaffNote then StaffVisible
    else if kind == PatientSessionSummary || kind == PatientInput then PatientVisible
    else StaffVisible
  }

  /** The per-role visibility map of a note, whatever form its scope is stored in. */
  function StandardScope(n: Note): (m: map<string, bool>)
    ensures n.scope.Explicit? ==> m == n.scope.roles
    ensures !n.scope.Explicit? ==> IsTemplate(m)
  {
    match n.scope
    case Explicit(roles) => roles
    case Legacy(tag) => LegacyTemplate(tag)
    case Absent => InferredTemplate(n.kind)
  }

  function Grants(m: map<string, bool>, role: string): bool {
    if role in m then m[role] else false
  }

  /** Whether `role` may see `n`: the admin always, a patient never a nurse
      consult summary, and otherwise as the resolved scope says. */
  function CanView(role: string, n: Note): (b: bool)
    ensures role == Admin ==> b
    ensures role == Patient && n.kind == NurseConsultSummary ==> !b
    ensures b ==> role == Admin || (role in StandardScope(n) && StandardScope(n)[role])
  {
    if role == Admin then true
    else if role == Patient && n.kind == NurseConsultSummary then false
    else Grants(StandardScope(n), role)
  }

  /** Whether `role` may edit or revert `n`: the admin always, anyone else
      only by the note's author. */
  function CanEdit(role: string, n: Note): (b: bool)
    ensures role == Admin ==> b
    ensures b ==> role == Admin || n.author == role || (role == Clinician && n.author in {Ai, System})
  {
    if role == Admin then true
    else if role == Clinician then n.author == Clinician || n.author == Ai || n.author == System
    else if role == Staff then n.author == Staff
    else if role == Patient then n.author == Patient
    else false
  }

  /** The notes of `ns` that `role` may see, in store order. */
  function Viewable(ns: seq<Note>, role: string): (r: seq<Note>)
    ensures |r| <= |ns|
    ensures forall n :: n in r <==> n in ns && CanView(role, n)
  {
    if ns == [] then []
    else
      var rest := Viewable(ns[1..], role);
      assert forall n :: n in ns <==> n == ns[0] || n in ns[1..];
      if CanView(role, ns[0]) then [ns[0]] + rest else rest
  }

  /** The filter keeps each note the role may view as many times as the store
      holds it, and drops every other note. */
  lemma {:induction false} ViewableCounts(ns: seq<Note>, role: string)
    ensures forall n :: multiset(Viewable(ns, role))[n] == if CanView(role, n) then multiset(ns)[n] else 0
  {
    if ns != [] {
      ViewableCounts(ns[1..], role);
      assert ns == [ns[0]] + ns[1..];
    }
  }

  // ---- Properties of the resolver ----

  /** Each template grants a role whatever the more restrictive ones grant, and
      all of them grant the clinician and the admin. */
  lemma TemplatesAreNested(role: string)
    ensures Grants(ClinicianOnly, role) ==> Grants(StaffVisible, role)
    ensures Grants(StaffVisible, role) ==> Grants(PatientVisible, role)
    ensures forall m :: IsTemplate(m) ==> Grants(m, Clinician) && Grants(m, Admin)
    ensures forall m :: IsTemplate(m) && Grants(m, role) ==> role in {Patient, Staff, Clinician, Admin}
  {
  }

  /** Storing the resolved map back into the note (as note creation does) changes
      neither the resolved map nor anyone's view of the note. */
  lemma ResolvedScopeIsStable(n: Note)
    ensures StandardScope(n.(scope := Explicit(StandardScope(n)))) == StandardScope(n)
    ensures forall role :: CanView(role, n.(scope := Explicit(StandardScope(n)))) == CanView(role, n)
  {
  }

  /** The admin override comes before any scope, explicit maps included. */
  lemma AdminSeesAll(n: Note, s: Scope)
    ensures CanView(Admin, n.(scope := s))
  {
  }

  /** An explicit map decides for every role but the admin, except that a
      patient never sees a nurse consult summary; a role the map leaves out
      sees nothing. */
  lemma ExplicitScopeDecides(n: Note, role: string)
    requires n.scope.Explicit? && role != Admin
    requires !(role == Patient && n.kind == NurseConsultSummary)
    ensures CanView(role, n) <==> role in n.scope.roles && n.scope.roles[role]
  {
  }

  /** The hard exception: no scope lets a patient see a nurse consult summary. */
  lemma NurseSummaryHiddenFromPatient(n: Note, s: Scope)
    requires n.kind == NurseConsultSummary
    ensures !CanView(Patient, n.(scope := s))
  {
  }

  /** Without an explicit map, exactly the patient-facing legacy tag (on any note
      but a nurse consult summary) and the two patient-facing note types reach a
      patient. */
  lemma PatientViewOfImplicitScope(n: Note)
    requires !n.scope.Explicit?
    ensures CanView(Patient, n) <==>
      ((n.scope == Legacy(Patient) && n.kind != NurseConsultSummary) || (n.scope.Absent? && (n.kind == PatientInput || n.kind == PatientSessionSummary)))
  {
  }

  /** Without an explicit map, staff see every note except one tagged
      `clinician` and one of a clinician type with no scope at all. */
  lemma StaffViewOfImplicitScope(n: Note)
    requires !n.scope.Explicit?
    ensures !CanView(Staff, n) <==>
      (n.scope == Legacy(Clinician) || (n.scope.Absent? && (n.kind == DoctorConsultSummary || n.kind == ClinicianNote)))
  {
  }

  /** A role outside the four known ones sees a note only if the note's own map
      names it; the clinician sees every note without an explicit map. */
  lemma ImplicitScopeViewers(n: Note, role: string)
    ensures role !in {Patient, Staff, Clinician, Admin} ==>
      (CanView(role, n) <==> n.scope.Explicit? && role in n.scope.roles && n.scope.roles[role])
    ensures !n.scope.Explicit? ==> CanView(Clinician, n) && CanView(Admin, n)
  {
  }

  // ---- Properties of edit rights ----

  /** Edit rights depend on the note's author only: not on its type, scope or content. */
  lemma EditDependsOnAuthorOnly(role: string, n: Note, m: Note)
    requires n.author == m.author
    ensures CanEdit(role, n) == CanEdit(role, m)
  {
  }

  /** Outside the admin, a role edits only what it wrote itself, except that the
      clinician also edits notes written by the AI or the system; an unknown role
      edits nothing. */
  lemma EditFollowsAuthorship(role: string, n: Note)
    ensures role != Admin && CanEdit(role, n) ==>
      n.author == role || (role == Clinician && (n.author == Ai || n.author == System))
    ensures role in {Patient, Staff, Clinician} && n.author == role ==> CanEdit(role, n)
    ensures n.author == Ai || n.author == System ==> CanEdit(Clinician, n)
    ensures role !in {Patient, Staff, Clinician, Admin} ==> !CanEdit(role, n)
    ensures CanEdit(Admin, n)
  {
  }

  /** Seeing is not editing: staff see a clinician's staff note but may not edit
      it, and a clinician sees a staff note but may not edit it. */
  lemma ViewDoesNotImplyEdit()
    ensures exists n: Note :: CanView(Staff, n) && !CanEdit(Staff, n)
    ensures exists n: Note :: CanView(Clinician, n) && !CanEdit(Clinician, n)
  {
    var clinicians := Note("n1", "", Clinician, StaffNote, "", 1, [], [], [], Absent, None, None, None, None);
    assert CanView(Staff, clinicians) && !CanEdit(Staff, clinicians);
    var staffs := clinicians.(author := Staff);
    assert CanView(Clinician, staffs) && !CanEdit(Clinician, staffs);
  }
}
