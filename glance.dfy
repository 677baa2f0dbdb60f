/** The glance view: decayed key signals, the actions waiting on a role, the
    clinician-confirmed items and the AI-scribed summaries, gathered in one
    pass over the timeline. */
module Glance {
  import opened Wrappers
  import opened Text
  import opened Ordering
  import opened Records
  import opened Access

  // ---- Decay ----

  function Clamp(x: real): (r: real)
    ensures 0.0 <= r <= 1.0
    ensures 0.0 <= x <= 1.0 ==> r == x
  {
    if x < 0.0 then 0.0 else if x > 1.0 then 1.0 else x
  }

  /** The weight of an item `age` whole days old: 1 / (1 + 0.5 * days), clamped
      to [0, 1]. An unparsable timestamp (None) weighs 1.0, and so does an age
      of -2 days, where the formula divides by zero and the failure is caught. */
  function DecayWeight(age: Option<int>): (w: real)
    ensures 0.0 <= w <= 1.0
    ensures age.None? ==> w == 1.0
  {
    match age
    case None => 1.0
    case Some(d) => if d == -2 then 1.0 else Clamp(1.0 / (1.0 + 0.5 * d as real))
  }

  /** For a past timestamp the weight is the formula itself, unclamped. */
  lemma PastWeight(d: nat)
    ensures DecayWeight(Some(d)) == 1.0 / (1.0 + 0.5 * d as real)
    ensures DecayWeight(Some(d)) * (1.0 + 0.5 * d as real) == 1.0
  {
    var x := 1.0 + 0.5 * d as real;
    assert x >= 1.0;
    assert 1.0 / x <= 1.0 by {
      assert (1.0 / x) * x == 1.0;
    }
  }

  /** The decay cut-off: the weight of an item from the past drops below 0.2
      exactly when it is at least nine days old. */
  lemma DecayThreshold(d: nat)
    ensures DecayWeight(Some(d)) < 0.2 <==> d >= 9
  {
    PastWeight(d);
    var x := 1.0 + 0.5 * d as real;
    var w := DecayWeight(Some(d));
    assert w * x == 1.0;
    if d >= 9 {
      assert 0.2 * x > 1.0;
      ProductBound(w, 0.2, x);
      assert w != 0.2;
    } else {
      assert 0.2 * x <= 1.0;
      ProductBound(0.2, w, x);
    }
  }

  /** A positive factor keeps the order of the other factors. */
  lemma ProductBound(a: real, b: real, x: real)
    requires x > 0.0 && a * x <= b * x
    ensures a <= b
  {
    assert (b - a) * x >= 0.0;
  }

  /** A non-negative factor keeps the order of the other factors. */
  lemma MulMonotone(c: real, a: real, b: real)
    requires c >= 0.0 && a <= b
    ensures c * a <= c * b
  {
    assert c * b - c * a == c * (b - a);
  }

  /** Older items never weigh more. */
  lemma DecayMonotone(d1: nat, d2: nat)
    requires d1 <= d2
    ensures DecayWeight(Some(d2)) <= DecayWeight(Some(d1))
  {
    PastWeight(d1);
    PastWeight(d2);
    var x1 := 1.0 + 0.5 * d1 as real;
    var x2 := 1.0 + 0.5 * d2 as real;
    var w1 := DecayWeight(Some(d1));
    var w2 := DecayWeight(Some(d2));
    assert x1 <= x2;
    MulMonotone(w2, x1, x2);
    var lhs, mid := w2 * x1, w2 * x2;
    assert lhs <= mid;
    assert mid == 1.0 && w1 * x1 == 1.0;
    assert lhs <= w1 * x1;
    ProductBound(w2, w1, x1);
  }

  /** The weight at today, two days, and for timestamps in the future: up to two
      days ahead weighs 1.0, three or more days ahead weighs 0.0. */
  lemma DecayFixedPoints(d: int)
    ensures DecayWeight(Some(0)) == 1.0 && DecayWeight(Some(2)) == 0.5
    ensures d == -1 || d == -2 ==> DecayWeight(Some(d)) == 1.0
    ensures d <= -3 ==> DecayWeight(Some(d)) == 0.0
  {
    if d <= -3 {
      var x := 1.0 + 0.5 * d as real;
      assert x < 0.0;
      assert (1.0 / x) * x == 1.0;
      assert 1.0 / x < 0.0;
    }
  }

  /** Whether a highlight of weight `w` survives the decay filter: only critical
      highlights are kept below 0.2. */
  predicate Kept(h: Highlight, w: real) {
    !(w < 0.2 && h.kind != Critical)
  }

  /** The weight of note `n` at the time of the request. */
  function NoteWeight(n: Note, age: string -> Option<int>): real {
    DecayWeight(age(n.timestamp))
  }

  /** A highlight as the glance leaves it: tagged with its note's id, weight and timestamp. */
  function Annotated(h: Highlight, n: Note, w: real): (r: Highlight)
    ensures r.(annotation := h.annotation) == h
    ensures r.annotation == Some(Annotation(n.id, w, n.timestamp))
  {
    h.(annotation := Some(Annotation(n.id, w, n.timestamp)))
  }

  function AnnotatedAll(hs: seq<Highlight>, n: Note, w: real): (r: seq<Highlight>)
    ensures |r| == |hs|
    ensures forall k :: 0 <= k < |hs| ==> r[k] == Annotated(hs[k], n, w)
  {
    seq(|hs|, k requires 0 <= k < |hs| => Annotated(hs[k], n, w))
  }

  /** The annotated highlights of `hs` that survive the decay filter, in order. */
  function KeptSignals(hs: seq<Highlight>, n: Note, w: real): (r: seq<Highlight>)
    ensures |r| <= |hs|
    ensures forall k :: 0 <= k < |r| ==> Kept(r[k], w) && r[k].annotation == Some(Annotation(n.id, w, n.timestamp))
  {
    if hs == [] then []
    else
      var h := Annotated(hs[|hs| - 1], n, w);
      KeptSignals(hs[..|hs| - 1], n, w) + (if Kept(h, w) then [h] else [])
  }

  lemma {:induction false} KeptSignalsMembership(hs: seq<Highlight>, n: Note, w: real)
    ensures forall h :: h in KeptSignals(hs, n, w) <==>
      Kept(h, w) && exists k :: 0 <= k < |hs| && h == Annotated(hs[k], n, w)
  {
    if hs != [] {
      var init := hs[..|hs| - 1];
      KeptSignalsMembership(init, n, w);
      forall h
        ensures h in KeptSignals(hs, n, w) <==> Kept(h, w) && exists k :: 0 <= k < |hs| && h == Annotated(hs[k], n, w)
      {
        if h in KeptSignals(hs, n, w) {
          if h in KeptSignals(init, n, w) {
            var k :| 0 <= k < |init| && h == Annotated(init[k], n, w);
            assert init[k] == hs[k];
          } else {
            assert h == Annotated(hs[|hs| - 1], n, w);
          }
        }
        if Kept(h, w) && exists k :: 0 <= k < |hs| && h == Annotated(hs[k], n, w) {
          var k :| 0 <= k < |hs| && h == Annotated(hs[k], n, w);
          if k < |hs| - 1 {
            assert init[k] == hs[k];
          }
        }
      }
    }
  }

  /** Each tagged highlight that passes the filter is kept as many times as the
      note holds it, and no other highlight is kept. */
  lemma {:induction false} KeptSignalsCounts(hs: seq<Highlight>, n: Note, w: real)
    ensures forall h :: multiset(KeptSignals(hs, n, w))[h] == if Kept(h, w) then multiset(AnnotatedAll(hs, n, w))[h] else 0
  {
    if hs != [] {
      var init := hs[..|hs| - 1];
      KeptSignalsCounts(init, n, w);
      assert AnnotatedAll(hs, n, w) == AnnotatedAll(init, n, w) + [Annotated(hs[|hs| - 1], n, w)];
    }
  }

  /** A note's contribution to the key signals: none unless the role sees the note. */
  function NoteSignals(n: Note, role: string, age: string -> Option<int>): seq<Highlight> {
    if CanView(role, n) then KeptSignals(n.highlights, n, NoteWeight(n, age)) else []
  }

  /** The key signals of the timeline before sorting, in timeline order. */
  function Signals(ns: seq<Note>, role: string, age: string -> Option<int>): (r: seq<Highlight>)
    ensures forall k :: 0 <= k < |r| ==> r[k].annotation.Some?
  {
    if ns == [] then []
    else Signals(ns[..|ns| - 1], role, age) + NoteSignals(ns[|ns| - 1], role, age)
  }

  lemma {:induction false} SignalsMembership(ns: seq<Note>, role: string, age: string -> Option<int>)
    ensures forall h :: h in Signals(ns, role, age) <==> exists i :: 0 <= i < |ns| && h in NoteSignals(ns[i], role, age)
  {
    if ns != [] {
      var init := ns[..|ns| - 1];
      var last := ns[|ns| - 1];
      var before := Signals(init, role, age);
      var here := NoteSignals(last, role, age);
      SignalsMembership(init, role, age);
      assert Signals(ns, role, age) == before + here;
      assert forall h :: h in before + here <==> h in before || h in here;
      forall h
        ensures h in Signals(ns, role, age) <==> exists i :: 0 <= i < |ns| && h in NoteSignals(ns[i], role, age)
      {
        if h in before {
          var i :| 0 <= i < |init| && h in NoteSignals(init[i], role, age);
          assert init[i] == ns[i];
        } else if h in here {
          assert h in NoteSignals(ns[|ns| - 1], role, age);
        }
        if exists i :: 0 <= i < |ns| && h in NoteSignals(ns[i], role, age) {
          var i :| 0 <= i < |ns| && h in NoteSignals(ns[i], role, age);
          if i < |ns| - 1 {
            assert init[i] == ns[i];
            assert h in before;
          } else {
            assert h in here;
          }
        }
      }
    }
  }

  /** The stored note after the glance has annotated it: the highlights of
      every note the role sees are tagged; other notes are left alone. */
  function WeighedNote(n: Note, role: string, age: string -> Option<int>): Note {
    if CanView(role, n) then n.(highlights := AnnotatedAll(n.highlights, n, NoteWeight(n, age))) else n
  }

  function Weighed(ns: seq<Note>, role: string, age: string -> Option<int>): (r: seq<Note>)
    ensures |r| == |ns|
    ensures forall i :: 0 <= i < |ns| ==> r[i] == WeighedNote(ns[i], role, age)
  {
    seq(|ns|, i requires 0 <= i < |ns| => WeighedNote(ns[i], role, age))
  }

  /** Annotating changes nothing but highlight annotations: not who sees or
      edits a note, and not the versioning invariant. */
  lemma WeighingIsHarmless(ns: seq<Note>, role: string, age: string -> Option<int>)
    ensures var r := Weighed(ns, role, age);
      && (AllConsistent(ns) ==> AllConsistent(r))
      && (forall i :: 0 <= i < |ns| ==>
            && r[i].(highlights := ns[i].highlights) == ns[i]
            && |r[i].highlights| == |ns[i].highlights|
            && (forall k :: 0 <= k < |ns[i].highlights| ==>
                  r[i].highlights[k].(annotation := ns[i].highlights[k].annotation) == ns[i].highlights[k])
            && (forall v :: CanView(v, r[i]) == CanView(v, ns[i]) && CanEdit(v, r[i]) == CanEdit(v, ns[i])))
  {
    var r := Weighed(ns, role, age);
    if AllConsistent(ns) {
      forall i | 0 <= i < |r|
        ensures Consistent(r[i])
      {
        assert Consistent(ns[i]);
      }
    }
  }

  // ---- Actions ----

  /** The admin sees every action; anyone else the open ones assigned to them. */
  predicate ActionShown(role: string, a: Action) {
    role == Admin || (a.assignee == role && (a.status == Pending || a.status == Unresolved))
  }

  function ShownActions(acts: seq<Action>, role: string): seq<Action> {
    if acts == [] then []
    else
      var a := acts[|acts| - 1];
      ShownActions(acts[..|acts| - 1], role) + (if ActionShown(role, a) then [a] else [])
  }

  lemma {:induction false} ShownActionsMembership(acts: seq<Action>, role: string)
    ensures forall a :: a in ShownActions(acts, role) <==> a in acts && ActionShown(role, a)
  {
    if acts != [] {
      ShownActionsMembership(acts[..|acts| - 1], role);
      assert acts == acts[..|acts| - 1] + [acts[|acts| - 1]];
    }
  }

  /** Each shown action appears as many times as in the note, and no other. */
  lemma {:induction false} ShownActionsCounts(acts: seq<Action>, role: string)
    ensures forall a :: multiset(ShownActions(acts, role))[a] == if ActionShown(role, a) then multiset(acts)[a] else 0
  {
    if acts != [] {
      ShownActionsCounts(acts[..|acts| - 1], role);
      assert acts == acts[..|acts| - 1] + [acts[|acts| - 1]];
    }
  }

  /** The actions of all notes, seen or not, that are shown to `role`. */
  function TimelineActions(ns: seq<Note>, role: string): seq<Action> {
    if ns == [] then []
    else TimelineActions(ns[..|ns| - 1], role) + ShownActions(ns[|ns| - 1].actions, role)
  }

  lemma {:induction false} TimelineActionsMembership(ns: seq<Note>, role: string)
    ensures forall a :: a in TimelineActions(ns, role) <==>
      ActionShown(role, a) && exists i :: 0 <= i < |ns| && a in ns[i].actions
  {
    if ns != [] {
      var init := ns[..|ns| - 1];
      var last := ns[|ns| - 1];
      TimelineActionsMembership(init, role);
      ShownActionsMembership(last.actions, role);
      forall a
        ensures a in TimelineActions(ns, role) <==> ActionShown(role, a) && exists i :: 0 <= i < |ns| && a in ns[i].actions
      {
        if a in TimelineActions(init, role) {
          var i :| 0 <= i < |init| && a in init[i].actions;
          assert init[i] == ns[i];
        }
        if ActionShown(role, a) && exists i :: 0 <= i < |ns| && a in ns[i].actions {
          var i :| 0 <= i < |ns| && a in ns[i].actions;
          if i < |ns| - 1 {
            assert init[i] == ns[i];
          }
        }
      }
    }
  }

  // ---- Clinician-confirmed items ----

  datatype ConfirmedKind = Decision | Modification

  datatype ConfirmedItem = ConfirmedItem(id: string, text: string, sourceNoteId: string, kind: ConfirmedKind)

  /** A clinician's note records a decision when it mentions a plan or a
      decision, in any case, or is a clinician note. */
  predicate RecordsDecision(n: Note) {
    Contains(Lower(n.content), "plan") || Contains(Lower(n.content), "decision") || n.kind == ClinicianNote
  }

  /** The note's first saved state was written by the AI. */
  predicate ModifiesAi(n: Note) {
    n.history != [] && n.history[0].author == Ai
  }

  function DecisionItem(n: Note): ConfirmedItem {
    ConfirmedItem(n.id, "Decision: " + Prefix(n.content, 50) + "...", n.id, Decision)
  }

  function ModificationItem(n: Note): ConfirmedItem {
    ConfirmedItem(n.id + "_mod", "Modified AI Consult", n.id, Modification)
  }

  function NoteConfirmed(n: Note, role: string): seq<ConfirmedItem> {
    if CanView(role, n) && n.author == Clinician then
      (if RecordsDecision(n) then [DecisionItem(n)] else [])
      + (if ModifiesAi(n) then [ModificationItem(n)] else [])
    else []
  }

  /** The confirmed items of the timeline, in timeline order: at most two per note. */
  function Confirmed(ns: seq<Note>, role: string): (r: seq<ConfirmedItem>)
    ensures |r| <= 2 * |ns|
  {
    if ns == [] then []
    else Confirmed(ns[..|ns| - 1], role) + NoteConfirmed(ns[|ns| - 1], role)
  }

  /** `c` is one of the items `n` yields for `role`. */
  predicate ConfirmedFrom(c: ConfirmedItem, n: Note, role: string) {
    && CanView(role, n) && n.author == Clinician && c.sourceNoteId == n.id
    && (c.kind == Decision ==> RecordsDecision(n) && c == DecisionItem(n))
    && (c.kind == Modification ==> ModifiesAi(n) && c == ModificationItem(n))
  }

  /** Every confirmed item comes from a clinician-authored note the role sees:
      a decision item from a note that records a decision, a modification item
      from a note whose first saved state the AI wrote. */
  lemma {:induction false} ConfirmedSources(ns: seq<Note>, role: string)
    ensures forall c :: c in Confirmed(ns, role) ==> exists i :: 0 <= i < |ns| && ConfirmedFrom(c, ns[i], role)
  {
    if ns != [] {
      var init := ns[..|ns| - 1];
      ConfirmedSources(init, role);
      forall c | c in Confirmed(ns, role)
        ensures exists i :: 0 <= i < |ns| && ConfirmedFrom(c, ns[i], role)
      {
        if c in Confirmed(init, role) {
          var i :| 0 <= i < |init| && ConfirmedFrom(c, init[i], role);
          assert init[i] == ns[i];
        } else {
          assert c in NoteConfirmed(ns[|ns| - 1], role);
          assert ConfirmedFrom(c, ns[|ns| - 1], role);
        }
      }
    }
  }

  /** Conversely, a clinician note the role sees yields its decision item when
      it records a decision. */
  lemma {:induction false} DecisionsConfirmed(ns: seq<Note>, role: string, i: nat)
    requires i < |ns| && CanView(role, ns[i]) && ns[i].author == Clinician && RecordsDecision(ns[i])
    ensures DecisionItem(ns[i]) in Confirmed(ns, role)
  {
    var init := ns[..|ns| - 1];
    if i < |ns| - 1 {
      assert init[i] == ns[i];
      DecisionsConfirmed(init, role, i);
    } else {
      assert DecisionItem(ns[i]) in NoteConfirmed(ns[i], role);
    }
  }

  /** Conversely, a clinician-written note the role sees whose first saved
      state the AI wrote yields its modification item, however long its history. */
  lemma {:induction false} ModificationsConfirmed(ns: seq<Note>, role: string, i: nat)
    requires i < |ns| && CanView(role, ns[i]) && ns[i].author == Clinician && ModifiesAi(ns[i])
    ensures ModificationItem(ns[i]) in Confirmed(ns, role)
  {
    var init := ns[..|ns| - 1];
    if i < |ns| - 1 {
      assert init[i] == ns[i];
      ModificationsConfirmed(init, role, i);
    } else {
      assert ModificationItem(ns[i]) in NoteConfirmed(ns[i], role);
    }
  }

  // ---- AI-scribed summaries ----

  datatype ScribedEntry = ScribedEntry(id: string, kind: string, summary: string, timestamp: string, author: string)

  /** A note type with every `ai_` marker removed. */
  function Unmarked(kind: string): (u: string)
    ensures |u| <= |kind|
    ensures StartsWith(kind, "ai_") ==> |u| <= |kind| - 3
  {
    Replace(kind, "ai_", "")
  }

  /** A note type as the glance shows it: the `ai_` marker dropped,
      underscores turned into spaces and every word capitalised. Each
      character of the unmarked type keeps its place: an underscore becomes a
      space and anything else is kept up to the case of a letter; a letter
      ends up upper-case exactly where a word starts. */
  function Humanize(kind: string): (r: string)
    ensures |r| == |Unmarked(kind)| <= |kind|
    ensures StartsWith(kind, "ai_") ==> |r| <= |kind| - 3
    ensures forall i :: 0 <= i < |r| && Unmarked(kind)[i] == '_' ==> r[i] == ' '
    ensures forall i :: 0 <= i < |r| && Unmarked(kind)[i] != '_' ==> LowerChar(r[i]) == LowerChar(Unmarked(kind)[i])
    ensures forall i :: 0 <= i < |r| && IsLetter(r[i]) ==> (IsUpper(r[i]) <==> WordStart(r, i))
    ensures '_' !in r
  {
    var u := Unmarked(kind);
    var spaced := Replace(u, "_", " ");
    ReplaceCharByChar(u, '_', ' ');
    ReplaceCharLeavesNone(u, '_', " ");
    var r := Title(spaced);
    TitleChangesCaseOnly(spaced);
    TitleCapitalisesWords(spaced);
    assert forall i :: 0 <= i < |r| ==> r[i] != '_' by {
      forall i | 0 <= i < |r|
        ensures r[i] != '_'
      {
        assert spaced[i] in spaced;
      }
    }
    r
  }

  /** The `ai_` marker at the front of a type does not show. */
  lemma MarkerNotShown(t: string)
    ensures Humanize("ai_" + t) == Humanize(t)
  {
    var s := "ai_" + t;
    assert s[..3] == "ai_" && s[3..] == t;
    assert Replace(s, "ai_", "") == "" + Replace(t, "ai_", "");
    assert Unmarked(s) == Unmarked(t);
  }

  /** The first 100 characters of a longer text, marked as cut. */
  function Summary(content: string): string {
    if |content| > 100 then content[..100] + "..." else content
  }

  function NoteScribed(n: Note, role: string): seq<ScribedEntry> {
    if CanView(role, n) && StartsWith(n.kind, "ai_") then
      [ScribedEntry(n.id, Humanize(n.kind), Summary(n.content), n.timestamp, n.author)]
    else []
  }

  /** The AI-scribed entries of the timeline, in timeline order: at most one per note. */
  function Scribed(ns: seq<Note>, role: string): (r: seq<ScribedEntry>)
    ensures |r| <= |ns|
  {
    if ns == [] then []
    else Scribed(ns[..|ns| - 1], role) + NoteScribed(ns[|ns| - 1], role)
  }

  /** A summary is the content when it has at most 100 characters, and otherwise its
      first 100 characters followed by "...". */
  lemma SummaryShape(content: string)
    ensures |content| <= 100 ==> Summary(content) == content
    ensures |content| > 100 ==>
      |Summary(content)| == 103 && Summary(content)[..100] == content[..100] && Summary(content)[100..] == "..."
    ensures |Summary(content)| <= 103
  {
  }

  /** `e` is the entry of `n`, an AI-typed note `role` sees. */
  predicate ScribedFrom(e: ScribedEntry, n: Note, role: string) {
    && CanView(role, n) && StartsWith(n.kind, "ai_")
    && e == ScribedEntry(n.id, Humanize(n.kind), Summary(n.content), n.timestamp, n.author)
  }

  /** Every AI-scribed entry is the entry of an AI-typed note the role sees. */
  lemma {:induction false} ScribedEntries(ns: seq<Note>, role: string)
    ensures forall e :: e in Scribed(ns, role) ==> exists i :: 0 <= i < |ns| && ScribedFrom(e, ns[i], role)
  {
    if ns != [] {
      var init := ns[..|ns| - 1];
      ScribedEntries(init, role);
      forall e | e in Scribed(ns, role)
        ensures exists i :: 0 <= i < |ns| && ScribedFrom(e, ns[i], role)
      {
        if e in Scribed(init, role) {
          var i :| 0 <= i < |init| && ScribedFrom(e, init[i], role);
          assert init[i] == ns[i];
        } else {
          assert e in NoteScribed(ns[|ns| - 1], role);
          assert ScribedFrom(e, ns[|ns| - 1], role);
        }
      }
    }
  }

  /** Conversely, every AI-typed note the role sees yields its entry, whoever
      wrote or last edited it. */
  lemma {:induction false} ScribedComplete(ns: seq<Note>, role: string, i: nat)
    requires i < |ns| && CanView(role, ns[i]) && StartsWith(ns[i].kind, "ai_")
    ensures ScribedEntry(ns[i].id, Humanize(ns[i].kind), Summary(ns[i].content), ns[i].timestamp, ns[i].author)
      in Scribed(ns, role)
  {
    var init := ns[..|ns| - 1];
    if i < |ns| - 1 {
      assert init[i] == ns[i];
      ScribedComplete(init, role, i);
    } else {
      assert NoteScribed(ns[i], role) ==
        [ScribedEntry(ns[i].id, Humanize(ns[i].kind), Summary(ns[i].content), ns[i].timestamp, ns[i].author)];
    }
  }

  // ---- Ordering of key signals ----

  function WeightOf(h: Highlight): real {
    if h.annotation.Some? then h.annotation.value.weight else 0.0
  }

  function StampOf(h: Highlight): string {
    if h.annotation.Some? then h.annotation.value.stamp else ""
  }

  /** The key (weight, timestamp) of `a` is at least that of `b`. */
  predicate SignalGeq(a: Highlight, b: Highlight) {
    WeightOf(a) > WeightOf(b) || (WeightOf(a) == WeightOf(b) && LexLe(StampOf(b), StampOf(a)))
  }

  lemma SignalOrder()
    ensures Total(SignalGeq) && Transitive(SignalGeq)
  {
    forall a: Highlight, b: Highlight
      ensures SignalGeq(a, b) || SignalGeq(b, a)
    {
      LexLeTotal(StampOf(a), StampOf(b));
    }
    forall a: Highlight, b: Highlight, c: Highlight | SignalGeq(a, b) && SignalGeq(b, c)
      ensures SignalGeq(a, c)
    {
      if WeightOf(a) == WeightOf(b) && WeightOf(b) == WeightOf(c) {
        LexLeTransitive(StampOf(c), StampOf(b), StampOf(a));
      }
    }
  }

  function SortSignals(hs: seq<Highlight>): (r: seq<Highlight>)
    ensures multiset(r) == multiset(hs)
    ensures SortedDesc(r, SignalGeq)
  {
    SignalOrder();
    var r := SortDesc(hs, SignalGeq);
    NonIncreasingIsSorted(r, SignalGeq);
    r
  }

  // ---- The view ----

  /** What the glance returns: nothing at all for a patient. */
  datatype GlanceView =
    | Suppressed
    | View(actions: seq<Action>, keySignals: seq<Highlight>, confirmed: seq<ConfirmedItem>, aiScribed: seq<ScribedEntry>)

  /** The glance of `role` over the timeline `ns`, with the store-level actions
      `sys` listed first. Confirmed items are kept for the clinician and the
      admin only. */
  function GlanceOf(ns: seq<Note>, sys: seq<Action>, role: string, age: string -> Option<int>): (g: GlanceView)
    ensures g.Suppressed? <==> role == Patient
    ensures g.View? ==> |sys| <= |g.actions| && g.actions[..|sys|] == sys && |g.keySignals| == |Signals(ns, role, age)|
  {
    if role == Patient then Suppressed
    else
      View(sys + TimelineActions(ns, role),
           SortSignals(Signals(ns, role, age)),
           if role == Clinician || role == Admin then Confirmed(ns, role) else [],
           Scribed(ns, role))
  }

  /** A key signal is an annotated highlight of a note the role sees, tagged
      with that note's id, weight and timestamp, and it is either critical or
      weighs at least 0.2; every such highlight is a key signal. */
  lemma KeySignalsExact(ns: seq<Note>, sys: seq<Action>, role: string, age: string -> Option<int>)
    requires role != Patient
    ensures forall h :: h in GlanceOf(ns, sys, role, age).keySignals <==>
      exists i :: 0 <= i < |ns| && CanView(role, ns[i]) && Kept(h, NoteWeight(ns[i], age)) &&
        exists k :: 0 <= k < |ns[i].highlights| && h == Annotated(ns[i].highlights[k], ns[i], NoteWeight(ns[i], age))
  {
    var s := GlanceOf(ns, sys, role, age).keySignals;
    var sigs := Signals(ns, role, age);
    assert multiset(s) == multiset(sigs);
    SignalsMembership(ns, role, age);
    forall h
      ensures h in s <==>
        exists i :: 0 <= i < |ns| && CanView(role, ns[i]) && Kept(h, NoteWeight(ns[i], age)) &&
          exists k :: 0 <= k < |ns[i].highlights| && h == Annotated(ns[i].highlights[k], ns[i], NoteWeight(ns[i], age))
    {
      assert h in s <==> h in sigs by {
        assert h in s <==> h in multiset(s);
        assert h in sigs <==> h in multiset(sigs);
      }
      if h in sigs {
        var i :| 0 <= i < |ns| && h in NoteSignals(ns[i], role, age);
        KeptSignalsMembership(ns[i].highlights, ns[i], NoteWeight(ns[i], age));
      }
      if exists i :: 0 <= i < |ns| && CanView(role, ns[i]) && Kept(h, NoteWeight(ns[i], age)) &&
          exists k :: 0 <= k < |ns[i].highlights| && h == Annotated(ns[i].highlights[k], ns[i], NoteWeight(ns[i], age))
      {
        var i :| 0 <= i < |ns| && CanView(role, ns[i]) && Kept(h, NoteWeight(ns[i], age)) &&
          exists k :: 0 <= k < |ns[i].highlights| && h == Annotated(ns[i].highlights[k], ns[i], NoteWeight(ns[i], age));
        KeptSignalsMembership(ns[i].highlights, ns[i], NoteWeight(ns[i], age));
        assert h in NoteSignals(ns[i], role, age);
      }
    }
  }

  /** Key signals come heaviest first, and among equal weights newest first. */
  lemma KeySignalsOrdered(ns: seq<Note>, sys: seq<Action>, role: string, age: string -> Option<int>)
    requires role != Patient
    ensures var s := GlanceOf(ns, sys, role, age).keySignals;
      forall i, j :: 0 <= i < j < |s| ==>
        WeightOf(s[i]) > WeightOf(s[j]) || (WeightOf(s[i]) == WeightOf(s[j]) && LexLe(StampOf(s[j]), StampOf(s[i])))
  {
  }

  /** The decay rule on a note the role sees: a non-critical highlight of a
      note d >= 0 days old is among the key signals exactly when d < 9. */
  lemma DecayFilter(n: Note, h: Highlight, role: string, age: string -> Option<int>, d: nat)
    requires CanView(role, n) && h in n.highlights && h.kind != Critical && age(n.timestamp) == Some(d)
    ensures Annotated(h, n, NoteWeight(n, age)) in NoteSignals(n, role, age) <==> d < 9
  {
    DecayThreshold(d);
    KeptSignalsMembership(n.highlights, n, NoteWeight(n, age));
    var k :| 0 <= k < |n.highlights| && n.highlights[k] == h;
  }

  /** Actions shown are exactly the open actions assigned to the role, from any
      note, whether or not the role sees the note; the admin gets every action. */
  lemma GlanceActionsExact(ns: seq<Note>, sys: seq<Action>, role: string, age: string -> Option<int>)
    requires role != Patient
    ensures forall a :: a in GlanceOf(ns, sys, role, age).actions <==>
      a in sys || (ActionShown(role, a) && exists i :: 0 <= i < |ns| && a in ns[i].actions)
    ensures role != Admin ==> forall a :: a in GlanceOf(ns, sys, role, age).actions && a !in sys ==>
      a.assignee == role && a.status != Resolved
  {
    TimelineActionsMembership(ns, role);
  }

  /** Only the clinician and the admin get confirmed items. */
  lemma ConfirmedForClinicalRolesOnly(ns: seq<Note>, sys: seq<Action>, role: string, age: string -> Option<int>)
    requires role != Patient
    ensures role != Clinician && role != Admin ==> GlanceOf(ns, sys, role, age).confirmed == []
    ensures role == Clinician || role == Admin ==> GlanceOf(ns, sys, role, age).confirmed == Confirmed(ns, role)
  {
  }

  // ---- The loops of the glance pass ----

  /** How each collector grows by one note. */
  lemma GlanceStep(ns: seq<Note>, i: nat, role: string, age: string -> Option<int>)
    requires i < |ns|
    ensures Signals(ns[..i + 1], role, age) == Signals(ns[..i], role, age) + NoteSignals(ns[i], role, age)
    ensures TimelineActions(ns[..i + 1], role) == TimelineActions(ns[..i], role) + ShownActions(ns[i].actions, role)
    ensures Confirmed(ns[..i + 1], role) == Confirmed(ns[..i], role) + NoteConfirmed(ns[i], role)
    ensures Scribed(ns[..i + 1], role) == Scribed(ns[..i], role) + NoteScribed(ns[i], role)
  {
    assert ns[..i + 1][..i] == ns[..i];
  }

  /** Tags each highlight of `n` with weight `w`, collecting those that survive
      the decay filter. */
  method WeighHighlights(n: Note, w: real) returns (stored: seq<Highlight>, kept: seq<Highlight>)
    ensures stored == AnnotatedAll(n.highlights, n, w)
    ensures kept == KeptSignals(n.highlights, n, w)
  {
    var hs := n.highlights;
    stored, kept := [], [];
    var k := 0;
    while k < |hs|
      invariant 0 <= k <= |hs|
      invariant |stored| == k
      invariant forall m :: 0 <= m < k ==> stored[m] == Annotated(hs[m], n, w)
      invariant kept == KeptSignals(hs[..k], n, w)
    {
      var h := hs[k].(annotation := Some(Annotation(n.id, w, n.timestamp)));
      stored := stored + [h];
      assert hs[..k + 1][..k] == hs[..k];
      if !(w < 0.2 && h.kind != Critical) {
        kept := kept + [h];
      }
      k := k + 1;
    }
    assert hs[..k] == hs;
  }

  /** The actions of `acts` shown to `role`, in order. */
  method SelectActions(acts: seq<Action>, role: string) returns (shown: seq<Action>)
    ensures shown == ShownActions(acts, role)
  {
    shown := [];
    var k := 0;
    while k < |acts|
      invariant 0 <= k <= |acts|
      invariant shown == ShownActions(acts[..k], role)
    {
      var a := acts[k];
      var visible := false;
      if role == Admin {
        visible := true;
      } else if a.assignee == role && (a.status == Unresolved || a.status == Pending) {
        visible := true;
      }
      if visible {
        shown := shown + [a];
      }
      assert acts[..k + 1][..k] == acts[..k];
      k := k + 1;
    }
    assert acts[..k] == acts;
  }

  /** The confirmed items of one note: a decision entry for a clinician's
      note that records a decision, a modification entry for one whose first
      saved state the AI wrote. */
  method ConfirmItems(n: Note, role: string) returns (items: seq<ConfirmedItem>)
    ensures items == NoteConfirmed(n, role)
  {
    items := [];
    if CanView(role, n) && n.author == Clinician {
      var isPlan := Contains(Lower(n.content), "plan") || Contains(Lower(n.content), "decision");
      if isPlan || n.kind == ClinicianNote {
        items := items + [ConfirmedItem(n.id, "Decision: " + Prefix(n.content, 50) + "...", n.id, Decision)];
      }
      if n.history != [] && n.history[0].author == Ai {
        items := items + [ConfirmedItem(n.id + "_mod", "Modified AI Consult", n.id, Modification)];
      }
    }
  }

  /** One note's share of the pass: the note with its highlights tagged when
      the role sees it, and its key signals, shown actions, confirmed items
      and AI-scribed entry. */
  method VisitNote(n: Note, role: string, age: string -> Option<int>)
    returns (stored: Note, kept: seq<Highlight>, shown: seq<Action>,
             items: seq<ConfirmedItem>, entries: seq<ScribedEntry>)
    ensures stored == WeighedNote(n, role, age)
    ensures kept == NoteSignals(n, role, age)
    ensures shown == ShownActions(n.actions, role)
    ensures items == NoteConfirmed(n, role)
    ensures entries == NoteScribed(n, role)
  {
    stored, kept, entries := n, [], [];
    var canView := CanView(role, n);
    if canView && StartsWith(n.kind, "ai_") {
      entries := [ScribedEntry(n.id, Humanize(n.kind), Summary(n.content), n.timestamp, n.author)];
    }
    if canView {
      var w := DecayWeight(age(n.timestamp));
      var hs;
      hs, kept := WeighHighlights(n, w);
      stored := n.(highlights := hs);
    }
    shown := SelectActions(n.actions, role);
    items := ConfirmItems(n, role);
  }

  /** The pass over the timeline: each note the role sees gets its highlights
      tagged, and the key signals, shown actions, confirmed items and AI-scribed
      entries are collected in timeline order. */
  method Gather(ns: seq<Note>, role: string, age: string -> Option<int>)
    returns (weighed: seq<Note>, signals: seq<Highlight>, actions: seq<Action>,
             confirmed: seq<ConfirmedItem>, scribed: seq<ScribedEntry>)
    ensures weighed == Weighed(ns, role, age)
    ensures signals == Signals(ns, role, age)
    ensures actions == TimelineActions(ns, role)
    ensures confirmed == Confirmed(ns, role)
    ensures scribed == Scribed(ns, role)
  {
    weighed, signals, actions, confirmed, scribed := ns, [], [], [], [];
    var i := 0;
    while i < |ns|
      invariant 0 <= i <= |ns|
      invariant |weighed| == |ns|
      invariant forall k :: 0 <= k < i ==> weighed[k] == WeighedNote(ns[k], role, age)
      invariant signals == Signals(ns[..i], role, age)
      invariant actions == TimelineActions(ns[..i], role)
      invariant confirmed == Confirmed(ns[..i], role)
      invariant scribed == Scribed(ns[..i], role)
    {
      GlanceStep(ns, i, role, age);
      var stored, kept, shown, items, entries := VisitNote(ns[i], role, age);
      weighed := weighed[i := stored];
      signals := signals + kept;
      actions := actions + shown;
      confirmed := confirmed + items;
      scribed := scribed + entries;
      i := i + 1;
    }
    assert ns[..i] == ns;
  }
}
