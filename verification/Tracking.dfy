/** The slot table against the kernel's "Multi-touch (MT) Protocol", type B.

    The kernel keeps one contact per slot and a slot cursor that only ABS_MT_SLOT
    moves.  The recorder keeps a copy, but with two rules of its own: it takes a new
    contact only while `slot_flag` is up, and it sends its cursor back to slot 0 when
    the last contact lifts.  This module proves exactly on which legal streams the
    copy, its count alone, and the ends of gestures are right. */
module Tracking {
  import opened Words
  import opened Recorder
  import opened Session

  /** Protocol B: the slot cursor and the contact of every used slot. */
  datatype Kernel = Kernel(cursor: u32, live: map<u32, u32>)

  const IDLE := Kernel(0, map[])

  function KernelStep(k: Kernel, e: InputEvent): Kernel {
    if IsSlot(e) then k.(cursor := e.value)
    else if IsContact(e) then k.(live := k.live[k.cursor := e.value])
    else if IsLift(e) then k.(live := k.live - {k.cursor})
    else k
  }

  function KernelRun(es: seq<InputEvent>): Kernel {
    if es == [] then IDLE else KernelStep(KernelRun(es[..|es| - 1]), es[|es| - 1])
  }

  /** Some devices send the id of the current contact again. */
  predicate IsRepeat(k: Kernel, e: InputEvent) {
    IsContact(e) && k.cursor in k.live && k.live[k.cursor] == e.value
  }

  predicate IsNewContact(k: Kernel, e: InputEvent) {
    IsContact(e) && k.cursor !in k.live && e.value !in k.live.Values
  }

  /** A new contact may take the slot of another, which is then gone without a lift. */
  predicate IsReplacement(k: Kernel, e: InputEvent) {
    IsContact(e) && k.cursor in k.live && e.value !in k.live.Values
  }

  /** What protocol B lets a driver send next. */
  predicate LegalEvent(k: Kernel, e: InputEvent) {
    && (IsSlot(e) ==> e.value < ID_MAP_SIZE)
    && (IsContact(e) ==> IsRepeat(k, e) || IsNewContact(k, e) || IsReplacement(k, e))
    && (IsLift(e) ==> k.cursor in k.live)
  }

  predicate Legal(es: seq<InputEvent>) {
    es == [] || (Legal(es[..|es| - 1]) && LegalEvent(KernelRun(es[..|es| - 1]), es[|es| - 1]))
  }

  /** Two facts about the stream so far.
      `armed`: an ABS_MT_SLOT, or the lift of the last contact, came after the last
      contact id that was due.  `placed`: an ABS_MT_SLOT came after the last contact
      lifted, or the kernel's cursor stood at slot 0 then. */
  datatype Window = Window(armed: bool, placed: bool)

  function WindowStep(w: Window, k: Kernel, e: InputEvent): Window {
    if IsSlot(e) then Window(true, true)
    else if IsContact(e) then w.(armed := false)
    else if IsLift(e) && k.live.Keys <= {k.cursor} then Window(true, k.cursor == 0)
    else w
  }

  function WindowRun(es: seq<InputEvent>): Window {
    if es == [] then Window(true, true)
    else WindowStep(WindowRun(es[..|es| - 1]), KernelRun(es[..|es| - 1]), es[|es| - 1])
  }

  /** A contact id for a free slot is due when the stream has named a slot since the last
      contact id, or all contacts have lifted; one for an occupied slot when neither is so. */
  predicate PromptEvent(w: Window, k: Kernel, e: InputEvent) {
    IsContact(e) ==> (w.armed <==> k.cursor !in k.live)
  }

  predicate Prompt(es: seq<InputEvent>) {
    es == [] ||
    (var pre := es[..|es| - 1];
     Prompt(pre) && PromptEvent(WindowRun(pre), KernelRun(pre), es[|es| - 1]))
  }

  /** Due, no replacement, and where the recorder's cursor expects it. */
  predicate TimelyEvent(w: Window, k: Kernel, e: InputEvent) {
    && PromptEvent(w, k, e)
    && !IsReplacement(k, e)
    && (IsContact(e) && k.cursor !in k.live ==> w.placed)
  }

  predicate Timely(es: seq<InputEvent>) {
    es == [] ||
    (var pre := es[..|es| - 1];
     Timely(pre) && TimelyEvent(WindowRun(pre), KernelRun(pre), es[|es| - 1]))
  }

  /** How far contact ids that were not due have driven the recorder's count from the number
      of contacts: up where one was taken for an occupied slot, down where one for a free
      slot was dropped. */
  function DriftStep(d: int, w: Window, k: Kernel, e: InputEvent): int {
    if IsContact(e) && k.cursor in k.live && w.armed then d + 1
    else if IsContact(e) && k.cursor !in k.live && !w.armed then d - 1
    else d
  }

  function Drift(es: seq<InputEvent>): int {
    if es == [] then 0
    else
      var pre := es[..|es| - 1];
      DriftStep(Drift(pre), WindowRun(pre), KernelRun(pre), es[|es| - 1])
  }

  /** A lift is the recorder's last one exactly when it is the kernel's. */
  predicate SteadyEvent(d: int, k: Kernel, e: InputEvent) {
    IsLift(e) ==> (|k.live| + d == 1 <==> |k.live| == 1)
  }

  predicate Steady(es: seq<InputEvent>) {
    es == [] ||
    (var pre := es[..|es| - 1];
     Steady(pre) && SteadyEvent(Drift(pre), KernelRun(pre), es[|es| - 1]))
  }

  /** The recorder's copy is right: every slot shows the kernel's contact, and the
      counter is the number of contacts. */
  predicate InSync(s: State, k: Kernel)
    requires WellFormed(s)
  {
    && (forall i: u32 :: i < ID_MAP_SIZE ==> s.table[i].value == if i in k.live then k.live[i] else MINUS_ONE)
    && s.count == |k.live|
  }

  predicate AlwaysInSync(es: seq<InputEvent>)
    requires BoundedSlots(es)
  {
    InSync(Recorded(es).st, KernelRun(es)) && (es == [] || AlwaysInSync(es[..|es| - 1]))
  }

  /** The counter is right after every event. */
  predicate AlwaysCounts(es: seq<InputEvent>)
    requires BoundedSlots(es)
  {
    Recorded(es).st.count == |KernelRun(es).live| && (es == [] || AlwaysCounts(es[..|es| - 1]))
  }

  predicate Counts(s: State, k: Kernel, w: Window) {
    s.count == |k.live| && s.flag == w.armed
  }

  predicate Tracks(s: State, k: Kernel, w: Window)
    requires WellFormed(s)
  {
    && InSync(s, k)
    && k.cursor < ID_MAP_SIZE
    && (forall i :: i in k.live ==> i < ID_MAP_SIZE && k.live[i] != MINUS_ONE)
    && s.flag == w.armed
    && (w.placed <==> s.cursor == k.cursor)
    && (k.live != map[] ==> w.placed)
  }

  /** The kernel's reading of an event: slots are 0 to 31, and -1 ends a contact. */
  lemma {:induction false} KernelReads(k: Kernel, t: Timeval, etype: u16, code: u16, v: u32)
    ensures KernelStep(k, InputEvent(t, 3, 0x2f, v)) == Kernel(v, k.live)
    ensures LegalEvent(k, InputEvent(t, 3, 0x2f, v)) <==> v < 32
    ensures v != 0xffff_ffff ==> KernelStep(k, InputEvent(t, 3, 0x39, v)) == Kernel(k.cursor, k.live[k.cursor := v])
    ensures KernelStep(k, InputEvent(t, 3, 0x39, 0xffff_ffff)) == Kernel(k.cursor, k.live - {k.cursor})
    ensures !(etype == 3 && code in {0x2f, 0x39}) ==>
              KernelStep(k, InputEvent(t, etype, code, v)) == k && LegalEvent(k, InputEvent(t, etype, code, v))
  {
  }

  lemma LegalIsBounded(es: seq<InputEvent>)
    requires Legal(es)
    ensures BoundedSlots(es)
  {
    if es != [] {
      LegalIsBounded(es[..|es| - 1]);
      assert es == es[..|es| - 1] + [es[|es| - 1]];
    }
  }

  lemma RemovedOne(m: map<u32, u32>, c: u32)
    requires c in m
    ensures |m - {c}| == |m| - 1
    ensures m.Keys <= {c} <==> m - {c} == map[]
  {
    assert (m - {c}).Keys == m.Keys - {c};
    assert |m.Keys - {c}| == |m.Keys| - 1;
    if m - {c} == map[] {
      assert (m - {c}).Keys == {};
    }
  }

  lemma AddedOne(m: map<u32, u32>, c: u32, v: u32)
    ensures |m[c := v]| == if c in m then |m| else |m| + 1
  {
    assert m[c := v].Keys == m.Keys + {c};
    if c in m { assert m.Keys + {c} == m.Keys; }
  }

  /** One legal event keeps the counter right exactly when it is due; and when it lifts a
      contact, it ends a packet exactly when that was the last one. */
  lemma {:induction false} EventCounts(s: State, k: Kernel, w: Window, e: InputEvent)
    requires WellFormed(s) && Counts(s, k, w) && LegalEvent(k, e)
    ensures var s', k' := Step(s, e).0, KernelStep(k, e);
            && (PromptEvent(w, k, e) ==> Counts(s', k', WindowStep(w, k, e)))
            && (s'.count == |k'.live| <==> PromptEvent(w, k, e))
    ensures IsLift(e) ==> (Step(s, e).1 == End <==> KernelStep(k, e).live == map[])
  {
    if IsLift(e) {
      RemovedOne(k.live, k.cursor);
      assert |k.live - {k.cursor}| == 0 <==> k.live - {k.cursor} == map[];
    } else if IsContact(e) {
      AddedOne(k.live, k.cursor, e.value);
    }
  }

  lemma {:induction false} PromptCounts(es: seq<InputEvent>)
    requires Legal(es) && Prompt(es)
    ensures BoundedSlots(es) && Counts(Recorded(es).st, KernelRun(es), WindowRun(es))
    ensures AlwaysCounts(es)
  {
    LegalIsBounded(es);
    if es != [] {
      var pre, e := es[..|es| - 1], es[|es| - 1];
      PromptCounts(pre);
      EventCounts(Recorded(pre).st, KernelRun(pre), WindowRun(pre), e);
    }
  }

  /** The exact condition for the counter: over a legal stream it equals the number of
      contacts after every event if and only if every contact id is due. */
  lemma {:induction false} CounterExact(es: seq<InputEvent>)
    requires Legal(es)
    ensures BoundedSlots(es) && (AlwaysCounts(es) <==> Prompt(es))
  {
    LegalIsBounded(es);
    if es != [] {
      var pre, e := es[..|es| - 1], es[|es| - 1];
      CounterExact(pre);
      if Prompt(pre) {
        PromptCounts(pre);
        EventCounts(Recorded(pre).st, KernelRun(pre), WindowRun(pre), e);
      }
    }
  }

  lemma {:induction false} LiftTracks(s: State, k: Kernel, w: Window, e: InputEvent)
    requires WellFormed(s) && Tracks(s, k, w) && IsLift(e) && k.cursor in k.live
    ensures Tracks(Step(s, e).0, KernelStep(k, e), WindowStep(w, k, e))
    ensures Step(s, e).1 == End <==> KernelStep(k, e).live == map[]
  {
    RemovedOne(k.live, k.cursor);
    assert |k.live - {k.cursor}| == 0 <==> k.live - {k.cursor} == map[];
  }

  lemma {:induction false} ContactTracks(s: State, k: Kernel, w: Window, e: InputEvent)
    requires WellFormed(s) && Tracks(s, k, w) && IsContact(e) && LegalEvent(k, e)
    ensures var s', k' := Step(s, e).0, KernelStep(k, e);
            if TimelyEvent(w, k, e) then Tracks(s', k', WindowStep(w, k, e)) else !InSync(s', k')
  {
    var s', k' := Step(s, e).0, KernelStep(k, e);
    AddedOne(k.live, k.cursor, e.value);
    if IsRepeat(k, e) {
      assert k'.live == k.live;
    } else if IsReplacement(k, e) {
      assert k.live[k.cursor] in k.live.Values;
      assert k'.live[k.cursor] == e.value;
      assert !s.flag ==> s'.table[k.cursor].value == k.live[k.cursor];
    } else {
      assert k'.live[k.cursor] == e.value;
      if !s.flag {
        assert s'.table[k.cursor].value == MINUS_ONE;
      } else if s.cursor != k.cursor {
        assert s'.table[k.cursor].value == MINUS_ONE;
      }
    }
  }

  /** One event keeps the copy right exactly when it is timely. */
  lemma {:induction false} EventTracks(s: State, k: Kernel, w: Window, e: InputEvent)
    requires WellFormed(s) && Tracks(s, k, w) && LegalEvent(k, e)
    ensures var s', k' := Step(s, e).0, KernelStep(k, e);
            && WellFormed(s')
            && (TimelyEvent(w, k, e) ==> Tracks(s', k', WindowStep(w, k, e)))
            && (InSync(s', k') <==> TimelyEvent(w, k, e))
  {
    if IsLift(e) {
      LiftTracks(s, k, w, e);
    } else if IsContact(e) {
      ContactTracks(s, k, w, e);
    }
  }

  lemma {:induction false} TimelyTracks(es: seq<InputEvent>)
    requires Legal(es) && Timely(es)
    ensures BoundedSlots(es) && Tracks(Recorded(es).st, KernelRun(es), WindowRun(es))
    ensures AlwaysInSync(es)
  {
    LegalIsBounded(es);
    if es != [] {
      var pre, e := es[..|es| - 1], es[|es| - 1];
      TimelyTracks(pre);
      EventTracks(Recorded(pre).st, KernelRun(pre), WindowRun(pre), e);
    }
  }

  /** The exact condition for the table: over a legal stream table and counter agree with
      the kernel after every event if and only if every contact id is due and placed. */
  lemma {:induction false} TrackingExact(es: seq<InputEvent>)
    requires Legal(es)
    ensures BoundedSlots(es) && (AlwaysInSync(es) <==> Timely(es))
  {
    LegalIsBounded(es);
    if es != [] {
      var pre, e := es[..|es| - 1], es[|es| - 1];
      TrackingExact(pre);
      if Timely(pre) {
        TimelyTracks(pre);
        EventTracks(Recorded(pre).st, KernelRun(pre), WindowRun(pre), e);
      }
    }
  }

  predicate Injective(m: map<u32, u32>) {
    forall i, j :: i in m && j in m && m[i] == m[j] ==> i == j
  }

  lemma ContactAdded(m: map<u32, u32>, c: u32, v: u32)
    requires Injective(m) && c !in m && v !in m.Values
    ensures Injective(m[c := v]) && m[c := v].Values == m.Values + {v}
  {
    var n := m[c := v];
    forall x | x in m.Values + {v}
      ensures x in n.Values
    {
      if x == v {
        assert n[c] == v;
      } else {
        var i :| i in m && m[i] == x;
        assert n[i] == x;
      }
    }
  }

  lemma ContactReplaced(m: map<u32, u32>, c: u32, v: u32)
    requires Injective(m) && v !in m.Values
    ensures Injective(m[c := v])
  {
  }

  lemma ContactRemoved(m: map<u32, u32>, c: u32)
    requires Injective(m) && c in m
    ensures Injective(m - {c}) && (m - {c}).Values == m.Values - {m[c]}
  {
    var n := m - {c};
    forall x | x in m.Values - {m[c]}
      ensures x in n.Values
    {
      var i :| i in m && m[i] == x;
      assert n[i] == x;
    }
  }

  /** A kernel state a legal stream can lead to. */
  predicate Sound(k: Kernel) {
    && k.cursor < ID_MAP_SIZE && Injective(k.live)
    && forall i :: i in k.live ==> i < ID_MAP_SIZE && k.live[i] != MINUS_ONE
  }

  lemma {:induction false} KernelSound(es: seq<InputEvent>)
    requires Legal(es)
    ensures Sound(KernelRun(es))
  {
    if es != [] {
      var k, e := KernelRun(es[..|es| - 1]), es[|es| - 1];
      KernelSound(es[..|es| - 1]);
      if IsNewContact(k, e) {
        ContactAdded(k.live, k.cursor, e.value);
      } else if IsLift(e) {
        ContactRemoved(k.live, k.cursor);
      } else if IsReplacement(k, e) {
        ContactReplaced(k.live, k.cursor, e.value);
      } else if IsContact(e) {
        assert k.live[k.cursor := e.value] == k.live;
      }
    }
  }

  /** Wherever every contact so far was due, the counter is within the table. */
  lemma {:induction false} CounterWithinTable(es: seq<InputEvent>)
    requires Legal(es) && Prompt(es)
    ensures BoundedSlots(es) && 0 <= Recorded(es).st.count <= ID_MAP_SIZE
  {
    PromptCounts(es);
    KernelSound(es);
    CountWithinTable(KernelRun(es).live.Keys, ID_MAP_SIZE);
  }

  lemma {:induction false} CountWithinTable(s: set<u32>, n: nat)
    requires forall i :: i in s ==> i < n
    ensures |s| <= n
  {
    if n > 0 {
      var t := set i | i in s && i < n - 1;
      CountWithinTable(t, n - 1);
      assert s <= t + {n - 1};
      SubsetSize(s, t + {n - 1});
    } else {
      assert s == {};
    }
  }

  lemma {:induction false} SubsetSize(a: set<int>, b: set<int>)
    requires a <= b
    ensures |a| <= |b|
  {
    assert b == a + (b - a) && |b| == |a| + |b - a|;
  }

  // --------------------------------------------------------------- gesture ends

  /** The event takes the last contact away. */
  predicate Empties(k: Kernel, e: InputEvent) {
    k.live != map[] && KernelStep(k, e).live == map[]
  }

  /** Every touch event so far ended a packet exactly when it took the last contact away. */
  predicate EndsRight(es: seq<InputEvent>)
    requires BoundedSlots(es)
  {
    es == [] ||
    (var pre, e := es[..|es| - 1], es[|es| - 1];
     && EndsRight(pre)
     && (e.etype == EV_ABS ==> (Step(Recorded(pre).st, e).1 == End <==> Empties(KernelRun(pre), e))))
  }

  /** The recorder's count while it drifts. */
  predicate Drifts(s: State, k: Kernel, w: Window, d: int) {
    && s.count == |k.live| + d && s.flag == w.armed
    && (if k.live == map[] then s.count == 0 && w.armed else s.count > 0)
  }

  /** A touch event ends a packet rightly exactly when it is steady, and a steady one keeps
      track of the drift. */
  lemma {:induction false} EventDrifts(s: State, k: Kernel, w: Window, d: int, e: InputEvent)
    requires WellFormed(s) && Drifts(s, k, w, d) && LegalEvent(k, e)
    ensures SteadyEvent(d, k, e) ==>
              Drifts(Step(s, e).0, KernelStep(k, e), WindowStep(w, k, e), DriftStep(d, w, k, e))
    ensures e.etype == EV_ABS ==> ((Step(s, e).1 == End <==> Empties(k, e)) <==> SteadyEvent(d, k, e))
  {
    if IsLift(e) {
      RemovedOne(k.live, k.cursor);
      assert |k.live - {k.cursor}| == 0 <==> k.live - {k.cursor} == map[];
    } else if IsContact(e) {
      AddedOne(k.live, k.cursor, e.value);
      assert k.cursor in KernelStep(k, e).live;
    }
  }

  /** On a steady stream the count is 0 exactly when no contact is down, and never less. */
  lemma {:induction false} SteadyDrifts(es: seq<InputEvent>)
    requires Legal(es) && Steady(es)
    ensures BoundedSlots(es) && Drifts(Recorded(es).st, KernelRun(es), WindowRun(es), Drift(es))
  {
    LegalIsBounded(es);
    if es != [] {
      var pre, e := es[..|es| - 1], es[|es| - 1];
      SteadyDrifts(pre);
      EventDrifts(Recorded(pre).st, KernelRun(pre), WindowRun(pre), Drift(pre), e);
    }
  }

  /** The exact condition for gesture ends: over a legal stream every touch event ends a
      packet exactly when it takes the last contact away, if and only if the stream is
      steady. */
  lemma {:induction false} GestureEndsWithLastContact(es: seq<InputEvent>)
    requires Legal(es)
    ensures BoundedSlots(es) && (EndsRight(es) <==> Steady(es))
  {
    LegalIsBounded(es);
    if es != [] {
      var pre, e := es[..|es| - 1], es[|es| - 1];
      GestureEndsWithLastContact(pre);
      if Steady(pre) {
        SteadyDrifts(pre);
        EventDrifts(Recorded(pre).st, KernelRun(pre), WindowRun(pre), Drift(pre), e);
      }
    }
  }

  /** Without drift nothing is unsteady. */
  lemma {:induction false} PromptIsSteady(es: seq<InputEvent>)
    requires Prompt(es)
    ensures Steady(es) && Drift(es) == 0
  {
    if es != [] {
      PromptIsSteady(es[..|es| - 1]);
    }
  }
}
