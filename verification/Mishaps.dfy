/** Legal protocol-B streams the recorder gets wrong, step by step, and two it gets right in
    the end with a wrong table or a wrong count on the way. */
module Mishaps {
  import opened Words
  import opened Recorder
  import opened Session
  import opened Tracking
  import opened Recording
  import opened Account
  import opened Fidelity
  import opened Replay

  const T0 := Timeval(0, 0)

  function Slot(n: u32): InputEvent {
    InputEvent(T0, EV_ABS, ABS_MT_SLOT, n)
  }

  function Contact(id: u32): InputEvent {
    InputEvent(T0, EV_ABS, ABS_MT_TRACKING_ID, id)
  }

  function LiftEvent(): InputEvent {
    InputEvent(T0, EV_ABS, ABS_MT_TRACKING_ID, MINUS_ONE)
  }

  lemma Snoc(es: seq<InputEvent>, e: InputEvent)
    ensures KernelRun(es + [e]) == KernelStep(KernelRun(es), e)
    ensures WindowRun(es + [e]) == WindowStep(WindowRun(es), KernelRun(es), e)
    ensures Legal(es + [e]) <==> Legal(es) && LegalEvent(KernelRun(es), e)
    ensures Timely(es + [e]) <==> Timely(es) && TimelyEvent(WindowRun(es), KernelRun(es), e)
    ensures Prompt(es + [e]) <==> Prompt(es) && PromptEvent(WindowRun(es), KernelRun(es), e)
    ensures Drift(es + [e]) == DriftStep(Drift(es), WindowRun(es), KernelRun(es), e)
    ensures Steady(es + [e]) <==> Steady(es) && SteadyEvent(Drift(es), KernelRun(es), e)
    ensures BoundedSlots(es + [e]) <==> BoundedSlots(es) && (IsSlot(e) ==> e.value < ID_MAP_SIZE)
    ensures BoundedSlots(es + [e]) ==> Recorded(es + [e]) == Deliver(Recorded(es), e)
  {
    assert (es + [e])[..|es|] == es;
    if BoundedSlots(es + [e]) {
      assert forall x :: x in es ==> x in es + [e];
      assert e in es + [e];
    }
  }

  /** A lift with others down leaves the flag down. */
  lemma {:induction false} LiftOfOne(es: seq<InputEvent>)
    requires Legal(es) && Timely(es) && |KernelRun(es).live| >= 2
    requires KernelRun(es).cursor in KernelRun(es).live && !WindowRun(es).armed
    ensures var all, k := es + [LiftEvent()], KernelRun(es);
            && Legal(all) && BoundedSlots(all) && k.cursor < ID_MAP_SIZE
            && KernelRun(all) == k.(live := k.live - {k.cursor}) && |KernelRun(all).live| == |k.live| - 1
            && !WindowRun(all).armed && !Recorded(all).st.flag
            && Recorded(all).st.count == |KernelRun(all).live|
            && Recorded(all).st.table[k.cursor].value == MINUS_ONE
  {
    TimelyTracks(es);
    Snoc(es, LiftEvent());
    RemovedOne(KernelRun(es).live, KernelRun(es).cursor);
  }

  /** Whatever came before: a finger that lifts while another stays down, and comes back
      in the same slot before the driver names a slot again, is not recorded. */
  lemma {:induction false} ReplacedFingerIsLost(es: seq<InputEvent>, id: u32)
    requires Legal(es) && Timely(es) && |KernelRun(es).live| >= 2
    requires KernelRun(es).cursor in KernelRun(es).live && !WindowRun(es).armed
    requires id != MINUS_ONE && id !in KernelRun(es).live.Values
    ensures var all := es + [LiftEvent()] + [Contact(id)];
            && Legal(all) && !Timely(all) && BoundedSlots(all) && KernelRun(es).cursor < ID_MAP_SIZE
            && KernelRun(all).live[KernelRun(es).cursor] == id
            && Recorded(all).st.count == |KernelRun(all).live| - 1
            && Recorded(all).st.table[KernelRun(es).cursor].value == MINUS_ONE
  {
    LiftOfOne(es);
    var k := KernelRun(es);
    Snoc(es + [LiftEvent()], Contact(id));
    AddedOne(k.live - {k.cursor}, k.cursor, id);
    assert forall v :: v in (k.live - {k.cursor}).Values ==> v in k.live.Values;
  }

  /** Where a legal stream stands: the kernel, the window, the drift, the packets. */
  predicate Stands(es: seq<InputEvent>, k: Kernel, w: Window, d: int, packets: nat) {
    && Legal(es) && BoundedSlots(es)
    && KernelRun(es) == k && WindowRun(es) == w && Drift(es) == d
    && |Recorded(es).packets| == packets
    && Recorded(es).st.count == |k.live| + d && Recorded(es).st.flag == w.armed
  }

  lemma {:induction false} NameSlot(es: seq<InputEvent>, n: u32, k: Kernel, w: Window, d: int, packets: nat)
    requires Stands(es, k, w, d, packets) && n < ID_MAP_SIZE
    ensures Stands(es + [Slot(n)], k.(cursor := n), Window(true, true), d, packets)
  {
    Snoc(es, Slot(n));
  }

  lemma {:induction false} PutDown(es: seq<InputEvent>, id: u32, k: Kernel, w: Window, d: int, packets: nat)
    requires Stands(es, k, w, d, packets) && LegalEvent(k, Contact(id)) && id != MINUS_ONE
    ensures Stands(es + [Contact(id)], k.(live := k.live[k.cursor := id]), w.(armed := false),
                   DriftStep(d, w, k, Contact(id)), packets)
  {
    Snoc(es, Contact(id));
    AddedOne(k.live, k.cursor, id);
  }

  /** A steady lift. */
  lemma {:induction false} LiftUp(es: seq<InputEvent>, k: Kernel, w: Window, d: int, packets: nat)
    requires Stands(es, k, w, d, packets) && k.cursor in k.live && (|k.live| + d == 1 ==> d == 0)
    requires |k.live| == 1 ==> d == 0
    ensures Stands(es + [LiftEvent()], k.(live := k.live - {k.cursor}), WindowStep(w, k, LiftEvent()), d,
                   if |k.live| == 1 then packets + 1 else packets)
  {
    Snoc(es, LiftEvent());
    RemovedOne(k.live, k.cursor);
    assert |k.live - {k.cursor}| == 0 <==> k.live - {k.cursor} == map[];
  }

  const ONE_DOWN := [] + [Contact(5)] + [Slot(1)]
  const TWO_DOWN := ONE_DOWN + [Contact(6)]

  lemma {:induction false} TwoFingers()
    ensures Stands(TWO_DOWN, Kernel(1, map[0 := 5, 1 := 6]), Window(false, true), 0, 0)
    ensures Prompt(TWO_DOWN) && Timely(TWO_DOWN) && Steady(TWO_DOWN)
  {
    PutDown([], 5, IDLE, Window(true, true), 0, 0);
    Snoc([], Contact(5));
    NameSlot([] + [Contact(5)], 1, Kernel(0, map[0 := 5]), Window(false, true), 0, 0);
    Snoc([] + [Contact(5)], Slot(1));
    PutDown(ONE_DOWN, 6, Kernel(1, map[0 := 5]), Window(true, true), 0, 0);
    Snoc(ONE_DOWN, Contact(6));
  }

  const ONE_LEFT := TWO_DOWN + [LiftEvent()]
  const PUT_BACK := ONE_LEFT + [Contact(7)]

  /** The second finger lifted and put back: its contact id is dropped. */
  lemma {:induction false} PutBack()
    ensures Stands(PUT_BACK, Kernel(1, map[0 := 5, 1 := 7]), Window(false, true), -1, 0)
    ensures !Prompt(PUT_BACK) && !Timely(PUT_BACK) && Steady(PUT_BACK)
  {
    TwoFingers();
    var k := Kernel(1, map[0 := 5, 1 := 6]);
    LiftUp(TWO_DOWN, k, Window(false, true), 0, 0);
    Snoc(TWO_DOWN, LiftEvent());
    assert k.live - {1} == map[0 := 5];
    PutDown(ONE_LEFT, 7, Kernel(1, map[0 := 5]), Window(false, true), 0, 0);
    Snoc(ONE_LEFT, Contact(7));
  }

  /** Two fingers, the second lifted and put back: its next lift ends the gesture while
      the first finger is still down. */
  lemma {:induction false} GestureCutShort()
    ensures var es := [Contact(5), Slot(1), Contact(6), LiftEvent(), Contact(7), LiftEvent()];
            && Legal(es) && BoundedSlots(es) && !Timely(es) && !Steady(es)
            && KernelRun(es).live == map[0 := 5]
            && |Recorded(es).packets| == 1 && !AlwaysInSync(es)
  {
    PutBack();
    Snoc(PUT_BACK, LiftEvent());
    var es := [Contact(5), Slot(1), Contact(6), LiftEvent(), Contact(7), LiftEvent()];
    assert es == PUT_BACK + [LiftEvent()];
    assert KernelRun(es).live == map[0 := 5];
    TrackingExact(es);
  }

  const MADE_UP := PUT_BACK + [Slot(1)] + [Contact(7)]

  lemma {:induction false} MadeUp()
    ensures Stands(MADE_UP, Kernel(1, map[0 := 5, 1 := 7]), Window(false, true), 0, 0)
    ensures !Prompt(MADE_UP) && Steady(MADE_UP)
  {
    PutBack();
    var k := Kernel(1, map[0 := 5, 1 := 7]);
    NameSlot(PUT_BACK, 1, k, Window(false, true), -1, 0);
    Snoc(PUT_BACK, Slot(1));
    PutDown(PUT_BACK + [Slot(1)], 7, k, Window(true, true), -1, 0);
    Snoc(PUT_BACK + [Slot(1)], Contact(7));
    assert k.live[1 := 7] == k.live;
  }

  const LIFTED := MADE_UP + [LiftEvent()] + [Slot(0)]

  lemma {:induction false} FirstFingerLeft()
    ensures Stands(LIFTED, Kernel(0, map[0 := 5]), Window(true, true), 0, 0) && !Prompt(LIFTED) && Steady(LIFTED)
  {
    MadeUp();
    var k := Kernel(1, map[0 := 5, 1 := 7]);
    LiftUp(MADE_UP, k, Window(false, true), 0, 0);
    Snoc(MADE_UP, LiftEvent());
    assert k.live - {1} == map[0 := 5];
    NameSlot(MADE_UP + [LiftEvent()], 0, Kernel(1, map[0 := 5]), Window(false, true), 0, 0);
    Snoc(MADE_UP + [LiftEvent()], Slot(0));
  }

  /** A driver that repeats the id of the finger put back, after naming its slot, makes up for
      the contact that was dropped: the count is wrong for a while, the gesture ends right. */
  lemma {:induction false} RepeatMakesUp()
    ensures LIFTED == [Contact(5), Slot(1), Contact(6), LiftEvent(), Contact(7), Slot(1), Contact(7),
                       LiftEvent(), Slot(0)]
    ensures var es := LIFTED + [LiftEvent()];
            && Legal(es) && BoundedSlots(es) && !Prompt(es) && Steady(es)
            && KernelRun(es).live == map[] && |Recorded(es).packets| == 1
  {
    FirstFingerLeft();
    LiftUp(LIFTED, Kernel(0, map[0 := 5]), Window(true, true), 0, 0);
    Snoc(LIFTED, LiftEvent());
    assert map[0 := 5] - {0} == map[];
  }

  lemma SnocTruthful(es: seq<InputEvent>, e: InputEvent)
    ensures StrayRun(es + [e]) == StrayStep(StrayRun(es), WindowRun(es), KernelRun(es), e)
    ensures Truthful(es + [e]) <==>
            Truthful(es) && TruthfulEvent(StrayRun(es), WindowRun(es), KernelRun(es), Drift(es), e)
  {
    assert (es + [e])[..|es|] == es;
  }

  const ONE_TOUCH := [Slot(1), Contact(5), LiftEvent()]

  lemma {:induction false} OneTouch()
    ensures Legal(ONE_TOUCH) && BoundedSlots(ONE_TOUCH) && Truthful(ONE_TOUCH)
    ensures KernelRun(ONE_TOUCH) == Kernel(1, map[]) && WindowRun(ONE_TOUCH) == Window(true, false)
    ensures StrayRun(ONE_TOUCH) == STRAIGHT && Drift(ONE_TOUCH) == 0
    ensures var o := Recorded(ONE_TOUCH);
            |o.packets| == 1 && o.st == INITIAL.(etype := EV_ABS)
  {
    assert ONE_TOUCH == [] + [Slot(1)] + [Contact(5)] + [LiftEvent()];
    Snoc([], Slot(1));
    SnocTruthful([], Slot(1));
    Snoc([] + [Slot(1)], Contact(5));
    SnocTruthful([] + [Slot(1)], Contact(5));
    Snoc([] + [Slot(1)] + [Contact(5)], LiftEvent());
    SnocTruthful([] + [Slot(1)] + [Contact(5)], LiftEvent());
  }

  /** After all contacts lift the kernel's cursor stays put but the recorder's goes to
      slot 0: a touch in the kernel's old slot is booked under slot 0. */
  lemma {:induction false} TouchInTheWrongSlot()
    ensures var es := [Slot(1), Contact(5), LiftEvent(), Contact(6)];
            && Legal(es) && BoundedSlots(es) && !Timely(es)
            && KernelRun(es).live == map[1 := 6]
            && Recorded(es).st.table[0].value == 6 && Recorded(es).st.table[1].value == MINUS_ONE
            && !AlwaysInSync(es)
  {
    var es := [Slot(1), Contact(5), LiftEvent(), Contact(6)];
    assert es == ONE_TOUCH + [Contact(6)];
    OneTouch();
    Snoc(ONE_TOUCH, Contact(6));
    TrackingExact(es);
  }

  /** Such a touch does no harm while the stream does not come back to it after naming a
      slot: the table is wrong, the record and the gesture ends are right. */
  lemma {:induction false} WrongSlotRightRecord()
    ensures var es := [Slot(1), Contact(5), LiftEvent(), Contact(6), LiftEvent()];
            && Legal(es) && BoundedSlots(es) && !AlwaysInSync(es) && Truthful(es)
            && AlwaysRecords(es) && |Recorded(es).packets| == 2
  {
    var two := [Slot(1), Contact(5), LiftEvent(), Contact(6)];
    var es := [Slot(1), Contact(5), LiftEvent(), Contact(6), LiftEvent()];
    assert two == ONE_TOUCH + [Contact(6)] && es == two + [LiftEvent()] && es[..4] == two;
    TouchInTheWrongSlot();
    OneTouch();
    Snoc(ONE_TOUCH, Contact(6));
    SnocTruthful(ONE_TOUCH, Contact(6));
    Snoc(two, LiftEvent());
    SnocTruthful(two, LiftEvent());
    AccountExact(es);
  }

  const TAKEN := [] + [Contact(5)] + [Slot(0)] + [Contact(6)]

  /** A contact that takes another's slot right after the slot is named is counted on top of
      it: all contacts lift, and the gesture does not end. */
  lemma {:induction false} ReplacementHangs()
    ensures var es := [Contact(5), Slot(0), Contact(6), LiftEvent()];
            && Legal(es) && BoundedSlots(es) && !Steady(es)
            && KernelRun(es).live == map[] && Recorded(es).packets == [] && Recorded(es).st.count == 1
  {
    PutDown([], 5, IDLE, Window(true, true), 0, 0);
    NameSlot([] + [Contact(5)], 0, Kernel(0, map[0 := 5]), Window(false, true), 0, 0);
    PutDown([] + [Contact(5)] + [Slot(0)], 6, Kernel(0, map[0 := 5]), Window(true, true), 0, 0);
    assert map[0 := 5][0 := 6] == map[0 := 6];
    Snoc(TAKEN, LiftEvent());
    var es := [Contact(5), Slot(0), Contact(6), LiftEvent()];
    assert es == TAKEN + [LiftEvent()];
  }

  const BOTH_UP := TWO_DOWN + [LiftEvent()] + [Slot(0)] + [LiftEvent()]

  lemma {:induction false} BothUp()
    ensures Legal(BOTH_UP) && Timely(BOTH_UP) && BoundedSlots(BOTH_UP)
    ensures KernelRun(BOTH_UP).live == map[] && |Recorded(BOTH_UP).packets| == 1 && !Solo(BOTH_UP)
  {
    TwoFingers();
    var k, w := Kernel(1, map[0 := 5, 1 := 6]), Window(false, true);
    LiftUp(TWO_DOWN, k, w, 0, 0);
    Snoc(TWO_DOWN, LiftEvent());
    assert k.live - {1} == map[0 := 5];
    NameSlot(ONE_LEFT, 0, Kernel(1, map[0 := 5]), w, 0, 0);
    Snoc(ONE_LEFT, Slot(0));
    LiftUp(ONE_LEFT + [Slot(0)], Kernel(0, map[0 := 5]), Window(true, true), 0, 0);
    Snoc(ONE_LEFT + [Slot(0)], LiftEvent());
    assert map[0 := 5] - {0} == map[];
    SoloSnoc(TWO_DOWN, LiftEvent());
    SoloSnoc(ONE_LEFT, Slot(0));
    SoloSnoc(ONE_LEFT + [Slot(0)], LiftEvent());
  }

  lemma SoloSnoc(es: seq<InputEvent>, e: InputEvent)
    ensures Solo(es + [e]) ==> Solo(es)
  {
    assert (es + [e])[..|es|] == es;
  }

  /** A gesture of two fingers, recorded without a fault, does not replay as one: both go to
      slot 0, and the second lift finds no contact there. */
  lemma {:induction false} TwoFingersCollide()
    ensures Legal(BOTH_UP) && Timely(BOTH_UP) && BoundedSlots(BOTH_UP)
    ensures !Legal(Replayed(Recorded(BOTH_UP).packets))
  {
    BothUp();
    TimelyIsTruthful(BOTH_UP);
    ReplayLegalExactly(BOTH_UP);
  }
}
