/** The threads of main.cpp around the send queue, as interleaved steps.

    A run is any sequence of actions; an action moves one thread past one access to
    shared state, and leaves a blocked or finished thread where it is.  Queue
    operations, the running flag and the mode word are each touched atomically.
    Buffers are numbered as they are allocated. */
module Pipeline {
  const SEND_QUEUE_SIZE_MAX := 50
  const CAPTURE_SKIP_QUEUE_SIZE := 5

  type Buffer = nat

  /** `get_surface`: loop test, mode test, queue test, grab and build, push. */
  datatype CaptureAt = CTop | CMode | CCheck | CGrab | CPush(b: Buffer) | CDone

  /** `get_event`: `over` remembers that the queue test found the queue full. */
  datatype EventAt = ETop | EMode | ECheck | EStop | EGet(over: bool) | EPush(b: Buffer, over: bool) | EDone

  /** `get_surface_immediately`, one thread per request, by where the threads stand: about
      to test the mode, grabbing, holding a built packet, finished. */
  datatype Shots = Shots(starting: nat, grabbing: nat, holding: set<Buffer>, done: nat)

  /** `send_packet`. */
  datatype SenderAt = DTop | DPop | DSend(b: Buffer) | DFail(b: Buffer) | DFree(b: Buffer) | DDone

  /** `recv_packet`. */
  datatype ReceiverAt = RTop | RReceive | RDone

  /** `run` and the end of `main`: wait, join, then `send_queue.destroy`; and after the
      return from `main` the destructor of the queue, which drains it once more (`last`). */
  datatype MainAt =
    | MWait
    | MJoin
    | MEmptyTest(last: bool)
    | MPop(last: bool)
    | MFree(b: Buffer, last: bool)
    | MReturn
    | MDone

  datatype Message = CaptureStart | CaptureStop | CaptureImmediately | RecordStart | RecordStop | Terminate | Other

  datatype Action =
    | Capture(ok: bool)
    | Event(got: bool)
    | ShotStart
    | ShotGrab
    | ShotPush(b: Buffer)
    | Send(ok: bool)
    | Receive(m: Message)
    | Main

  /** The queue and the history of the buffers: those pushed, those popped, those sent
      without error and those freed, each in order, and the number pushed after the last
      drain had found the queue empty. */
  datatype Traffic = Traffic(
    queue: seq<Buffer>, pushed: seq<Buffer>, popped: seq<Buffer>, sent: seq<Buffer>, freed: seq<Buffer>, late: nat)

  /** Shared state, program counters, and the number of buffers allocated. */
  datatype State = State(
    running: bool, capturing: bool, recording: bool, io: Traffic, next: Buffer,
    cap: CaptureAt, ev: EventAt, shots: Shots, snd: SenderAt, rcv: ReceiverAt, main: MainAt)

  const START := State(
    true, false, false, Traffic([], [], [], [], [], 0), 0,
    CTop, ETop, Shots(0, 0, {}, 0), DTop, RTop, MWait)

  function Enqueue(s: State, b: Buffer): Traffic {
    s.io.(queue := s.io.queue + [b], pushed := s.io.pushed + [b],
          late := if s.main == MDone then s.io.late + 1 else s.io.late)
  }

  function Dequeue(s: State): Traffic
    requires s.io.queue != []
  {
    s.io.(queue := s.io.queue[1..], popped := s.io.popped + [s.io.queue[0]])
  }

  function CaptureStep(s: State, ok: bool): State {
    match s.cap
    case CTop => s.(cap := if s.running then CMode else CDone)
    case CMode => s.(cap := if s.capturing then CCheck else CTop)
    case CCheck => s.(cap := if |s.io.queue| > CAPTURE_SKIP_QUEUE_SIZE then CTop else CGrab)
    case CGrab => if ok then s.(cap := CPush(s.next), next := s.next + 1) else s.(cap := CTop)
    case CPush(b) => s.(io := Enqueue(s, b), cap := CTop)
    case CDone => s
  }

  function EventStep(s: State, got: bool): State {
    match s.ev
    case ETop => s.(ev := if s.running then EMode else EDone)
    case EMode => s.(ev := if s.recording then ECheck else ETop)
    case ECheck => s.(ev := if |s.io.queue| >= SEND_QUEUE_SIZE_MAX then EStop else EGet(false))
    case EStop => s.(running := false, ev := EGet(true))
    case EGet(over) => if got then s.(ev := EPush(s.next, over), next := s.next + 1) else s.(ev := ETop)
    case EPush(b, _) => s.(io := Enqueue(s, b), ev := ETop)
    case EDone => s
  }

  function ShotStartStep(s: State): State {
    var t := s.shots;
    if t.starting == 0 then s
    else if s.capturing then s.(shots := t.(starting := t.starting - 1, done := t.done + 1))
    else s.(shots := t.(starting := t.starting - 1, grabbing := t.grabbing + 1))
  }

  function ShotGrabStep(s: State): State {
    var t := s.shots;
    if t.grabbing == 0 then s
    else s.(shots := t.(grabbing := t.grabbing - 1, holding := t.holding + {s.next}), next := s.next + 1)
  }

  function ShotPushStep(s: State, b: Buffer): State {
    var t := s.shots;
    if b !in t.holding then s
    else s.(io := Enqueue(s, b), shots := t.(holding := t.holding - {b}, done := t.done + 1))
  }

  function SenderStep(s: State, ok: bool): State {
    match s.snd
    case DTop => s.(snd := if s.running then DPop else DDone)
    case DPop => if s.io.queue == [] then s.(snd := DTop) else s.(io := Dequeue(s), snd := DSend(s.io.queue[0]))
    case DSend(b) => if ok then s.(io := s.io.(sent := s.io.sent + [b]), snd := DFree(b)) else s.(snd := DFail(b))
    case DFail(b) => s.(running := false, snd := DFree(b))
    case DFree(b) => s.(io := s.io.(freed := s.io.freed + [b]), snd := DTop)
    case DDone => s
  }

  function ReceiverStep(s: State, m: Message): State {
    match s.rcv
    case RTop => s.(rcv := if s.running then RReceive else RDone)
    case RReceive =>
      var t := s.(rcv := RTop);
      (match m
       case CaptureStart => t.(capturing := true)
       case CaptureStop => t.(capturing := false)
       case CaptureImmediately => t.(shots := t.shots.(starting := t.shots.starting + 1))
       case RecordStart => t.(recording := true)
       case RecordStop => t.(recording := false)
       case Terminate => t.(running := false)
       case Other => t)
    case RDone => s
  }

  predicate Joined(s: State) {
    s.snd == DDone && s.rcv == RDone && s.cap == CDone && s.ev == EDone
  }

  function MainStep(s: State): State {
    match s.main
    case MWait => if s.running then s else s.(main := MJoin)
    case MJoin => if Joined(s) then s.(main := MEmptyTest(false)) else s
    case MEmptyTest(last) => s.(main := if s.io.queue != [] then MPop(last) else if last then MDone else MReturn)
    case MPop(last) =>
      if s.io.queue == [] then s.(main := MEmptyTest(last))
      else s.(io := Dequeue(s), main := MFree(s.io.queue[0], last))
    case MFree(b, last) => s.(io := s.io.(freed := s.io.freed + [b]), main := MEmptyTest(last))
    case MReturn => s.(main := MEmptyTest(true))
    case MDone => s
  }

  function Step(s: State, a: Action): State {
    match a
    case Capture(ok) => CaptureStep(s, ok)
    case Event(got) => EventStep(s, got)
    case ShotStart => ShotStartStep(s)
    case ShotGrab => ShotGrabStep(s)
    case ShotPush(b) => ShotPushStep(s, b)
    case Send(ok) => SenderStep(s, ok)
    case Receive(m) => ReceiverStep(s, m)
    case Main => MainStep(s)
  }

  function RunFrom(s: State, acts: seq<Action>): State {
    if acts == [] then s else Step(RunFrom(s, acts[..|acts| - 1]), acts[|acts| - 1])
  }

  function Run(acts: seq<Action>): State {
    RunFrom(START, acts)
  }

  // ------------------------------------------------------------ the queue bound

  /** How many one-shot captures have been requested. */
  function Requested(s: State): nat {
    s.shots.starting + s.shots.grabbing + |s.shots.holding| + s.shots.done
  }

  /** Packets that may still be pushed on the strength of a queue test already made. */
  function InFlight(s: State): nat {
    (if s.cap.CGrab? || s.cap.CPush? then 1 else 0) + (if s.ev.EStop? || s.ev.EGet? || s.ev.EPush? then 1 else 0)
  }

  /** The event thread has not yet found the queue full. */
  predicate BeforeLast(s: State) {
    match s.ev
    case ETop => s.running
    case EMode => true
    case ECheck => true
    case EGet(over) => !over
    case EPush(_, over) => !over
    case EStop => false
    case EDone => false
  }

  /** Counting finished one-shots as packets that may have slipped in behind a test. */
  predicate Bounded(s: State) {
    && |s.io.queue| + InFlight(s) <= (if BeforeLast(s) then 51 else 52) + s.shots.done
    && ((s.ev.EGet? || s.ev.EPush?) && s.ev.over ==> !s.running)
  }

  lemma {:induction false} CaptureBounded(s: State, ok: bool)
    requires Bounded(s)
    ensures Bounded(CaptureStep(s, ok))
  {
  }

  lemma {:induction false} EventBounded(s: State, got: bool)
    requires Bounded(s)
    ensures Bounded(EventStep(s, got))
  {
  }

  lemma {:induction false} SenderBounded(s: State, ok: bool)
    requires Bounded(s)
    ensures Bounded(SenderStep(s, ok))
  {
  }

  lemma {:induction false} MainBounded(s: State)
    requires Bounded(s)
    ensures Bounded(MainStep(s))
  {
  }

  lemma {:induction false} ShotBounded(s: State, b: Buffer)
    requires Bounded(s)
    ensures Bounded(ShotPushStep(s, b)) && Bounded(ShotStartStep(s)) && Bounded(ShotGrabStep(s))
  {
  }

  lemma {:induction false} ReceiverBounded(s: State, m: Message)
    requires Bounded(s)
    ensures Bounded(ReceiverStep(s, m))
  {
  }

  lemma {:induction false} StepBounded(s: State, a: Action)
    requires Bounded(s)
    ensures Bounded(Step(s, a))
  {
    match a {
      case Capture(ok) => CaptureBounded(s, ok);
      case Event(got) => EventBounded(s, got);
      case ShotStart => ShotBounded(s, 0);
      case ShotGrab => ShotBounded(s, 0);
      case ShotPush(b) => ShotBounded(s, b);
      case Send(ok) => SenderBounded(s, ok);
      case Receive(m) => ReceiverBounded(s, m);
      case Main => MainBounded(s);
    }
  }

  lemma {:induction false} RunBounded(acts: seq<Action>)
    ensures Bounded(Run(acts))
  {
    if acts == [] {
    } else {
      RunBounded(acts[..|acts| - 1]);
      StepBounded(Run(acts[..|acts| - 1]), acts[|acts| - 1]);
    }
  }

  /** Back-pressure: in every interleaving the queue holds at most 52 packets more than
      the number of one-shot captures requested. */
  lemma {:induction false} QueueBound(acts: seq<Action>)
    ensures |Run(acts).io.queue| <= 52 + Requested(Run(acts))
  {
    RunBounded(acts);
  }

  // -------------------------------------------------------- order and ownership

  /** The buffer a thread has popped and not yet freed. */
  function InHand(snd: SenderAt, main: MainAt): seq<Buffer> {
    match snd
    case DSend(b) => [b]
    case DFail(b) => [b]
    case DFree(b) => [b]
    case _ => if main.MFree? then [main.b] else []
  }

  predicate InOrder(io: Traffic, snd: SenderAt, main: MainAt, running: bool) {
    && io.pushed == io.popped + io.queue
    && io.popped == io.freed + InHand(snd, main)
    && io.sent <= io.popped
    && (snd.DSend? || snd.DFail? ==> io.popped == io.sent + [snd.b])
    && (snd.DPop? ==> io.popped == io.sent)
    && (snd.DTop? || snd.DFree? ==> running ==> io.popped == io.sent)
  }

  predicate Histories(s: State) {
    InOrder(s.io, s.snd, s.main, s.running)
  }

  predicate Phases(s: State) {
    && (s.snd == DDone ==> !s.running)
    && (s.main != MWait ==> !s.running)
    && (s.main != MWait && s.main != MJoin ==> Joined(s))
    && (if s.main == MDone then |s.io.queue| == s.io.late else s.io.late == 0)
  }

  /** Queueing one more buffer keeps the order, as does stopping the program. */
  lemma QueuedInOrder(io: Traffic, snd: SenderAt, main: MainAt, running: bool, b: Buffer, late: nat)
    requires InOrder(io, snd, main, running)
    ensures InOrder(io.(queue := io.queue + [b], pushed := io.pushed + [b], late := late), snd, main, running)
    ensures InOrder(io, snd, main, false)
  {
    assert io.popped + (io.queue + [b]) == io.pushed + [b];
  }

  lemma {:induction false} CaptureHistories(s: State, ok: bool)
    requires Histories(s)
    ensures Histories(CaptureStep(s, ok))
  {
    var t := CaptureStep(s, ok);
    assert t.snd == s.snd && t.main == s.main && t.running == s.running;
    if s.cap.CPush? {
      QueuedInOrder(s.io, s.snd, s.main, s.running, s.cap.b, t.io.late);
    } else {
      assert t.io == s.io;
    }
  }

  lemma {:induction false} EventHistories(s: State, got: bool)
    requires Histories(s)
    ensures Histories(EventStep(s, got))
  {
    var t := EventStep(s, got);
    assert t.snd == s.snd && t.main == s.main;
    if s.ev.EPush? {
      QueuedInOrder(s.io, s.snd, s.main, s.running, s.ev.b, t.io.late);
    } else {
      assert t.io == s.io;
      QueuedInOrder(s.io, s.snd, s.main, s.running, 0, 0);
    }
  }

  lemma {:induction false} SenderHistories(s: State, ok: bool)
    requires Histories(s) && Phases(s)
    ensures Histories(SenderStep(s, ok))
  {
    if s.snd == DPop && s.io.queue != [] {
      assert s.io.queue == [s.io.queue[0]] + s.io.queue[1..];
    }
  }

  lemma {:induction false} MainHistories(s: State)
    requires Histories(s) && Phases(s)
    ensures Histories(MainStep(s))
  {
    if s.main.MPop? && s.io.queue != [] {
      assert s.io.queue == [s.io.queue[0]] + s.io.queue[1..];
    }
  }

  lemma {:induction false} ReceiverHistories(s: State, m: Message)
    requires Histories(s)
    ensures Histories(ReceiverStep(s, m))
  {
  }

  lemma {:induction false} ShotHistories(s: State, b: Buffer)
    requires Histories(s)
    ensures Histories(ShotPushStep(s, b)) && Histories(ShotStartStep(s)) && Histories(ShotGrabStep(s))
  {
    var t := ShotPushStep(s, b);
    assert t.snd == s.snd && t.main == s.main && t.running == s.running;
    if b in s.shots.holding {
      QueuedInOrder(s.io, s.snd, s.main, s.running, b, t.io.late);
    }
  }

  lemma {:induction false} StepHistories(s: State, a: Action)
    requires Histories(s) && Phases(s)
    ensures Histories(Step(s, a))
  {
    match a {
      case Capture(ok) => CaptureHistories(s, ok);
      case Event(got) => EventHistories(s, got);
      case ShotStart => ShotHistories(s, 0);
      case ShotGrab => ShotHistories(s, 0);
      case ShotPush(b) => ShotHistories(s, b);
      case Send(ok) => SenderHistories(s, ok);
      case Receive(m) => ReceiverHistories(s, m);
      case Main => MainHistories(s);
    }
  }

  lemma {:induction false} CapturePhases(s: State, ok: bool)
    requires Phases(s)
    ensures Phases(CaptureStep(s, ok))
  {
  }

  lemma {:induction false} EventPhases(s: State, got: bool)
    requires Phases(s)
    ensures Phases(EventStep(s, got))
  {
  }

  lemma {:induction false} SenderPhases(s: State, ok: bool)
    requires Phases(s)
    ensures Phases(SenderStep(s, ok))
  {
  }

  lemma {:induction false} StepPhases(s: State, a: Action)
    requires Phases(s)
    ensures Phases(Step(s, a))
  {
    match a {
      case Capture(ok) => CapturePhases(s, ok);
      case Event(got) => EventPhases(s, got);
      case Send(ok) => SenderPhases(s, ok);
      case _ =>
    }
  }

  lemma {:induction false} RunOrdered(acts: seq<Action>)
    ensures Histories(Run(acts)) && Phases(Run(acts))
  {
    if acts == [] {
    } else {
      RunOrdered(acts[..|acts| - 1]);
      StepHistories(Run(acts[..|acts| - 1]), acts[|acts| - 1]);
      StepPhases(Run(acts[..|acts| - 1]), acts[|acts| - 1]);
    }
  }

  /** First in, first out, in every interleaving: what was popped, then what is queued, is
      what was pushed; and the packets sent without error are a prefix of that. */
  lemma {:induction false} Fifo(acts: seq<Action>)
    ensures var io := Run(acts).io; io.popped + io.queue == io.pushed && io.sent <= io.pushed
  {
    RunOrdered(acts);
    var io := Run(acts).io;
    assert io.sent <= io.popped <= io.pushed;
  }

  predicate NoDuplicates(bs: seq<Buffer>) {
    forall i, j :: 0 <= i < j < |bs| ==> bs[i] != bs[j]
  }

  /** An allocated buffer that has not been pushed. */
  predicate Unpushed(pushed: seq<Buffer>, next: Buffer, b: Buffer) {
    b < next && b !in pushed
  }

  /** Every allocated buffer has one owner: the queue's history or one thread. */
  predicate OneOwner(pushed: seq<Buffer>, next: Buffer, holding: set<Buffer>, cap: CaptureAt, ev: EventAt) {
    && NoDuplicates(pushed)
    && (forall b :: b in pushed ==> b < next)
    && (forall b :: b in holding ==> Unpushed(pushed, next, b))
    && (cap.CPush? ==> Unpushed(pushed, next, cap.b) && cap.b !in holding)
    && (ev.EPush? ==> Unpushed(pushed, next, ev.b) && ev.b !in holding)
    && (cap.CPush? && ev.EPush? ==> cap.b != ev.b)
  }

  predicate Owned(s: State) {
    OneOwner(s.io.pushed, s.next, s.shots.holding, s.cap, s.ev)
  }

  /** A buffer whose thread lets go of it may be queued. */
  lemma QueuedOnce(pushed: seq<Buffer>, next: Buffer, holding: set<Buffer>, cap: CaptureAt, ev: EventAt, b: Buffer)
    requires OneOwner(pushed, next, holding, cap, ev) && Unpushed(pushed, next, b)
    requires b !in holding && (cap.CPush? ==> cap.b != b) && (ev.EPush? ==> ev.b != b)
    ensures OneOwner(pushed + [b], next, holding, cap, ev)
  {
    assert forall x :: x in pushed + [b] <==> x in pushed || x == b;
  }

  /** The capture thread fills a new buffer, and lets go of it. */
  lemma CaptureFills(pushed: seq<Buffer>, next: Buffer, holding: set<Buffer>, ev: EventAt)
    requires OneOwner(pushed, next, holding, CTop, ev)
    ensures OneOwner(pushed, next + 1, holding, CPush(next), ev)
  {
  }

  lemma CaptureQueues(pushed: seq<Buffer>, next: Buffer, holding: set<Buffer>, b: Buffer, ev: EventAt)
    requires OneOwner(pushed, next, holding, CPush(b), ev)
    ensures OneOwner(pushed + [b], next, holding, CTop, ev)
  {
    QueuedOnce(pushed, next, holding, CTop, ev, b);
  }

  lemma {:induction false} CaptureOwned(s: State, ok: bool)
    requires Owned(s)
    ensures Owned(CaptureStep(s, ok))
  {
    var t := CaptureStep(s, ok);
    if s.cap.CPush? {
      CaptureQueues(s.io.pushed, s.next, s.shots.holding, s.cap.b, s.ev);
    } else {
      assert OneOwner(s.io.pushed, s.next, s.shots.holding, CTop, s.ev);
      CaptureFills(s.io.pushed, s.next, s.shots.holding, s.ev);
      assert t.io.pushed == s.io.pushed && t.shots == s.shots && t.ev == s.ev;
    }
  }

  /** The same for the event thread. */
  lemma EventFills(pushed: seq<Buffer>, next: Buffer, holding: set<Buffer>, cap: CaptureAt, over: bool)
    requires OneOwner(pushed, next, holding, cap, ETop)
    ensures OneOwner(pushed, next + 1, holding, cap, EPush(next, over))
  {
  }

  lemma EventQueues(pushed: seq<Buffer>, next: Buffer, holding: set<Buffer>, cap: CaptureAt, b: Buffer, over: bool)
    requires OneOwner(pushed, next, holding, cap, EPush(b, over))
    ensures OneOwner(pushed + [b], next, holding, cap, ETop)
  {
    QueuedOnce(pushed, next, holding, cap, ETop, b);
  }

  lemma {:induction false} EventOwned(s: State, got: bool)
    requires Owned(s)
    ensures Owned(EventStep(s, got))
  {
    var t := EventStep(s, got);
    if s.ev.EPush? {
      EventQueues(s.io.pushed, s.next, s.shots.holding, s.cap, s.ev.b, s.ev.over);
    } else {
      assert OneOwner(s.io.pushed, s.next, s.shots.holding, s.cap, ETop);
      EventFills(s.io.pushed, s.next, s.shots.holding, s.cap, s.ev.EGet? && s.ev.over);
      assert t.io.pushed == s.io.pushed && t.shots == s.shots && t.cap == s.cap;
    }
  }

  lemma {:induction false} ShotPushOwned(s: State, b: Buffer)
    requires Owned(s)
    ensures Owned(ShotPushStep(s, b))
  {
    if b in s.shots.holding {
      assert OneOwner(s.io.pushed, s.next, s.shots.holding - {b}, s.cap, s.ev);
      QueuedOnce(s.io.pushed, s.next, s.shots.holding - {b}, s.cap, s.ev, b);
    }
  }

  lemma {:induction false} ShotGrabOwned(s: State)
    requires Owned(s)
    ensures Owned(ShotGrabStep(s))
  {
  }

  lemma {:induction false} SenderOwned(s: State, ok: bool)
    requires Owned(s)
    ensures Owned(SenderStep(s, ok))
  {
  }

  lemma {:induction false} MainOwned(s: State)
    requires Owned(s)
    ensures Owned(MainStep(s))
  {
  }

  lemma {:induction false} StepOwned(s: State, a: Action)
    requires Owned(s)
    ensures Owned(Step(s, a))
  {
    match a {
      case Capture(ok) => CaptureOwned(s, ok);
      case Event(got) => EventOwned(s, got);
      case ShotGrab => ShotGrabOwned(s);
      case ShotPush(b) => ShotPushOwned(s, b);
      case Send(ok) => SenderOwned(s, ok);
      case Main => MainOwned(s);
      case _ =>
    }
  }

  lemma {:induction false} RunOwned(acts: seq<Action>)
    ensures Owned(Run(acts))
  {
    if acts == [] {
    } else {
      RunOwned(acts[..|acts| - 1]);
      StepOwned(Run(acts[..|acts| - 1]), acts[|acts| - 1]);
    }
  }

  /** No buffer is freed twice or before it was pushed; once the program is through, the
      buffers not freed are exactly those pushed after the last drain. */
  lemma {:induction false} FreedAtMostOnce(acts: seq<Action>)
    ensures var s := Run(acts);
            && NoDuplicates(s.io.freed) && s.io.freed <= s.io.pushed
            && (s.main == MDone ==> s.io.pushed == s.io.freed + s.io.queue && |s.io.queue| == s.io.late)
  {
    RunOrdered(acts);
    RunOwned(acts);
    var s := Run(acts);
    assert s.io.freed <= s.io.popped <= s.io.pushed;
    assert forall i :: 0 <= i < |s.io.freed| ==> s.io.freed[i] == s.io.pushed[i];
    if s.main == MDone {
      assert InHand(s.snd, s.main) == [];
    }
  }

  // ------------------------------------------------------------ the end of a run

  /** No one-shot thread can still come to push: none is grabbing or holding a packet, and
      any that has yet to test the mode will find the capture mode on. */
  predicate Settled(s: State) {
    s.shots.grabbing == 0 && s.shots.holding == {} && (s.shots.starting == 0 || s.capturing)
  }

  predicate Over(s: State) {
    s.main == MDone && Joined(s) && s.io.freed == s.io.pushed
  }

  lemma {:induction false} OverStays(s: State, more: seq<Action>)
    requires Over(s) && Settled(s)
    ensures Over(RunFrom(s, more)) && Settled(RunFrom(s, more))
  {
    if more != [] {
      OverStays(s, more[..|more| - 1]);
    }
  }

  lemma Steps(s: State, more: seq<Action>, a: Action)
    ensures RunFrom(s, more + [a]) == Step(RunFrom(s, more), a)
  {
    assert (more + [a])[..|more|] == more;
  }

  /** One more push, which nobody frees. */
  lemma {:induction false} PushAfterwards(s: State, more: seq<Action>)
    requires Over(RunFrom(s, more)) && RunFrom(s, more).shots.holding != {}
    ensures exists m :: RunFrom(s, m).io.freed != RunFrom(s, m).io.pushed
  {
    var b :| b in RunFrom(s, more).shots.holding;
    Steps(s, more, ShotPush(b));
    assert |RunFrom(s, more + [ShotPush(b)]).io.pushed| == |RunFrom(s, more + [ShotPush(b)]).io.freed| + 1;
  }

  lemma {:induction false} UnsettledLeaks(s: State)
    requires Over(s) && !Settled(s)
    ensures exists m :: RunFrom(s, m).io.freed != RunFrom(s, m).io.pushed
  {
    if s.shots.holding != {} {
      assert RunFrom(s, []) == s;
      PushAfterwards(s, []);
    } else if s.shots.grabbing > 0 {
      Steps(s, [], ShotGrab);
      assert s.next in RunFrom(s, [] + [ShotGrab]).shots.holding;
      PushAfterwards(s, [] + [ShotGrab]);
    } else {
      Steps(s, [], ShotStart);
      Steps(s, [] + [ShotStart], ShotGrab);
      assert s.next in RunFrom(s, [] + [ShotStart] + [ShotGrab]).shots.holding;
      PushAfterwards(s, [] + [ShotStart] + [ShotGrab]);
    }
  }

  /** The exact condition, read off the state in which the last empty test passes: however
      the run goes on, every pushed buffer has been freed, exactly once and in push order,
      if and only if no one-shot thread can still come to push. */
  lemma {:induction false} LastDrainExact(acts: seq<Action>)
    requires Run(acts).main == MEmptyTest(true) && Run(acts).io.queue == []
    ensures (forall more ::
               RunFrom(Step(Run(acts), Main), more).io.freed == RunFrom(Step(Run(acts), Main), more).io.pushed)
            <==> Settled(Run(acts))
  {
    RunOrdered(acts);
    var s := Step(Run(acts), Main);
    assert InHand(Run(acts).snd, Run(acts).main) == [] && Over(s);
    if Settled(s) {
      forall more
        ensures RunFrom(s, more).io.freed == RunFrom(s, more).io.pushed
      {
        OverStays(s, more);
      }
    } else {
      UnsettledLeaks(s);
    }
  }

  // ----------------------------------------------------------- how tight, and a leak

  lemma Do(acts: seq<Action>, a: Action) returns (r: seq<Action>)
    ensures Run(r) == Step(Run(acts), a)
  {
    r := acts + [a];
    assert r[..|acts|] == acts;
  }

  lemma Receives(acts: seq<Action>, m: Message) returns (r: seq<Action>)
    requires Run(acts).running && Run(acts).rcv == RTop
    ensures Run(r) == ReceiverStep(Run(acts).(rcv := RReceive), m)
  {
    r := Do(acts, Receive(Other));
    r := Do(r, Receive(m));
  }

  /** All requested one-shots hold a packet, or are done. */
  predicate ShotsReady(t: Shots, holding: nat, done: nat) {
    t.starting == 0 && t.grabbing == 0 && |t.holding| == holding && t.done == done
  }

  predicate Calm(s: State) {
    && s.running && s.io.queue == [] && s.cap == CTop && s.ev == ETop && s.rcv == RTop
    && s.snd == DTop && s.main == MWait && !s.capturing && Owned(s)
  }

  lemma {:induction false} RequestShot(acts: seq<Action>, i: nat) returns (r: seq<Action>)
    requires Calm(Run(acts)) && ShotsReady(Run(acts).shots, i, 0)
    ensures Calm(Run(r)) && ShotsReady(Run(r).shots, i + 1, 0)
  {
    r := Receives(acts, CaptureImmediately);
    r := Do(r, ShotStart);
    r := Do(r, ShotGrab);
  }

  /** n one-shot captures, each about to push. */
  lemma {:induction false} RequestShots(n: nat) returns (acts: seq<Action>)
    ensures Calm(Run(acts)) && ShotsReady(Run(acts).shots, n, 0)
  {
    acts := [];
    for i := 0 to n
      invariant Calm(Run(acts)) && ShotsReady(Run(acts).shots, i, 0)
    {
      acts := RequestShot(acts, i);
    }
  }

  /** Both modes on, and the capture thread past its queue test with a packet in hand. */
  predicate Poised(s: State, n: nat) {
    s.running && s.capturing && s.recording && s.cap.CPush? && ShotsReady(s.shots, n, 0)
  }

  lemma {:induction false} Poise(n: nat) returns (acts: seq<Action>)
    ensures Poised(Run(acts), n) && Run(acts).io.queue == [] && Run(acts).ev == ETop
  {
    acts := RequestShots(n);
    acts := Receives(acts, CaptureStart);
    acts := Receives(acts, RecordStart);
    acts := Do(acts, Capture(true));
    acts := Do(acts, Capture(true));
    acts := Do(acts, Capture(true));
    acts := Do(acts, Capture(true));
  }

  /** The event thread passes its test and has a packet in hand. */
  lemma {:induction false} EventInHand(acts: seq<Action>, n: nat) returns (r: seq<Action>)
    requires Poised(Run(acts), n) && Run(acts).ev == ETop && |Run(acts).io.queue| < SEND_QUEUE_SIZE_MAX
    ensures Poised(Run(r), n) && Run(r).ev.EPush? && |Run(r).io.queue| == |Run(acts).io.queue|
  {
    r := Do(acts, Event(true));
    r := Do(r, Event(true));
    r := Do(r, Event(true));
    r := Do(r, Event(true));
  }

  lemma {:induction false} FillTo49(n: nat) returns (acts: seq<Action>)
    ensures Poised(Run(acts), n) && Run(acts).ev == ETop && |Run(acts).io.queue| == 49
  {
    acts := Poise(n);
    for k := 0 to 49
      invariant Poised(Run(acts), n) && Run(acts).ev == ETop && |Run(acts).io.queue| == k
    {
      acts := EventInHand(acts, n);
      acts := Do(acts, Event(true));
    }
  }

  /** The event test at 49, then the capture push and the event push. */
  lemma {:induction false} FillTo51(n: nat) returns (acts: seq<Action>)
    ensures var s := Run(acts);
            |s.io.queue| == 51 && ShotsReady(s.shots, n, 0) && s.ev == ETop && s.running && s.recording
  {
    acts := FillTo49(n);
    acts := EventInHand(acts, n);
    acts := Do(acts, Capture(true));
    acts := Do(acts, Event(true));
  }

  lemma {:induction false} FoundFull(n: nat) returns (acts: seq<Action>)
    ensures var s := Run(acts);
            |s.io.queue| == 51 && ShotsReady(s.shots, n, 0) && s.ev == EGet(true)
  {
    acts := FillTo51(n);
    acts := Do(acts, Event(true));
    acts := Do(acts, Event(true));
    acts := Do(acts, Event(true));
    acts := Do(acts, Event(true));
  }

  /** The event thread finds the queue full, stops the program, and pushes once more. */
  lemma {:induction false} FillTo52(n: nat) returns (acts: seq<Action>)
    ensures |Run(acts).io.queue| == 52 && ShotsReady(Run(acts).shots, n, 0)
  {
    acts := FoundFull(n);
    acts := Do(acts, Event(true));
    acts := Do(acts, Event(true));
  }

  lemma {:induction false} PushShot(acts: seq<Action>, holding: nat, done: nat) returns (r: seq<Action>)
    requires holding > 0 && ShotsReady(Run(acts).shots, holding, done)
    ensures ShotsReady(Run(r).shots, holding - 1, done + 1)
    ensures |Run(r).io.queue| == |Run(acts).io.queue| + 1
  {
    var b :| b in Run(acts).shots.holding;
    r := Do(acts, ShotPush(b));
  }

  /** The bound is met: for every number of requests some run fills the queue to it. */
  lemma {:induction false} QueueBoundIsTight(n: nat)
    ensures exists acts :: |Run(acts).io.queue| == 52 + n && Requested(Run(acts)) == n
  {
    var acts := FillTo52(n);
    for j := 0 to n
      invariant |Run(acts).io.queue| == 52 + j && ShotsReady(Run(acts).shots, n - j, j)
    {
      acts := PushShot(acts, n - j, j);
    }
  }

  /** All joined threads finish while one-shot captures are about to push. */
  lemma {:induction false} StopAround(n: nat) returns (acts: seq<Action>)
    ensures var s := Run(acts);
            !s.running && Joined(s) && s.main == MWait && s.io.queue == [] && ShotsReady(s.shots, n, 0)
  {
    acts := RequestShots(n);
    acts := Receives(acts, Terminate);
    acts := Do(acts, Receive(Other));
    acts := Do(acts, Capture(true));
    acts := Do(acts, Event(true));
    acts := Do(acts, Send(true));
  }

  /** When the program is through, nothing is freed any more. */
  lemma {:induction false} NothingFreedAfter(s: State, more: seq<Action>)
    requires s.main == MDone && Joined(s)
    ensures var t := RunFrom(s, more); t.main == MDone && Joined(t) && t.io.freed == s.io.freed
  {
    if more != [] {
      NothingFreedAfter(s, more[..|more| - 1]);
    }
  }

  lemma DoMain(acts: seq<Action>) returns (r: seq<Action>)
    ensures Run(r) == MainStep(Run(acts))
  {
    r := Do(acts, Main);
  }

  /** Both drains done while one-shot captures are about to push. */
  lemma {:induction false} EndAround(n: nat) returns (acts: seq<Action>)
    ensures Over(Run(acts)) && ShotsReady(Run(acts).shots, n, 0)
  {
    acts := StopAround(n);
    RunOrdered(acts);
    var s := Run(acts);
    acts := DoMain(acts);
    acts := DoMain(acts);
    acts := DoMain(acts);
    acts := DoMain(acts);
    acts := DoMain(acts);
    assert Run(acts) == s.(main := MDone);
    assert InHand(s.snd, s.main) == [];
  }

  /** One-shot threads are not joined: in some run one pushes after both drains, and its
      buffer is never freed, however the run goes on. */
  lemma {:induction false} OneShotCanLeak()
    ensures exists acts, b ::
              && Run(acts).main == MDone && b in Run(acts).io.pushed
              && forall more :: b !in RunFrom(Run(acts), more).io.freed
  {
    var acts := EndAround(1);
    RunOwned(acts);
    var s := Run(acts);
    var b :| b in s.shots.holding;
    var all := Do(acts, ShotPush(b));
    assert b !in s.io.pushed && b in Run(all).io.pushed;
    forall more
      ensures b !in RunFrom(Run(all), more).io.freed
    {
      NothingFreedAfter(Run(all), more);
    }
  }
}
