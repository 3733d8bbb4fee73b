/** The modes of the threads: who sets them, and that the threads obey them.

    The statements are about whole runs.  They look back from a packet under construction to
    the tests its thread made on the way, and from a mode to the messages received. */
module Modes {
  import opened Pipeline

  lemma LastStep(acts: seq<Action>)
    requires acts != []
    ensures Run(acts) == Step(Run(acts[..|acts| - 1]), acts[|acts| - 1])
  {
  }

  lemma Shorter(acts: seq<Action>, k: nat, n: nat)
    requires n < k <= |acts|
    ensures acts[..k][..n] == acts[..n] && acts[..k][n] == acts[n]
  {
  }

  // ----------------------------------------------------------- messages and modes

  function HandledBy(s: State, a: Action): seq<Message> {
    if a.Receive? && s.rcv == RReceive then [a.m] else []
  }

  /** The messages the receiver has handled, in order. */
  function Handled(acts: seq<Action>): seq<Message> {
    if acts == [] then []
    else
      var pre := acts[..|acts| - 1];
      Handled(pre) + HandledBy(Run(pre), acts[|acts| - 1])
  }

  predicate SwitchedAt(ms: seq<Message>, i: int, on: Message, off: Message) {
    0 <= i < |ms| && ms[i] == on && forall j :: i < j < |ms| ==> ms[j] != off
  }

  /** There was an `on`, and no `off` since. */
  predicate Switched(ms: seq<Message>, on: Message, off: Message) {
    exists i :: 0 <= i < |ms| && SwitchedAt(ms, i, on, off)
  }

  lemma SwitchedAtSnoc(ms: seq<Message>, m: Message, i: int, on: Message, off: Message)
    requires on != off
    ensures SwitchedAt(ms + [m], i, on, off) <==> if i == |ms| then m == on else m != off && SwitchedAt(ms, i, on, off)
  {
    var all := ms + [m];
    assert all[|ms|] == m && forall j :: 0 <= j < |ms| ==> all[j] == ms[j];
  }

  lemma {:induction false} SwitchedSnoc(ms: seq<Message>, m: Message, on: Message, off: Message)
    requires on != off
    ensures Switched(ms + [m], on, off) <==> m == on || (m != off && Switched(ms, on, off))
  {
    SwitchedAtSnoc(ms, m, |ms|, on, off);
    forall i
      ensures SwitchedAt(ms + [m], i, on, off) <==>
              if i == |ms| then m == on else m != off && SwitchedAt(ms, i, on, off)
    {
      SwitchedAtSnoc(ms, m, i, on, off);
    }
  }

  function Count(ms: seq<Message>, m: Message): nat {
    if ms == [] then 0 else Count(ms[..|ms| - 1], m) + if ms[|ms| - 1] == m then 1 else 0
  }

  lemma {:induction false} StepModes(s: State, a: Action)
    ensures var t, ms := Step(s, a), HandledBy(s, a);
            && t.capturing == (CaptureStart in ms || (CaptureStop !in ms && s.capturing))
            && t.recording == (RecordStart in ms || (RecordStop !in ms && s.recording))
  {
  }

  /** Capturing is as the last message about it says. */
  lemma {:induction false} CapturingFollows(acts: seq<Action>)
    ensures Run(acts).capturing <==> Switched(Handled(acts), CaptureStart, CaptureStop)
  {
    if acts != [] {
      var pre, a := acts[..|acts| - 1], acts[|acts| - 1];
      CapturingFollows(pre);
      StepModes(Run(pre), a);
      assert Handled(pre) + [] == Handled(pre);
      if a.Receive? {
        SwitchedSnoc(Handled(pre), a.m, CaptureStart, CaptureStop);
      }
    }
  }

  /** Recording is as the last message about it says. */
  lemma {:induction false} RecordingFollows(acts: seq<Action>)
    ensures Run(acts).recording <==> Switched(Handled(acts), RecordStart, RecordStop)
  {
    if acts != [] {
      var pre, a := acts[..|acts| - 1], acts[|acts| - 1];
      RecordingFollows(pre);
      StepModes(Run(pre), a);
      assert Handled(pre) + [] == Handled(pre);
      if a.Receive? {
        SwitchedSnoc(Handled(pre), a.m, RecordStart, RecordStop);
      }
    }
  }

  lemma {:induction false} ShotRequests(s: State, b: Buffer)
    requires s.next !in s.shots.holding
    ensures Requested(ShotPushStep(s, b)) == Requested(s)
    ensures Requested(ShotGrabStep(s)) == Requested(s)
    ensures Requested(ShotStartStep(s)) == Requested(s)
  {
    if b in s.shots.holding {
      assert |s.shots.holding - {b}| == |s.shots.holding| - 1;
    }
    assert |s.shots.holding + {s.next}| == |s.shots.holding| + 1;
  }

  lemma {:induction false} StepRequests(s: State, a: Action)
    requires s.next !in s.shots.holding
    ensures Requested(Step(s, a)) == Requested(s) + if HandledBy(s, a) == [CaptureImmediately] then 1 else 0
  {
    match a {
      case ShotStart => ShotRequests(s, 0);
      case ShotGrab => ShotRequests(s, 0);
      case ShotPush(b) => ShotRequests(s, b);
      case Capture(ok) => assert CaptureStep(s, ok).shots == s.shots;
      case Event(got) => assert EventStep(s, got).shots == s.shots;
      case Send(ok) => assert SenderStep(s, ok).shots == s.shots;
      case Receive(m) =>
      case Main => assert MainStep(s).shots == s.shots;
    }
  }

  /** As many one-shots were requested as messages asked for one. */
  lemma {:induction false} RequestsCounted(acts: seq<Action>)
    ensures Requested(Run(acts)) == Count(Handled(acts), CaptureImmediately)
  {
    if acts != [] {
      var pre, a := acts[..|acts| - 1], acts[|acts| - 1];
      RequestsCounted(pre);
      RunOwned(pre);
      StepRequests(Run(pre), a);
      assert Handled(pre) + [] == Handled(pre);
      if a.Receive? {
        assert (Handled(pre) + [a.m])[..|Handled(pre)|] == Handled(pre);
      }
    }
  }

  // ---------------------------------------------------------------- why it stops

  /** The three things that stop the program: the message, an event thread that found the
      queue full, and a sender whose send failed. */
  predicate Stops(s: State, a: Action) {
    || (a == Receive(Terminate) && s.rcv == RReceive)
    || (a.Event? && s.ev == EStop)
    || (a.Send? && s.snd.DFail?)
  }

  lemma {:induction false} StopsOrNot(s: State, a: Action)
    ensures Step(s, a).running <==> s.running && !Stops(s, a)
  {
  }

  predicate StopsAt(acts: seq<Action>, n: nat)
    requires n < |acts|
  {
    Stops(Run(acts[..n]), acts[n])
  }

  lemma StopsAtPrefix(acts: seq<Action>, k: nat, n: nat)
    requires n < k <= |acts|
    ensures StopsAt(acts, n) <==> StopsAt(acts[..k], n)
  {
    Shorter(acts, k, n);
  }

  /** It runs on exactly until one of the three. */
  lemma {:induction false} RunsUntilStopped(acts: seq<Action>)
    ensures Run(acts).running <==> forall n :: 0 <= n < |acts| ==> !StopsAt(acts, n)
  {
    if acts != [] {
      var k := |acts| - 1;
      var pre := acts[..k];
      RunsUntilStopped(pre);
      LastStep(acts);
      StopsOrNot(Run(pre), acts[k]);
      assert StopsAt(acts, k) <==> Stops(Run(pre), acts[k]);
      if n: nat :| n < k && StopsAt(pre, n) {
        StopsAtPrefix(acts, k, n);
      } else {
        forall n: nat | n < k
          ensures !StopsAt(acts, n)
        {
          StopsAtPrefix(acts, k, n);
        }
      }
    }
  }

  // ------------------------------------------------------------- the capture thread

  /** Action n is the last one of the capture thread. */
  predicate LastCapture(acts: seq<Action>, n: nat) {
    n < |acts| && acts[n].Capture? && forall m :: n < m < |acts| ==> !acts[m].Capture?
  }

  lemma OthersKeepCapture(s: State, a: Action)
    requires !a.Capture?
    ensures Step(s, a).cap == s.cap
  {
  }

  /** The thread stands where its last action left it. */
  predicate CaptureLeft(acts: seq<Action>, n: nat) {
    LastCapture(acts, n) && Run(acts).cap == CaptureStep(Run(acts[..n]), acts[n].ok).cap
  }

  lemma CaptureLeftLast(acts: seq<Action>)
    requires acts != [] && acts[|acts| - 1].Capture?
    ensures CaptureLeft(acts, |acts| - 1)
  {
    LastStep(acts);
  }

  lemma CaptureLeftBefore(acts: seq<Action>, n: nat)
    requires acts != [] && !acts[|acts| - 1].Capture? && CaptureLeft(acts[..|acts| - 1], n)
    ensures CaptureLeft(acts, n)
  {
    LastStep(acts);
    OthersKeepCapture(Run(acts[..|acts| - 1]), acts[|acts| - 1]);
    Shorter(acts, |acts| - 1, n);
  }

  lemma {:induction false} CaptureSince(acts: seq<Action>) returns (n: nat)
    requires Run(acts).cap != CTop
    ensures CaptureLeft(acts, n)
  {
    n := |acts| - 1;
    if acts[n].Capture? {
      CaptureLeftLast(acts);
    } else {
      LastStep(acts);
      OthersKeepCapture(Run(acts[..n]), acts[n]);
      n := CaptureSince(acts[..n]);
      CaptureLeftBefore(acts, n);
    }
  }

  /** The last four actions of the thread: it saw the program running, then its mode on, then
      at most 5 packets queued, and then built a packet. */
  predicate CaptureRound(acts: seq<Action>, t: nat, m: nat, c: nat, g: nat) {
    && LastCapture(acts, g) && LastCapture(acts[..g], c) && LastCapture(acts[..c], m) && LastCapture(acts[..m], t)
    && Run(acts[..t]).running
    && Run(acts[..m]).capturing
    && |Run(acts[..c]).io.queue| <= 5
    && acts[g].ok
  }

  /** Every packet the capture thread holds follows a test at which its mode was on. */
  lemma {:induction false} CaptureObeys(acts: seq<Action>)
    requires Run(acts).cap.CPush?
    ensures exists t, m, c, g :: CaptureRound(acts, t, m, c, g)
  {
    var g := CaptureSince(acts);
    var c := CaptureSince(acts[..g]);
    Shorter(acts, g, c);
    var m := CaptureSince(acts[..c]);
    Shorter(acts, c, m);
    var t := CaptureSince(acts[..m]);
    Shorter(acts, m, t);
    assert CaptureRound(acts, t, m, c, g);
  }

  // --------------------------------------------------------------- the event thread

  predicate LastEvent(acts: seq<Action>, n: nat) {
    n < |acts| && acts[n].Event? && forall m :: n < m < |acts| ==> !acts[m].Event?
  }

  lemma OthersKeepEvent(s: State, a: Action)
    requires !a.Event?
    ensures Step(s, a).ev == s.ev
  {
  }

  predicate EventLeft(acts: seq<Action>, n: nat) {
    LastEvent(acts, n) && Run(acts).ev == EventStep(Run(acts[..n]), acts[n].got).ev
  }

  lemma EventLeftLast(acts: seq<Action>)
    requires acts != [] && acts[|acts| - 1].Event?
    ensures EventLeft(acts, |acts| - 1)
  {
    LastStep(acts);
  }

  lemma EventLeftBefore(acts: seq<Action>, n: nat)
    requires acts != [] && !acts[|acts| - 1].Event? && EventLeft(acts[..|acts| - 1], n)
    ensures EventLeft(acts, n)
  {
    LastStep(acts);
    OthersKeepEvent(Run(acts[..|acts| - 1]), acts[|acts| - 1]);
    Shorter(acts, |acts| - 1, n);
  }

  lemma {:induction false} EventSince(acts: seq<Action>) returns (n: nat)
    requires Run(acts).ev != ETop
    ensures EventLeft(acts, n)
  {
    n := |acts| - 1;
    if acts[n].Event? {
      EventLeftLast(acts);
    } else {
      LastStep(acts);
      OthersKeepEvent(Run(acts[..n]), acts[n]);
      n := EventSince(acts[..n]);
      EventLeftBefore(acts, n);
    }
  }

  /** Between the queue test at c and action g the thread did nothing but, if it had found 50
      packets or more, stop the program. */
  predicate Tested(acts: seq<Action>, c: nat, g: nat)
    requires c < g <= |acts|
  {
    if |Run(acts[..c]).io.queue| < 50 then LastEvent(acts[..g], c)
    else exists e :: c < e < g && LastEvent(acts[..g], e) && LastEvent(acts[..e], c) && Stops(Run(acts[..e]), acts[e])
  }

  /** The thread saw the program running, then its mode on, then tested the queue, and then
      got the last event of a packet. */
  predicate EventRound(acts: seq<Action>, t: nat, m: nat, c: nat, g: nat) {
    && LastEvent(acts, g) && acts[g].got
    && c < g && Tested(acts, c, g)
    && LastEvent(acts[..c], m) && LastEvent(acts[..m], t)
    && Run(acts[..t]).running
    && Run(acts[..m]).recording
  }

  lemma {:induction false} CheckFollowsTests(acts: seq<Action>) returns (t: nat, m: nat)
    requires Run(acts).ev == ECheck
    ensures LastEvent(acts, m) && LastEvent(acts[..m], t) && Run(acts[..t]).running && Run(acts[..m]).recording
  {
    m := EventSince(acts);
    t := EventSince(acts[..m]);
    assert acts[..m][..t] == acts[..t] && acts[..m][t] == acts[t];
  }

  /** Every packet the event thread holds follows a test at which its mode was on. */
  lemma {:induction false} RecordingObeys(acts: seq<Action>)
    requires Run(acts).ev.EPush?
    ensures exists t, m, c, g :: EventRound(acts, t, m, c, g)
  {
    var g := EventSince(acts);
    var c := EventSince(acts[..g]);
    assert acts[..g][..c] == acts[..c] && acts[..g][c] == acts[c];
    if Run(acts[..c]).ev == EStop {
      var e := c;
      c := EventSince(acts[..e]);
      assert acts[..e][..c] == acts[..c] && acts[..e][c] == acts[c];
      assert LastEvent(acts[..g], e) && LastEvent(acts[..e], c) && Stops(Run(acts[..e]), acts[e]);
    }
    var t, m := CheckFollowsTests(acts[..c]);
    assert acts[..c][..m] == acts[..m] && acts[..c][..t] == acts[..t] && acts[..m][..t] == acts[..t];
    assert EventRound(acts, t, m, c, g);
  }

  lemma {:induction false} IdleCapture(s: State, a: Action)
    requires !s.capturing && s.cap in {CTop, CMode, CDone}
    ensures Step(s, a).cap in {CTop, CMode, CDone}
  {
  }

  lemma {:induction false} IdleEvents(s: State, a: Action)
    requires !s.recording && s.ev in {ETop, EMode, EDone}
    ensures Step(s, a).ev in {ETop, EMode, EDone}
  {
  }

  /** Unless a start message is handled, nothing is captured. */
  lemma {:induction false} NoCaptureUnasked(acts: seq<Action>)
    requires CaptureStart !in Handled(acts)
    ensures !Run(acts).capturing && Run(acts).cap in {CTop, CMode, CDone}
  {
    CapturingFollows(acts);
    if acts != [] {
      NoCaptureUnasked(acts[..|acts| - 1]);
      IdleCapture(Run(acts[..|acts| - 1]), acts[|acts| - 1]);
    }
  }

  /** Unless a start message is handled, nothing is recorded. */
  lemma {:induction false} NoRecordingUnasked(acts: seq<Action>)
    requires RecordStart !in Handled(acts)
    ensures !Run(acts).recording && Run(acts).ev in {ETop, EMode, EDone}
  {
    RecordingFollows(acts);
    if acts != [] {
      NoRecordingUnasked(acts[..|acts| - 1]);
      IdleEvents(Run(acts[..|acts| - 1]), acts[|acts| - 1]);
    }
  }

  // -------------------------------------------------------------------- the sender

  predicate LastSend(acts: seq<Action>, n: nat) {
    n < |acts| && acts[n].Send? && forall m :: n < m < |acts| ==> !acts[m].Send?
  }

  lemma OthersKeepSender(s: State, a: Action)
    requires !a.Send?
    ensures Step(s, a).snd == s.snd
  {
  }

  predicate SendLeft(acts: seq<Action>, n: nat) {
    LastSend(acts, n) && Run(acts).snd == SenderStep(Run(acts[..n]), acts[n].ok).snd
  }

  lemma SendLeftLast(acts: seq<Action>)
    requires acts != [] && acts[|acts| - 1].Send?
    ensures SendLeft(acts, |acts| - 1)
  {
    LastStep(acts);
  }

  lemma SendLeftBefore(acts: seq<Action>, n: nat)
    requires acts != [] && !acts[|acts| - 1].Send? && SendLeft(acts[..|acts| - 1], n)
    ensures SendLeft(acts, n)
  {
    LastStep(acts);
    OthersKeepSender(Run(acts[..|acts| - 1]), acts[|acts| - 1]);
    Shorter(acts, |acts| - 1, n);
  }

  lemma {:induction false} SendSince(acts: seq<Action>) returns (n: nat)
    requires Run(acts).snd != DTop
    ensures SendLeft(acts, n)
  {
    n := |acts| - 1;
    if acts[n].Send? {
      SendLeftLast(acts);
    } else {
      LastStep(acts);
      OthersKeepSender(Run(acts[..n]), acts[n]);
      n := SendSince(acts[..n]);
      SendLeftBefore(acts, n);
    }
  }

  /** The sender takes no packet but after seeing the program run, and gives up only after a
      send that failed. */
  lemma {:induction false} SenderObeys(acts: seq<Action>)
    ensures Run(acts).snd.DPop? ==> exists n: nat :: LastSend(acts, n) && Run(acts[..n]).running
    ensures Run(acts).snd.DFail? ==>
              exists n: nat :: LastSend(acts, n) && Run(acts[..n]).snd.DSend? && !acts[n].ok
  {
    if Run(acts).snd.DPop? || Run(acts).snd.DFail? {
      var n := SendSince(acts);
      assert LastSend(acts, n);
    }
  }
}
