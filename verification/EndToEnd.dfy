/** From the touch screen back to the touch screen: recorder, threads, wire, receiver, event
    file and player put together.  What comes back is the kernel's account of the touches,
    which has no ABS_MT_SLOT events. */
module EndToEnd {
  import opened Words
  import opened Recorder
  import opened Session
  import opened Tracking
  import opened Recording
  import opened Account
  import opened Fidelity
  import opened Replay
  import opened RecordingThread
  import opened PacketCodec
  import opened EventFile
  import Pipeline
  import Players

  // --------------------------------------------------------------- wire to file

  /** What the receiver writes to the event file: the event packets, in order. */
  function GroupsReceived(rs: seq<Received>): seq<Group> {
    if rs == [] then []
    else (if rs[0].EventCapture? then [Group(rs[0].devId, rs[0].etype, rs[0].recs)] else []) + GroupsReceived(rs[1..])
  }

  /** The event packets among those sent. */
  function GroupsSent(ps: seq<WirePacket>): seq<Group> {
    if ps == [] then []
    else (if ps[0].EventPacket? then [Group(ps[0].devId, ps[0].etype, ps[0].recs)] else []) + GroupsSent(ps[1..])
  }

  lemma {:induction false} GroupsMeant(ps: seq<WirePacket>)
    ensures GroupsReceived(MeantAll(ps)) == GroupsSent(ps)
  {
    if ps != [] {
      GroupsMeant(ps[1..]);
      assert MeantAll(ps)[1..] == MeantAll(ps[1..]);
    }
  }

  lemma Associated<T>(a: seq<T>, b: seq<T>, c: seq<T>)
    ensures a + (b + c) == a + b + c
  {
  }

  lemma OneGroup(p: WirePacket)
    ensures GroupsSent([p]) == if p.EventPacket? then [Group(p.devId, p.etype, p.recs)] else []
  {
    assert [p][1..] == [];
  }

  lemma {:induction false} GroupsAppend(a: seq<WirePacket>, b: seq<WirePacket>)
    ensures GroupsSent(a + b) == GroupsSent(a) + GroupsSent(b)
  {
    if a == [] {
      assert a + b == b;
    } else {
      GroupsAppend(a[1..], b);
      assert (a + b)[1..] == a[1..] + b;
      Associated(GroupsSent([a[0]]), GroupsSent(a[1..]), GroupsSent(b));
      OneGroup(a[0]);
    }
  }

  /** Bytes sent by the recorder, received, written to a file and read by a player give
      the event packets back as groups, whatever screen captures come between them. */
  lemma {:induction false} WireToPlayer(ps: seq<WirePacket>)
    requires forall p :: p in ps ==> Fits(p)
    requires AllDistinguishable(ps) && forall g :: g in GroupsSent(ps) ==> Printable(g)
    ensures ParseFile(PrintFile(GroupsReceived(Receive(EncodeAll(ps))))) == Parsed(EntriesOf(GroupsSent(ps)), true)
  {
    StreamRoundTrip(ps);
    GroupsMeant(ps);
    FileRoundTrip(GroupsSent(ps));
  }

  // ------------------------------------------------------------ threads to wire

  /** What each buffer holds. */
  type Filling = Pipeline.Buffer -> WirePacket

  /** What a packet is as a group. */
  function GroupOf(device: u32, p: Packet): Group {
    Group(device, p.etype, p.recs)
  }

  /** The recorder's packets under one device id. */
  function Labelled(device: u32, ps: seq<Packet>): (gs: seq<Group>)
    ensures |gs| == |ps|
  {
    seq(|ps|, i requires 0 <= i < |ps| => GroupOf(device, ps[i]))
  }

  /** How many packets the event thread has pushed. */
  function EventsPushed(acts: seq<Pipeline.Action>): nat {
    if acts == [] then 0
    else
      var pre := acts[..|acts| - 1];
      EventsPushed(pre) + if acts[|acts| - 1].Event? && Pipeline.Run(pre).ev.EPush? then 1 else 0
  }

  /** `content` tells what is in each buffer.  What an action pushes: from the event thread,
      the next of the groups, `n` being how many it has pushed; from a capture thread, a
      screen capture. */
  predicate FillsNext(s: Pipeline.State, a: Pipeline.Action, content: Filling, gs: seq<Group>, n: nat) {
    && (a.Event? && s.ev.EPush? ==> n < |gs| && GroupsSent([content(s.ev.b)]) == [gs[n]])
    && (a.Capture? && s.cap.CPush? ==> content(s.cap.b).SurfacePacket?)
    && (a.ShotPush? && a.b in s.shots.holding ==> content(a.b).SurfacePacket?)
  }

  predicate Fills(acts: seq<Pipeline.Action>, content: Filling, gs: seq<Group>) {
    acts == [] ||
    (var pre := acts[..|acts| - 1];
     Fills(pre, content, gs) && FillsNext(Pipeline.Run(pre), acts[|acts| - 1], content, gs, EventsPushed(pre)))
  }

  function Contents(bs: seq<Pipeline.Buffer>, content: Filling): (ps: seq<WirePacket>)
    ensures |ps| == |bs|
  {
    seq(|bs|, i requires 0 <= i < |bs| => content(bs[i]))
  }

  lemma PushedOne(bs: seq<Pipeline.Buffer>, b: Pipeline.Buffer, content: Filling)
    ensures GroupsSent(Contents(bs + [b], content)) == GroupsSent(Contents(bs, content)) + GroupsSent([content(b)])
  {
    assert Contents(bs + [b], content) == Contents(bs, content) + [content(b)];
    GroupsAppend(Contents(bs, content), [content(b)]);
  }

  /** An action pushes at most one buffer, the event thread's only from EPush. */
  function PushedBy(s: Pipeline.State, a: Pipeline.Action): seq<Pipeline.Buffer> {
    if a.Event? && s.ev.EPush? then [s.ev.b]
    else if a.Capture? && s.cap.CPush? then [s.cap.b]
    else if a.ShotPush? && a.b in s.shots.holding then [a.b]
    else []
  }

  lemma StepPushes(s: Pipeline.State, a: Pipeline.Action)
    ensures Pipeline.Step(s, a).io.pushed == s.io.pushed + PushedBy(s, a)
  {
    assert s.io.pushed + [] == s.io.pushed;
  }

  lemma {:induction false} NextInOrder(s: Pipeline.State, a: Pipeline.Action, content: Filling, gs: seq<Group>, n: nat)
    requires FillsNext(s, a, content, gs, n) && n <= |gs|
    requires GroupsSent(Contents(s.io.pushed, content)) == gs[..n]
    ensures var m := if a.Event? && s.ev.EPush? then n + 1 else n;
            m <= |gs| && GroupsSent(Contents(Pipeline.Step(s, a).io.pushed, content)) == gs[..m]
  {
    StepPushes(s, a);
    if PushedBy(s, a) != [] {
      var b := PushedBy(s, a)[0];
      PushedOne(s.io.pushed, b, content);
      OneGroup(content(b));
    } else {
      assert s.io.pushed + [] == s.io.pushed;
    }
  }

  /** However captures and one-shots interleave with it, the event thread's groups go into
      the queue in its own order. */
  lemma {:induction false} GroupsInOrder(acts: seq<Pipeline.Action>, content: Filling, gs: seq<Group>)
    requires Fills(acts, content, gs)
    ensures EventsPushed(acts) <= |gs|
    ensures GroupsSent(Contents(Pipeline.Run(acts).io.pushed, content)) == gs[..EventsPushed(acts)]
  {
    if acts == [] {
      assert Contents(Pipeline.Run(acts).io.pushed, content) == [];
    } else {
      var pre := acts[..|acts| - 1];
      GroupsInOrder(pre, content, gs);
      NextInOrder(Pipeline.Run(pre), acts[|acts| - 1], content, gs, EventsPushed(pre));
    }
  }

  /** What has been sent without error is a prefix of it. */
  lemma {:induction false} SentInOrder(acts: seq<Pipeline.Action>, content: Filling, gs: seq<Group>)
    requires Fills(acts, content, gs)
    ensures var io := Pipeline.Run(acts).io;
            && EventsPushed(acts) <= |gs|
            && GroupsSent(Contents(io.sent, content)) <= gs[..EventsPushed(acts)]
            && (io.sent == io.pushed ==> GroupsSent(Contents(io.sent, content)) == gs[..EventsPushed(acts)])
  {
    GroupsInOrder(acts, content, gs);
    Pipeline.Fifo(acts);
    var io := Pipeline.Run(acts).io;
    var unsent := io.pushed[|io.sent|..];
    assert io.pushed == io.sent + unsent;
    assert Contents(io.pushed, content) == Contents(io.sent, content) + Contents(unsent, content);
    GroupsAppend(Contents(io.sent, content), Contents(unsent, content));
  }

  // ----------------------------------------------------------- recorder to player

  predicate NoTokenTimes(recs: seq<Record>) {
    forall r :: r in recs ==> !IsToken(r.tv)
  }

  /** Records bear the times of the events they come from. */
  lemma {:induction false} TimesAreTheInputs(es: seq<InputEvent>)
    requires BoundedSlots(es) && NoTokens(es)
    ensures NoTokenTimes(Recorded(es).st.recs)
    ensures forall p :: p in Recorded(es).packets ==> NoTokenTimes(p.recs)
  {
    if es != [] {
      TimesAreTheInputs(es[..|es| - 1]);
      assert !IsToken(es[|es| - 1].time);
      StepTimes(Recorded(es[..|es| - 1]).st, es[|es| - 1]);
    }
  }

  lemma {:induction false} StepTimes(s: State, e: InputEvent)
    requires WellFormed(s) && NoTokenTimes(s.recs) && !IsToken(e.time)
    ensures NoTokenTimes(Step(s, e).0.recs)
  {
  }

  lemma {:induction false} InWithRecords(ps: seq<Packet>, p: Packet)
    ensures p in WithRecords(ps) <==> p in ps && p.recs != []
  {
    if ps != [] {
      InWithRecords(ps[..|ps| - 1], p);
      assert ps == ps[..|ps| - 1] + [ps[|ps| - 1]];
    }
  }

  /** Nothing the thread hands on looks like a token in the file. */
  lemma {:induction false} ThreadPrintable(polls: seq<Poll>, device: u32)
    requires BoundedPolls(polls) && NoTokens(Delivered(polls))
    ensures forall g :: g in Labelled(device, ThreadRun(polls).o.packets) ==> Printable(g)
  {
    var ps := ThreadRun(polls).o.packets;
    TimesAreTheInputs(Delivered(polls));
    IdleAddsNoRecords(polls);
    forall g | g in Labelled(device, ps)
      ensures Printable(g)
    {
      var i :| 0 <= i < |ps| && Labelled(device, ps)[i] == g;
      InWithRecords(ps, ps[i]);
      InWithRecords(Recorded(Delivered(polls)).packets, ps[i]);
    }
  }

  predicate AllFit(ps: seq<WirePacket>) {
    forall p :: p in ps ==> Fits(p)
  }

  /** One run of the whole recorder: the polls of its event thread, the interleaving of its
      threads, the contents of the buffers, and the device the events come from. */
  predicate RecorderRun(polls: seq<Poll>, acts: seq<Pipeline.Action>, content: Filling, device: u32) {
    && BoundedPolls(polls) && NoTokens(Delivered(polls))
    && Fills(acts, content, Labelled(device, ThreadRun(polls).o.packets))
    && AllFit(Contents(Pipeline.Run(acts).io.pushed, content))
    && AllDistinguishable(Contents(Pipeline.Run(acts).io.pushed, content))
  }

  /** All packets are pushed, and all that are pushed are sent. */
  predicate AllSent(polls: seq<Poll>, acts: seq<Pipeline.Action>)
    requires BoundedPolls(polls)
  {
    EventsPushed(acts) == |ThreadRun(polls).o.packets| && Pipeline.Run(acts).io.sent == Pipeline.Run(acts).io.pushed
  }

  function Sent(acts: seq<Pipeline.Action>, content: Filling): seq<WirePacket> {
    Contents(Pipeline.Run(acts).io.sent, content)
  }

  /** The file the receiver writes of what has been sent. */
  function Filed(sent: seq<WirePacket>): bytes
    requires AllFit(sent)
  {
    PrintFile(GroupsReceived(Receive(EncodeAll(sent))))
  }

  lemma {:induction false} SentIsPushed(acts: seq<Pipeline.Action>, content: Filling)
    ensures forall p :: p in Sent(acts, content) ==> p in Contents(Pipeline.Run(acts).io.pushed, content)
  {
    Pipeline.Fifo(acts);
    var io := Pipeline.Run(acts).io;
    forall p | p in Sent(acts, content)
      ensures p in Contents(io.pushed, content)
    {
      var i :| 0 <= i < |io.sent| && Sent(acts, content)[i] == p;
      assert io.sent[i] == io.pushed[i];
      assert Contents(io.pushed, content)[i] == p;
    }
  }

  lemma {:induction false} FiledGroups(sent: seq<WirePacket>)
    requires AllFit(sent) && AllDistinguishable(sent) && forall g :: g in GroupsSent(sent) ==> Printable(g)
    ensures ParseFile(Filed(sent)) == Parsed(EntriesOf(GroupsSent(sent)), true)
    ensures ParseOnDevice(Filed(sent), MINUS_ONE, []) == Some(NonEmpty(EntriesOf(GroupsSent(sent))))
  {
    WireToPlayer(sent);
    ReadersAgree(Filed(sent), MINUS_ONE, MINUS_ONE, []);
  }

  lemma FirstLabelled(device: u32, ps: seq<Packet>, gs: seq<Group>)
    requires gs <= Labelled(device, ps)
    ensures gs == Labelled(device, ps[..|gs|])
    ensures forall g :: g in gs ==> g in Labelled(device, ps)
  {
  }

  /** From the polls to evtPly's list, in every interleaving: the groups read are those of
      the thread's first packets, as many as were sent, in order; all of them when all were. */
  lemma {:induction false} RecordedAndFiled(polls: seq<Poll>, acts: seq<Pipeline.Action>, content: Filling, device: u32)
    requires RecorderRun(polls, acts, content, device)
    ensures AllFit(Sent(acts, content))
    ensures var ps, n := ThreadRun(polls).o.packets, |GroupsSent(Sent(acts, content))|;
            && n <= |ps| && (AllSent(polls, acts) ==> n == |ps|)
            && ParseFile(Filed(Sent(acts, content))) == Parsed(EntriesOf(Labelled(device, ps[..n])), true)
            && ParseOnDevice(Filed(Sent(acts, content)), MINUS_ONE, []) ==
               Some(NonEmpty(EntriesOf(Labelled(device, ps[..n]))))
  {
    SentIsPushed(acts, content);
    var ps := ThreadRun(polls).o.packets;
    SentInOrder(acts, content, Labelled(device, ps));
    ThreadPrintable(polls, device);
    FirstLabelled(device, ps, GroupsSent(Sent(acts, content)));
    FiledGroups(Sent(acts, content));
  }

  // ------------------------------------------------------------ played on the device

  lemma {:induction false} NonEmptyAppend(a: seq<Entry>, b: seq<Entry>)
    ensures NonEmpty(a + b) == NonEmpty(a) + NonEmpty(b)
  {
    if a == [] {
      assert a + b == b;
    } else {
      NonEmptyAppend(a[1..], b);
      assert (a + b)[1..] == a[1..] + b && (a + b)[0] == a[0];
      Associated(if a[0].events == [] then [] else [a[0]], NonEmpty(a[1..]), NonEmpty(b));
    }
  }

  /** The on-device reader's groups are the packets that hold a record. */
  lemma {:induction false} NonEmptyGroups(device: u32, ps: seq<Packet>)
    ensures NonEmpty(EntriesOf(Labelled(device, ps))) == EntriesOf(Labelled(device, WithRecords(ps)))
  {
    if ps == [] {
    } else {
      var pre, p := ps[..|ps| - 1], ps[|ps| - 1];
      NonEmptyGroups(device, pre);
      var x := EntryOf(GroupOf(device, p));
      assert EntriesOf(Labelled(device, ps)) == EntriesOf(Labelled(device, pre)) + [x];
      NonEmptyAppend(EntriesOf(Labelled(device, pre)), [x]);
      assert [x][1..] == [];
      assert EntriesOf(Labelled(device, WithRecords(pre) + [p])) == EntriesOf(Labelled(device, WithRecords(pre))) + [x];
    }
  }

  lemma {:induction false} WithRecordsPrefix(ps: seq<Packet>, n: nat)
    requires n <= |ps|
    ensures WithRecords(ps[..n]) <= WithRecords(ps)
    decreases |ps|
  {
    if n < |ps| {
      WithRecordsPrefix(ps[..|ps| - 1], n);
      assert ps[..|ps| - 1][..n] == ps[..n];
    } else {
      assert ps[..n] == ps;
    }
  }

  /** A start command and a step: the step plays the k-th group of the file. */
  lemma {:induction false} StartAndStep(file: bytes, k: nat)
    ensures var cs := [Players.Start(file), Players.PlayStep(k, true)];
            Players.PlayedAll(cs)[1] == Players.Played(Players.GroupsIn(file), cs[1])
  {
    var cs := [Players.Start(file), Players.PlayStep(k, true)];
    Players.StepsPlayByIndex(cs, 1);
    assert cs[..1] == [Players.Start(file)] && cs[..1][..0] == [];
    assert Players.OpenFiles(cs[..1]) == [] + [file] == [file];
    assert [file][..0] == [];
    assert Players.Concatenated([file]) == [] + Players.GroupsIn(file) == Players.GroupsIn(file);
  }

  /** What the on-device player sends to the device for the k-th step after opening a file. */
  function ReplayedStep(file: bytes, k: nat): seq<InputEvent> {
    Players.PlayedAll([Players.Start(file), Players.PlayStep(k, true)])[1]
  }

  /** What a packet is to the device: its records in order, a zero one with type 0 and any
      other with the type of the packet, and then a zero report at the last time. */
  predicate PlaysAs(played: seq<InputEvent>, p: Packet)
    requires p.recs != []
  {
    && |played| == |p.recs| + 1
    && (forall i :: 0 <= i < |p.recs| ==>
          var r := p.recs[i];
          played[i] == InputEvent(r.tv, if r.code == 0 && r.value == 0 then 0 else p.etype, r.code, r.value))
    && played[|p.recs|] == InputEvent(p.recs[|p.recs| - 1].tv, 0, 0, 0)
  }

  lemma {:induction false} PlaysWithReport(p: Packet)
    requires p.recs != []
    ensures var events := NormalisedAll(p.etype, p.recs); PlaysAs(events + [Players.Report(events)], p)
  {
    forall i | 0 <= i < |p.recs|
      ensures |NormalisedAll(p.etype, p.recs)| == |p.recs|
      ensures NormalisedAll(p.etype, p.recs)[i] == Normalised(p.etype, p.recs[i])
    {
      NormalisedAt(p.etype, p.recs, i);
    }
    NormalisedAt(p.etype, p.recs, |p.recs| - 1);
  }

  lemma {:induction false} EntryPlays(file: bytes, k: nat, device: u32, p: Packet)
    requires k < |Players.GroupsIn(file)| && Players.GroupsIn(file)[k] == EntryOf(GroupOf(device, p))
    ensures var events := NormalisedAll(p.etype, p.recs); ReplayedStep(file, k) == events + [Players.Report(events)]
  {
    StartAndStep(file, k);
  }

  /** The first n packets as the on-device reader gets them. */
  lemma {:induction false} FirstGroups(device: u32, all: seq<Packet>, n: nat, es: seq<Entry>)
    requires n <= |all| && es == NonEmpty(EntriesOf(Labelled(device, all[..n])))
    ensures var ps := WithRecords(all);
            && |es| <= |ps| && (n == |all| ==> |es| == |ps|)
            && es == EntriesOf(Labelled(device, ps[..|es|]))
  {
    NonEmptyGroups(device, all[..n]);
    WithRecordsPrefix(all, n);
    assert n == |all| ==> all[..n] == all;
    assert WithRecords(all[..n]) == WithRecords(all)[..|es|];
  }

  /** The groups the on-device reader keeps are the first of the packets of the recorded
      events that hold a record. */
  lemma {:induction false} GroupsOnDevice(polls: seq<Poll>, acts: seq<Pipeline.Action>, content: Filling, device: u32)
    requires RecorderRun(polls, acts, content, device)
    ensures AllFit(Sent(acts, content))
    ensures var file, ps := Filed(Sent(acts, content)), WithRecords(Recorded(Delivered(polls)).packets);
            && ParseOnDevice(file, MINUS_ONE, []).Some?
            && |Players.GroupsIn(file)| <= |ps| && (AllSent(polls, acts) ==> |Players.GroupsIn(file)| == |ps|)
            && Players.GroupsIn(file) == EntriesOf(Labelled(device, ps[..|Players.GroupsIn(file)|]))
  {
    RecordedAndFiled(polls, acts, content, device);
    var file := Filed(Sent(acts, content));
    IdleAddsNoRecords(polls);
    FirstGroups(device, ThreadRun(polls).o.packets, |GroupsSent(Sent(acts, content))|, Players.GroupsIn(file));
  }

  /** From the polls to the device again, whatever idle polls and captures come between: step
      k plays the k-th packet of the recorded events that holds a record, then a report. */
  lemma {:induction false} RecordedAndReplayed(
      polls: seq<Poll>, acts: seq<Pipeline.Action>, content: Filling, device: u32)
    requires RecorderRun(polls, acts, content, device)
    ensures AllFit(Sent(acts, content))
    ensures var file, ps := Filed(Sent(acts, content)), WithRecords(Recorded(Delivered(polls)).packets);
            && ParseOnDevice(file, MINUS_ONE, []).Some?
            && |Players.GroupsIn(file)| <= |ps| && (AllSent(polls, acts) ==> |Players.GroupsIn(file)| == |ps|)
            && forall k :: 0 <= k < |Players.GroupsIn(file)| ==>
                 var events := NormalisedAll(ps[k].etype, ps[k].recs);
                 && Players.GroupsIn(file)[k].id == device
                 && ReplayedStep(file, k) == events + [Players.Report(events)]
                 && ps[k].recs != [] && PlaysAs(ReplayedStep(file, k), ps[k])
  {
    GroupsOnDevice(polls, acts, content, device);
    var file, ps := Filed(Sent(acts, content)), WithRecords(Recorded(Delivered(polls)).packets);
    forall k | 0 <= k < |Players.GroupsIn(file)|
      ensures Players.GroupsIn(file)[k].id == device
      ensures var events := NormalisedAll(ps[k].etype, ps[k].recs);
              ReplayedStep(file, k) == events + [Players.Report(events)]
      ensures ps[k].recs != [] && PlaysAs(ReplayedStep(file, k), ps[k])
    {
      InWithRecords(Recorded(Delivered(polls)).packets, ps[k]);
      assert Players.GroupsIn(file)[k] == EntryOf(GroupOf(device, ps[k]));
      EntryPlays(file, k, device, ps[k]);
      PlaysWithReport(ps[k]);
    }
  }

  // -------------------------------------------------------- the kernel's account

  /** A legal and truthful recording has one packet per flushing key and per gesture; unmixed
      and without bare keys, none is empty and each replays as the events of its part of the
      kernel's account. */
  lemma {:induction false} KernelPackets(es: seq<InputEvent>)
    requires Legal(es) && Truthful(es) && Unmixed(es) && NoBareKey(es)
    ensures BoundedSlots(es)
    ensures var ps := Recorded(es).packets;
            && WithRecords(ps) == ps && |ps| == FlushingKeys(es) + Emptyings(es) < |Segments(KernelItems(es))|
            && forall k :: 0 <= k < |ps| ==>
                 NormalisedAll(ps[k].etype, ps[k].recs) == SourceEvents(Squeeze(Segments(KernelItems(es))[k]))
  {
    TruthfulIsSteady(es);
    PacketsCounted(es);
    TruthfulFollows(es);
    ReplayExact(es);
    RecordedNonEmpty(es);
    AllWithRecords(Recorded(es).packets);
  }

  /** The whole way round: a legal, truthful and unmixed stream, polled, recorded, sent among
      any screen captures, received, filed and played on the device, comes out packet by
      packet as the very events the kernel's account consists of. */
  lemma {:induction false} EventsComeBack(polls: seq<Poll>, acts: seq<Pipeline.Action>, content: Filling, device: u32)
    requires RecorderRun(polls, acts, content, device)
    requires Legal(Delivered(polls)) && Truthful(Delivered(polls))
    requires Unmixed(Delivered(polls)) && NoBareKey(Delivered(polls))
    ensures AllFit(Sent(acts, content))
    ensures var es, n := Delivered(polls), |Players.GroupsIn(Filed(Sent(acts, content)))|;
            && n <= FlushingKeys(es) + Emptyings(es) < |Segments(KernelItems(es))|
            && (AllSent(polls, acts) ==> n == FlushingKeys(es) + Emptyings(es))
            && forall k :: 0 <= k < n ==>
                 var events := SourceEvents(Squeeze(Segments(KernelItems(es))[k]));
                 ReplayedStep(Filed(Sent(acts, content)), k) == events + [Players.Report(events)]
  {
    RecordedAndReplayed(polls, acts, content, device);
    KernelPackets(Delivered(polls));
  }

  lemma {:induction false} TouchOnlyHasNoKeys(es: seq<InputEvent>)
    requires TouchOnly(es)
    ensures FlushingKeys(es) == 0 && NoBareKey(es)
  {
    if es != [] {
      assert es[|es| - 1] in es;
      TouchOnlyHasNoKeys(es[..|es| - 1]);
    }
  }

  /** Touches alone come back as one group per gesture, without the slots they were made in. */
  lemma {:induction false} TouchesComeBack(polls: seq<Poll>, acts: seq<Pipeline.Action>, content: Filling, device: u32)
    requires RecorderRun(polls, acts, content, device) && TouchOnly(Delivered(polls))
    requires Legal(Delivered(polls)) && Truthful(Delivered(polls))
    ensures AllFit(Sent(acts, content))
    ensures var es, n := Delivered(polls), |Players.GroupsIn(Filed(Sent(acts, content)))|;
            && n <= Emptyings(es) < |Segments(KernelItems(es))| && (AllSent(polls, acts) ==> n == Emptyings(es))
            && forall k :: 0 <= k < n ==>
                 var events := SourceEvents(Squeeze(Segments(KernelItems(es))[k]));
                 ReplayedStep(Filed(Sent(acts, content)), k) == events + [Players.Report(events)]
  {
    TouchOnlyHasNoKeys(Delivered(polls));
    TouchOnlyUnmixed(Delivered(polls));
    EventsComeBack(polls, acts, content, device);
  }

  /** All that the on-device player writes for the first n steps after opening a file. */
  function PlayedThrough(file: bytes, n: nat): seq<InputEvent> {
    if n == 0 then [] else PlayedThrough(file, n - 1) + ReplayedStep(file, n - 1)
  }

  lemma {:induction false} PlaysPackets(file: bytes, ps: seq<Packet>)
    requires forall k :: 0 <= k < |ps| ==>
               var events := NormalisedAll(ps[k].etype, ps[k].recs);
               ReplayedStep(file, k) == events + [Players.Report(events)]
    ensures PlayedThrough(file, |ps|) == Replayed(ps)
  {
    if ps != [] {
      PlaysPackets(file, ps[..|ps| - 1]);
    }
  }

  /** A complete recording of touches, played step by step, is what protocol B allows if and
      only if its contacts came one at a time: slots are neither recorded nor replayed. */
  lemma {:induction false} TouchesReplayLegally(
      polls: seq<Poll>, acts: seq<Pipeline.Action>, content: Filling, device: u32)
    requires RecorderRun(polls, acts, content, device) && AllSent(polls, acts) && TouchOnly(Delivered(polls))
    requires Legal(Delivered(polls)) && Truthful(Delivered(polls))
    ensures AllFit(Sent(acts, content))
    ensures var file := Filed(Sent(acts, content));
            Legal(PlayedThrough(file, |Players.GroupsIn(file)|)) <==> Solo(Rested(Delivered(polls)))
  {
    var es := Delivered(polls);
    RecordedAndReplayed(polls, acts, content, device);
    TouchOnlyHasNoKeys(es);
    TouchOnlyUnmixed(es);
    KernelPackets(es);
    PlaysPackets(Filed(Sent(acts, content)), Recorded(es).packets);
    ReplayLegalExactly(es);
  }

  // -------------------------------------------------------------- a run for every input

  /** The groups as packets, in buffers numbered from 0. */
  function Numbered(gs: seq<Group>): Filling {
    (b: Pipeline.Buffer) =>
      if b < |gs| then EventPacket(Timeval(0, 0), gs[b].etype, gs[b].devId, gs[b].recs)
      else EventPacket(Timeval(0, 0), EV_SYN, 0, [])
  }

  /** A run of the groups to state s, n of them pushed. */
  predicate Reaches(acts: seq<Pipeline.Action>, gs: seq<Group>, n: nat, s: Pipeline.State) {
    Fills(acts, Numbered(gs), gs) && EventsPushed(acts) == n && Pipeline.Run(acts) == s
  }

  lemma Act(acts: seq<Pipeline.Action>, a: Pipeline.Action, gs: seq<Group>, n: nat, s: Pipeline.State)
    returns (r: seq<Pipeline.Action>)
    requires Reaches(acts, gs, n, s) && PushedBy(s, a) == []
    ensures Reaches(r, gs, n, Pipeline.Step(s, a))
  {
    r := acts + [a];
    assert r[..|acts|] == acts;
  }

  lemma EventAct(acts: seq<Pipeline.Action>, gs: seq<Group>, n: nat, s: Pipeline.State)
    returns (r: seq<Pipeline.Action>)
    requires Reaches(acts, gs, n, s) && !s.ev.EPush?
    ensures Reaches(r, gs, n, Pipeline.EventStep(s, true))
  {
    r := Act(acts, Pipeline.Event(true), gs, n, s);
  }

  lemma SendAct(acts: seq<Pipeline.Action>, gs: seq<Group>, n: nat, s: Pipeline.State) returns (r: seq<Pipeline.Action>)
    requires Reaches(acts, gs, n, s)
    ensures Reaches(r, gs, n, Pipeline.SenderStep(s, true))
  {
    r := Act(acts, Pipeline.Send(true), gs, n, s);
  }

  /** The first n groups are sent, and nothing is under way. */
  predicate Through(s: Pipeline.State, n: nat) {
    && s.running && s.recording && s.ev == Pipeline.ETop && s.snd == Pipeline.DTop && s.io.queue == []
    && s.next == n && s.io.sent == s.io.pushed && forall b :: b in s.io.pushed ==> b < n
  }

  lemma {:induction false} CheckQueue(acts: seq<Pipeline.Action>, gs: seq<Group>, n: nat, s: Pipeline.State)
    returns (r: seq<Pipeline.Action>)
    requires Reaches(acts, gs, n, s) && s.running && s.recording && s.ev == Pipeline.ETop
    ensures Reaches(r, gs, n, s.(ev := Pipeline.ECheck))
  {
    r := EventAct(acts, gs, n, s);
    r := EventAct(r, gs, n, s.(ev := Pipeline.EMode));
  }

  /** The event thread goes once around and builds the next packet. */
  lemma {:induction false} BuildNext(acts: seq<Pipeline.Action>, gs: seq<Group>, n: nat, s: Pipeline.State)
    returns (r: seq<Pipeline.Action>)
    requires Reaches(acts, gs, n, s) && Through(s, n)
    ensures Reaches(r, gs, n, s.(ev := Pipeline.EPush(n, false), next := n + 1))
  {
    r := CheckQueue(acts, gs, n, s);
    r := EventAct(r, gs, n, s.(ev := Pipeline.ECheck));
    r := EventAct(r, gs, n, s.(ev := Pipeline.EGet(false)));
  }

  lemma {:induction false} PushNext(acts: seq<Pipeline.Action>, gs: seq<Group>, n: nat, s: Pipeline.State)
    returns (r: seq<Pipeline.Action>)
    requires Reaches(acts, gs, n, s) && n < |gs| && s.ev == Pipeline.EPush(n, false)
    ensures Reaches(r, gs, n + 1, s.(ev := Pipeline.ETop, io := Pipeline.Enqueue(s, n)))
  {
    r := acts + [Pipeline.Event(true)];
    assert r[..|acts|] == acts;
    OneGroup(Numbered(gs)(n));
  }

  lemma {:induction false} TakeNext(acts: seq<Pipeline.Action>, gs: seq<Group>, n: nat, s: Pipeline.State)
    returns (r: seq<Pipeline.Action>)
    requires Reaches(acts, gs, n, s) && s.running && s.snd == Pipeline.DTop && |s.io.queue| == 1
    ensures var b, io := s.io.queue[0], s.io;
            Reaches(r, gs, n, s.(snd := Pipeline.DSend(b), io := io.(queue := [], popped := io.popped + [b])))
  {
    assert s.io.queue[1..] == [];
    r := SendAct(acts, gs, n, s);
    r := SendAct(r, gs, n, s.(snd := Pipeline.DPop));
  }

  /** The sender takes, sends and frees it. */
  lemma {:induction false} SendNext(acts: seq<Pipeline.Action>, gs: seq<Group>, n: nat, s: Pipeline.State)
    returns (r: seq<Pipeline.Action>)
    requires Reaches(acts, gs, n, s) && s.running && s.snd == Pipeline.DTop && |s.io.queue| == 1
    ensures var b, io := s.io.queue[0], s.io;
            Reaches(r, gs, n, s.(io := io.(queue := [], popped := io.popped + [b], sent := io.sent + [b],
                                           freed := io.freed + [b])))
  {
    var io := s.io;
    var b := io.queue[0];
    var taken := io.(queue := [], popped := io.popped + [b]);
    r := TakeNext(acts, gs, n, s);
    r := SendAct(r, gs, n, s.(snd := Pipeline.DSend(b), io := taken));
    r := SendAct(r, gs, n, s.(snd := Pipeline.DFree(b), io := taken.(sent := io.sent + [b])));
  }

  /** One more group, from the poll that ends it to the end of its transmission. */
  lemma {:induction false} OneMore(acts: seq<Pipeline.Action>, gs: seq<Group>, n: nat, s: Pipeline.State)
    returns (r: seq<Pipeline.Action>, t: Pipeline.State)
    requires Reaches(acts, gs, n, s) && Through(s, n) && n < |gs|
    ensures Reaches(r, gs, n + 1, t) && Through(t, n + 1)
  {
    r := BuildNext(acts, gs, n, s);
    t := s.(ev := Pipeline.EPush(n, false), next := n + 1);
    r := PushNext(r, gs, n, t);
    t := t.(ev := Pipeline.ETop, io := Pipeline.Enqueue(t, n));
    r := SendNext(r, gs, n + 1, t);
    var io := t.io;
    t := t.(io := io.(queue := [], popped := io.popped + [n], sent := io.sent + [n], freed := io.freed + [n]));
  }

  lemma {:induction false} SendFirst(gs: seq<Group>, n: nat) returns (acts: seq<Pipeline.Action>, s: Pipeline.State)
    requires n <= |gs|
    ensures Reaches(acts, gs, n, s) && Through(s, n)
  {
    if n == 0 {
      acts, s := [], Pipeline.START;
      acts := Act(acts, Pipeline.Receive(Pipeline.Other), gs, 0, s);
      s := s.(rcv := Pipeline.RReceive);
      acts := Act(acts, Pipeline.Receive(Pipeline.RecordStart), gs, 0, s);
      s := s.(rcv := Pipeline.RTop, recording := true);
    } else {
      acts, s := SendFirst(gs, n - 1);
      acts, s := OneMore(acts, gs, n - 1, s);
    }
  }

  /** Whatever the polls bring, some run of the threads sends all of it. */
  lemma {:induction false} SomeRunSendsAll(polls: seq<Poll>, device: u32)
    requires BoundedPolls(polls) && NoTokens(Delivered(polls))
    requires forall p :: p in ThreadRun(polls).o.packets ==> HEADER_LEN + BODY_LEN + ROW_LEN * |p.recs| < TWO_32
    ensures exists acts, content :: RecorderRun(polls, acts, content, device) && AllSent(polls, acts)
  {
    var ps := ThreadRun(polls).o.packets;
    var gs := Labelled(device, ps);
    var acts, s := SendFirst(gs, |gs|);
    var pushed := s.io.pushed;
    forall p | p in Contents(pushed, Numbered(gs))
      ensures Fits(p) && Distinguishable(p)
    {
      var i :| 0 <= i < |pushed| && Contents(pushed, Numbered(gs))[i] == p;
      assert pushed[i] in pushed && ps[pushed[i]] in ps;
    }
    assert RecorderRun(polls, acts, Numbered(gs), device) && AllSent(polls, acts);
  }
}
