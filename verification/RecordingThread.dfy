/** The `get_event` thread of main.cpp, poll by poll.

    `event_getter::get_event` reports a finished packet by setting a pointer that the
    thread keeps across turns, and an idle poll leaves the pointer as it was.  The thread
    also prints the first record of each packet (evtCap/jni/main.cpp:294-301); a packet with
    no record has no arrays to print from, and what is said of such packets here is what
    follows with that output compiled out. */
module RecordingThread {
  import opened Words
  import opened Recorder
  import opened Session
  import opened Recording
  import opened Fidelity

  /** Outcome of one poll of the device: nothing to read, or one event. */
  datatype Poll = Idle | Ready(e: InputEvent)

  /** `evt` is the thread's pointer: whether it is non-null. */
  datatype Turn = Turn(o: Session, evt: bool)

  predicate BoundedPolls(ps: seq<Poll>) {
    BoundedSlots(Delivered(ps))
  }

  /** The events the polls brought in. */
  function Delivered(ps: seq<Poll>): seq<InputEvent> {
    if ps == [] then []
    else Delivered(ps[..|ps| - 1]) + if ps[|ps| - 1].Ready? then [ps[|ps| - 1].e] else []
  }

  function TurnStep(t: Turn, p: Poll): (r: Turn)
    requires WellFormed(t.o.st) && (p.Ready? && IsSlot(p.e) ==> p.e.value < ID_MAP_SIZE)
    ensures WellFormed(r.o.st)
  {
    match p
    case Ready(e) => Turn(Deliver(t.o, e), Step(t.o.st, e).1 == End)
    case Idle =>
      if t.evt then Turn(Session(t.o.st.(recs := []), t.o.packets + [Packet(t.o.st.etype, t.o.st.recs)]), true)
      else t
  }

  lemma BoundedPrefix(ps: seq<Poll>)
    requires ps != [] && BoundedPolls(ps)
    ensures BoundedPolls(ps[..|ps| - 1])
    ensures ps[|ps| - 1].Ready? && IsSlot(ps[|ps| - 1].e) ==> ps[|ps| - 1].e.value < ID_MAP_SIZE
  {
    var pre := Delivered(ps[..|ps| - 1]);
    assert forall e :: e in pre ==> e in Delivered(ps);
    if ps[|ps| - 1].Ready? {
      assert Delivered(ps)[|pre|] == ps[|ps| - 1].e;
    }
  }

  function ThreadRun(ps: seq<Poll>): (t: Turn)
    requires BoundedPolls(ps)
    ensures WellFormed(t.o.st)
  {
    if ps == [] then Turn(Session(INITIAL, []), false)
    else
      BoundedPrefix(ps);
      TurnStep(ThreadRun(ps[..|ps| - 1]), ps[|ps| - 1])
  }

  /** Whether the last event of a stream ends a packet. */
  predicate EndsPacket(es: seq<InputEvent>)
    requires BoundedSlots(es)
  {
    es != [] && Step(Recorded(es[..|es| - 1]).st, es[|es| - 1]).1 == End
  }

  /** The idle polls that come while the last event delivered was one that ended a packet. */
  function IdleAfterEnd(ps: seq<Poll>): nat
    requires BoundedPolls(ps)
  {
    if ps == [] then 0
    else
      BoundedPrefix(ps);
      var pre := ps[..|ps| - 1];
      IdleAfterEnd(pre) + if ps[|ps| - 1].Idle? && EndsPacket(Delivered(pre)) then 1 else 0
  }

  lemma {:induction false} StepKeepsBuffer(ps: seq<Poll>)
    requires BoundedPolls(ps)
    ensures var t, o := ThreadRun(ps), Recorded(Delivered(ps));
            && t.o.st == o.st
            && (t.evt <==> EndsPacket(Delivered(ps)))
            && (t.evt ==> t.o.st.recs == [])
            && |t.o.packets| == |o.packets| + IdleAfterEnd(ps)
            && Flatten(t.o.packets) == Flatten(o.packets)
            && (IdleAfterEnd(ps) == 0 ==> t.o.packets == o.packets)
  {
    if ps != [] {
      BoundedPrefix(ps);
      var pre, p := ps[..|ps| - 1], ps[|ps| - 1];
      StepKeepsBuffer(pre);
      var t, o := ThreadRun(pre), Recorded(Delivered(pre));
      if p.Ready? {
        var es := Delivered(ps);
        assert es[..|es| - 1] == Delivered(pre) && es[|es| - 1] == p.e;
        if EndsPacket(es) {
          var st := Step(o.st, p.e).0;
          FlattenSnoc(t.o.packets, Packet(st.etype, st.recs));
          FlattenSnoc(o.packets, Packet(st.etype, st.recs));
        }
      } else {
        assert Delivered(ps) == Delivered(pre) + [] == Delivered(pre);
        if t.evt {
          FlattenSnoc(t.o.packets, Packet(t.o.st.etype, []));
          assert Flatten(t.o.packets) + [] == Flatten(t.o.packets);
        }
      }
    }
  }

  /** The packets handed on are those of the delivered events and nothing else exactly
      when no idle poll directly follows the end of a packet; each one that does adds an
      empty packet, and none loses a record. */
  lemma {:induction false} IdlePollsExact(ps: seq<Poll>)
    requires BoundedPolls(ps)
    ensures ThreadRun(ps).o.packets == Recorded(Delivered(ps)).packets <==> IdleAfterEnd(ps) == 0
    ensures |ThreadRun(ps).o.packets| == |Recorded(Delivered(ps)).packets| + IdleAfterEnd(ps)
    ensures Output(ThreadRun(ps).o) == Output(Recorded(Delivered(ps)))
  {
    StepKeepsBuffer(ps);
  }

  // -------------------------------------------------------------- empty packets

  /** No key of code 0 ends a packet before a touch or a BTN_TOUCH has been recorded for it:
      on the empty buffer such a key is dropped like a SYN_REPORT. */
  predicate NoBareKey(es: seq<InputEvent>) {
    es == [] ||
    (var pre, e := es[..|es| - 1], es[|es| - 1];
     && NoBareKey(pre)
     && (IsFlushingKey(e) && e.code == SYN_REPORT ==> MixRun(pre).touch || MixRun(pre).button))
  }

  /** The buffer is empty exactly when no touch and no BTN_TOUCH has been recorded since the
      last packet ended. */
  lemma {:induction false} BufferEmptyExactly(es: seq<InputEvent>)
    requires BoundedSlots(es)
    ensures Recorded(es).st.recs == [] <==> !MixRun(es).touch && !MixRun(es).button
  {
    RecordingConserves(es);
    MixExact(es);
    OutputCompact(es);
    var q := Pending(Items(es));
    assert Recorded(es).st.recs == Strip(q);
    if q != [] {
      assert q[0] in q && q[0].r.code != SYN_REPORT;
    }
  }

  predicate AllNonEmpty(ps: seq<Packet>) {
    forall p :: p in ps ==> p.recs != []
  }

  lemma SnocNonEmpty(ps: seq<Packet>, p: Packet)
    ensures AllNonEmpty(ps + [p]) <==> AllNonEmpty(ps) && p.recs != []
  {
    assert forall x :: x in ps + [p] <==> x in ps || x == p;
  }

  /** An event that ends a packet leaves it empty only as a key of code 0 on the empty buffer. */
  lemma {:induction false} EndsEmpty(s: State, e: InputEvent)
    requires WellFormed(s) && Step(s, e).1 == End
    ensures Step(s, e).0.recs == [] <==> IsFlushingKey(e) && e.code == SYN_REPORT && s.recs == []
  {
  }

  lemma NoEndNoKey(s: State, e: InputEvent)
    requires WellFormed(s) && Step(s, e).1 != End
    ensures !IsFlushingKey(e)
  {
  }

  lemma {:induction false} DeliveredNonEmpty(o: Session, e: InputEvent)
    requires WellFormed(o.st) && (IsSlot(e) ==> e.value < ID_MAP_SIZE)
    ensures AllNonEmpty(Deliver(o, e).packets) <==>
            AllNonEmpty(o.packets) && !(IsFlushingKey(e) && e.code == SYN_REPORT && o.st.recs == [])
  {
    var (st, v) := Step(o.st, e);
    if v == End {
      EndsEmpty(o.st, e);
      SnocNonEmpty(o.packets, Packet(st.etype, st.recs));
    } else {
      NoEndNoKey(o.st, e);
    }
  }

  lemma {:induction false} RecordedNonEmpty(es: seq<InputEvent>)
    requires BoundedSlots(es)
    ensures AllNonEmpty(Recorded(es).packets) <==> NoBareKey(es)
  {
    if es != [] {
      var pre, e := es[..|es| - 1], es[|es| - 1];
      RecordedNonEmpty(pre);
      BufferEmptyExactly(pre);
      DeliveredNonEmpty(Recorded(pre), e);
    }
  }

  /** The packets that hold a record. */
  function WithRecords(ps: seq<Packet>): seq<Packet> {
    if ps == [] then []
    else WithRecords(ps[..|ps| - 1]) + if ps[|ps| - 1].recs == [] then [] else [ps[|ps| - 1]]
  }

  lemma WithRecordsSnoc(ps: seq<Packet>, p: Packet)
    ensures WithRecords(ps + [p]) == WithRecords(ps) + if p.recs == [] then [] else [p]
  {
    assert (ps + [p])[..|ps|] == ps;
  }

  lemma {:induction false} AllWithRecords(ps: seq<Packet>)
    ensures AllNonEmpty(WithRecords(ps))
    ensures AllNonEmpty(ps) ==> WithRecords(ps) == ps
  {
    if ps != [] {
      AllWithRecords(ps[..|ps| - 1]);
      SnocNonEmpty(ps[..|ps| - 1], ps[|ps| - 1]);
      SnocNonEmpty(WithRecords(ps[..|ps| - 1]), ps[|ps| - 1]);
      assert ps == ps[..|ps| - 1] + [ps[|ps| - 1]];
    }
  }

  /** The thread's packets `t` against those of the events, after `idle` idle polls. */
  predicate SameRecords(t: seq<Packet>, o: seq<Packet>, idle: nat) {
    WithRecords(t) == WithRecords(o) && (AllNonEmpty(t) <==> idle == 0 && AllNonEmpty(o))
  }

  lemma SamePush(t: seq<Packet>, o: seq<Packet>, idle: nat, p: Packet)
    requires SameRecords(t, o, idle)
    ensures SameRecords(t + [p], o + [p], idle)
    ensures p.recs == [] ==> SameRecords(t + [p], o, idle + 1)
  {
    WithRecordsSnoc(t, p);
    WithRecordsSnoc(o, p);
    SnocNonEmpty(t, p);
    SnocNonEmpty(o, p);
  }

  lemma SameTurn(t: Turn, o: Session, idle: nat, p: Poll)
    requires WellFormed(t.o.st) && t.o.st == o.st && (t.evt ==> t.o.st.recs == [])
    requires p.Ready? && IsSlot(p.e) ==> p.e.value < ID_MAP_SIZE
    requires SameRecords(t.o.packets, o.packets, idle)
    ensures p.Ready? ==> SameRecords(TurnStep(t, p).o.packets, Deliver(o, p.e).packets, idle)
    ensures p.Idle? ==> SameRecords(TurnStep(t, p).o.packets, o.packets, idle + if t.evt then 1 else 0)
  {
    match p {
      case Ready(e) =>
        var st := Step(o.st, e).0;
        SamePush(t.o.packets, o.packets, idle, Packet(st.etype, st.recs));
      case Idle =>
        SamePush(t.o.packets, o.packets, idle, Packet(t.o.st.etype, t.o.st.recs));
    }
  }

  /** Idle polls add nothing to the packets that hold a record. */
  lemma {:induction false} IdleAddsNoRecords(ps: seq<Poll>)
    requires BoundedPolls(ps)
    ensures SameRecords(ThreadRun(ps).o.packets, Recorded(Delivered(ps)).packets, IdleAfterEnd(ps))
  {
    if ps != [] {
      BoundedPrefix(ps);
      var pre, p := ps[..|ps| - 1], ps[|ps| - 1];
      IdleAddsNoRecords(pre);
      StepKeepsBuffer(pre);
      SameTurn(ThreadRun(pre), Recorded(Delivered(pre)), IdleAfterEnd(pre), p);
      var es := Delivered(ps);
      if p.Ready? {
        assert es[..|es| - 1] == Delivered(pre) && es[|es| - 1] == p.e;
      } else {
        assert es == Delivered(pre) + [] == Delivered(pre);
      }
    }
  }

  /** The debug output of the thread reads the first record of every packet.  It finds one
      each time if and only if no idle poll directly follows the end of a packet and no key
      of code 0 meets the empty buffer. */
  lemma {:induction false} PacketsHaveRecords(ps: seq<Poll>)
    requires BoundedPolls(ps)
    ensures AllNonEmpty(ThreadRun(ps).o.packets) <==> IdleAfterEnd(ps) == 0 && NoBareKey(Delivered(ps))
  {
    IdleAddsNoRecords(ps);
    RecordedNonEmpty(Delivered(ps));
  }

  /** `event_getter::get_event` for one device: the new value of the caller's pointer. */
  method GetEvent(eg: EventGetter, p: Poll, evt: bool, device: u32) returns (evt': bool)
    requires eg.Valid() && WellFormed(eg.Model())
    modifies eg, eg.ei, eg.idMap, eg.idMap.pair
    ensures eg.Valid()
    ensures p.Idle? ==> eg.Model() == old(eg.Model()) && evt' == evt
    ensures p.Ready? ==> (eg.Model(), evt') == (Step(old(eg.Model()), p.e).0, Step(old(eg.Model()), p.e).1 == End)
    ensures eg.ei.devId == if p.Ready? && evt' then device else old(eg.ei.devId)
  {
    evt' := evt;
    match p {
      case Idle =>
      case Ready(e) =>
        var v := eg.ParseEvent(e);
        if v == End {
          eg.ei.SetDevId(device);
          evt' := true;
        } else {
          evt' := false;
        }
    }
  }

  /** One turn of the thread: the new pointer, and the packet pushed if there is one. */
  method TakeTurn(eg: EventGetter, p: Poll, evt: bool, device: u32, pushed: seq<Packet>)
    returns (evt': bool, pushed': seq<Packet>)
    requires eg.Valid() && WellFormed(eg.Model()) && (p.Ready? && IsSlot(p.e) ==> p.e.value < ID_MAP_SIZE)
    modifies eg, eg.ei, eg.idMap, eg.idMap.pair
    ensures eg.Valid()
    ensures Turn(Session(eg.Model(), pushed'), evt') == TurnStep(Turn(Session(old(eg.Model()), pushed), evt), p)
  {
    pushed' := pushed;
    evt' := GetEvent(eg, p, evt, device);
    if evt' {
      var recs := Rows(eg.ei);
      pushed' := pushed + [Packet(eg.ei.eventType, recs)];
      eg.ei.Clear();
    }
  }

  /** The loop of the thread over a finite run of polls; the result is what it pushes. */
  method GetEvents(polls: seq<Poll>, device: u32) returns (pushed: seq<Packet>)
    requires BoundedPolls(polls)
    ensures pushed == ThreadRun(polls).o.packets
  {
    var eg := new EventGetter();
    var evt := false;
    pushed := [];
    var i := 0;
    while i < |polls|
      invariant 0 <= i <= |polls|
      invariant fresh(eg) && fresh(eg.ei) && fresh(eg.idMap) && fresh(eg.idMap.pair)
      invariant eg.Valid()
      invariant BoundedPolls(polls[..i]) && Turn(Session(eg.Model(), pushed), evt) == ThreadRun(polls[..i])
    {
      BoundedTake(polls, i + 1);
      assert polls[..i + 1][..i] == polls[..i];
      BoundedPrefix(polls[..i + 1]);
      evt, pushed := TakeTurn(eg, polls[i], evt, device, pushed);
      i := i + 1;
    }
    assert polls[..i] == polls;
  }

  lemma BoundedTake(ps: seq<Poll>, n: nat)
    requires n <= |ps| && BoundedPolls(ps)
    ensures BoundedPolls(ps[..n])
    decreases |ps|
  {
    if n < |ps| {
      BoundedPrefix(ps);
      BoundedTake(ps[..|ps| - 1], n);
      assert ps[..|ps| - 1][..n] == ps[..n];
    } else {
      assert ps[..n] == ps;
    }
  }

  /** Reads the four parallel arrays row by row. */
  method Rows(ei: EventInfo) returns (rs: seq<Record>)
    requires ei.Valid()
    ensures rs == ei.Records()
  {
    rs := [];
    for i := 0 to ei.count
      invariant rs == ei.Records()[..i]
    {
      rs := rs + [Record(ei.tv[i], ei.id[i], ei.code[i], ei.value[i])];
    }
  }
}
