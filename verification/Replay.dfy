/** What a replay does to the kernel it is written to.

    ABS_MT_SLOT events move the recorder's cursor and are not recorded, so a replay names no
    slot and all its contacts go to slot 0.  This module proves exactly when that is still
    what protocol B allows. */
module Replay {
  import opened Words
  import opened Recorder
  import opened Session
  import opened Tracking
  import opened Recording
  import opened Account
  import opened Bracketing
  import opened Fidelity
  import opened EventFile
  import Players

  // ------------------------------------------------------- streams without slots

  /** The contacts and lifts of a stream. */
  function Trackings(es: seq<InputEvent>): seq<InputEvent> {
    if es == [] then []
    else Trackings(es[..|es| - 1]) + if IsTracking(es[|es| - 1]) then [es[|es| - 1]] else []
  }

  predicate NamesNoSlot(es: seq<InputEvent>) {
    forall e :: e in es ==> !IsSlot(e)
  }

  lemma TrackingsSnoc(es: seq<InputEvent>, e: InputEvent)
    ensures Trackings(es + [e]) == Trackings(es) + if IsTracking(e) then [e] else []
  {
    assert (es + [e])[..|es|] == es;
  }

  lemma {:induction false} TrackingsAppend(a: seq<InputEvent>, b: seq<InputEvent>)
    ensures Trackings(a + b) == Trackings(a) + Trackings(b)
  {
    if b == [] {
      assert a + b == a;
    } else {
      var front, e := b[..|b| - 1], b[|b| - 1];
      TrackingsAppend(a, front);
      assert a + b == a + front + [e];
      TrackingsSnoc(a + front, e);
    }
  }

  lemma LegalSnoc(es: seq<InputEvent>, e: InputEvent)
    ensures Legal(es + [e]) <==> Legal(es) && LegalEvent(KernelRun(es), e)
    ensures KernelRun(es + [e]) == KernelStep(KernelRun(es), e)
  {
    assert (es + [e])[..|es|] == es;
  }

  /** Without slots only contacts and lifts matter to the kernel, and all go to slot 0. */
  lemma {:induction false} OnlyTrackings(es: seq<InputEvent>)
    requires NamesNoSlot(es)
    ensures Legal(es) <==> Legal(Trackings(es))
    ensures KernelRun(es) == KernelRun(Trackings(es))
    ensures KernelRun(es).cursor == 0 && KernelRun(es).live.Keys <= {0}
  {
    if es != [] {
      var pre, e := es[..|es| - 1], es[|es| - 1];
      assert e in es;
      OnlyTrackings(pre);
      LegalSnoc(Trackings(pre), e);
      assert Trackings(pre) + [] == Trackings(pre);
    }
  }

  // ------------------------------------------------------------- one at a time

  /** The contacts and lifts of a stream that are recorded: all but repeats. */
  function Spoken(es: seq<InputEvent>): seq<InputEvent> {
    if es == [] then []
    else
      var pre, e := es[..|es| - 1], es[|es| - 1];
      Spoken(pre) + if IsTracking(e) && !IsRepeat(KernelRun(pre), e) then [e] else []
  }

  /** At no time was more than one contact down. */
  predicate Solo(es: seq<InputEvent>) {
    |KernelRun(es).live| <= 1 && (es == [] || Solo(es[..|es| - 1]))
  }

  lemma {:induction false} SpokenNamesNoSlot(es: seq<InputEvent>)
    ensures NamesNoSlot(Spoken(es))
  {
    if es != [] {
      SpokenNamesNoSlot(es[..|es| - 1]);
    }
  }

  lemma SoleKey(m: map<u32, u32>, c: u32)
    requires |m| <= 1 && c in m
    ensures m == map[c := m[c]] && m.Values == {m[c]}
  {
    assert |m.Keys - {c}| == 0;
    assert m.Keys == {c};
  }

  /** Contacts that come one at a time are followed without their slots: the same contact is
      down after every event. */
  lemma {:induction false} SoloFollowed(es: seq<InputEvent>)
    requires Legal(es) && Solo(es)
    ensures Legal(Spoken(es)) && KernelRun(Spoken(es)).live.Values == KernelRun(es).live.Values
  {
    if es != [] {
      var pre, e := es[..|es| - 1], es[|es| - 1];
      var k := KernelRun(pre);
      SoloFollowed(pre);
      SpokenNamesNoSlot(pre);
      OnlyTrackings(Spoken(pre));
      SoloStep(k, KernelRun(Spoken(pre)), e);
      LegalSnoc(Spoken(pre), e);
      assert Spoken(pre) + [] == Spoken(pre);
    }
  }

  lemma {:induction false} SoloStep(k: Kernel, r: Kernel, e: InputEvent)
    requires LegalEvent(k, e) && |k.live| <= 1 && |KernelStep(k, e).live| <= 1
    requires r.cursor == 0 && r.live.Keys <= {0} && r.live.Values == k.live.Values
    ensures IsTracking(e) && !IsRepeat(k, e) ==>
              LegalEvent(r, e) && KernelStep(r, e).live.Values == KernelStep(k, e).live.Values
    ensures !IsTracking(e) || IsRepeat(k, e) ==> KernelStep(k, e).live.Values == k.live.Values
  {
    var k' := KernelStep(k, e);
    if k.cursor in k.live {
      SoleKey(k.live, k.cursor);
      assert k.live[k.cursor] in r.live.Values;
      assert 0 in r.live;
      assert r.live == map[0 := r.live[0]];
    }
    if IsContact(e) {
      SoleKey(k'.live, k.cursor);
      assert r.live[0 := e.value] == map[0 := e.value];
    } else if IsLift(e) {
      assert k'.live == map[] && r.live - {0} == map[];
    }
  }

  /** Contacts less lifts. */
  function Balance(es: seq<InputEvent>): int {
    if es == [] then 0
    else
      var e := es[|es| - 1];
      Balance(es[..|es| - 1]) + if IsLift(e) then -1 else if IsContact(e) then 1 else 0
  }

  /** Where no slot is named, each contact that takes another's place is one too many for
      good. */
  lemma {:induction false} BalanceGrows(es: seq<InputEvent>, e: InputEvent)
    requires NamesNoSlot(es) && IsTracking(e) && Legal(es + [e])
    ensures Legal(es)
    ensures Balance(es + [e]) - |KernelRun(es + [e]).live| >= Balance(es) - |KernelRun(es).live|
  {
    LegalSnoc(es, e);
    assert (es + [e])[..|es|] == es;
    var k := KernelRun(es);
    if IsLift(e) {
      RemovedOne(k.live, k.cursor);
    } else {
      AddedOne(k.live, k.cursor, e.value);
    }
  }

  lemma {:induction false} BalanceNotBelow(es: seq<InputEvent>)
    requires NamesNoSlot(es) && Legal(es)
    ensures Balance(es) >= |KernelRun(es).live|
  {
    if es != [] {
      var pre, e := es[..|es| - 1], es[|es| - 1];
      assert e in es;
      BalanceNotBelow(pre);
      if IsTracking(e) {
        assert pre + [e] == es;
        BalanceGrows(pre, e);
      }
    }
  }

  lemma {:induction false} SpokenBalance(es: seq<InputEvent>)
    requires Legal(es) && Unreplaced(es)
    ensures Balance(Spoken(es)) == |KernelRun(es).live|
  {
    if es != [] {
      var pre, e := es[..|es| - 1], es[|es| - 1];
      var k := KernelRun(pre);
      SpokenBalance(pre);
      assert (Spoken(pre) + [e])[..|Spoken(pre)|] == Spoken(pre);
      assert Spoken(pre) + [] == Spoken(pre);
      if IsLift(e) {
        RemovedOne(k.live, k.cursor);
      } else if IsContact(e) {
        AddedOne(k.live, k.cursor, e.value);
      }
    }
  }

  lemma {:induction false} BalancedIsSolo(es: seq<InputEvent>)
    requires Legal(es) && Unreplaced(es) && Legal(Spoken(es))
    requires Balance(Spoken(es)) == |KernelRun(Spoken(es)).live|
    ensures Solo(es)
  {
    SpokenBalance(es);
    SpokenNamesNoSlot(es);
    OnlyTrackings(Spoken(es));
    SubsetSize(KernelRun(Spoken(es)).live.Keys, {0});
    if es != [] {
      var pre, e := es[..|es| - 1], es[|es| - 1];
      SpokenNamesNoSlot(pre);
      if IsTracking(e) && !IsRepeat(KernelRun(pre), e) {
        BalanceGrows(Spoken(pre), e);
      } else {
        assert Spoken(es) == Spoken(pre) + [] == Spoken(pre);
      }
      BalanceNotBelow(Spoken(pre));
      BalancedIsSolo(pre);
    }
  }

  /** A stream that ends with no contact down is legal without its slots if and only if its
      contacts come one at a time. */
  lemma {:induction false} SpokenLegal(es: seq<InputEvent>)
    requires Legal(es) && Unreplaced(es) && KernelRun(es).live == map[]
    ensures Legal(Spoken(es)) <==> Solo(es)
  {
    if Solo(es) {
      SoloFollowed(es);
    }
    if Legal(Spoken(es)) {
      SpokenBalance(es);
      SpokenNamesNoSlot(es);
      BalanceNotBelow(Spoken(es));
      BalancedIsSolo(es);
    }
  }

  // ---------------------------------------------------------------- the replay

  /** All that is written to the device for some packets, played in order. */
  function Replayed(ps: seq<Packet>): seq<InputEvent> {
    if ps == [] then []
    else
      var p := ps[|ps| - 1];
      var events := NormalisedAll(p.etype, p.recs);
      Replayed(ps[..|ps| - 1]) + (events + [Players.Report(events)])
  }

  /** The same with the records still in the buffer. */
  function Told(ps: seq<Packet>, recs: seq<Record>): seq<InputEvent> {
    Trackings(Replayed(ps)) + Trackings(NormalisedAll(EV_ABS, recs))
  }

  lemma {:induction false} NormalisedSnoc(etype: u16, recs: seq<Record>, r: Record)
    ensures NormalisedAll(etype, recs + [r]) == NormalisedAll(etype, recs) + [Normalised(etype, r)]
  {
    if recs == [] {
      assert [r][1..] == [];
    } else {
      NormalisedSnoc(etype, recs[1..], r);
      assert (recs + [r])[1..] == recs[1..] + [r];
    }
  }

  lemma ToldRecord(ps: seq<Packet>, recs: seq<Record>, r: Record)
    ensures Told(ps, recs + [r]) ==
            Told(ps, recs) + if r.code == ABS_MT_TRACKING_ID then [Normalised(EV_ABS, r)] else []
  {
    NormalisedSnoc(EV_ABS, recs, r);
    TrackingsSnoc(NormalisedAll(EV_ABS, recs), Normalised(EV_ABS, r));
  }

  lemma ToldCut(ps: seq<Packet>, recs: seq<Record>)
    ensures Told(ps + [Packet(EV_ABS, recs)], []) == Told(ps, recs)
  {
    var events := NormalisedAll(EV_ABS, recs);
    assert (ps + [Packet(EV_ABS, recs)])[..|ps|] == ps;
    TrackingsSnoc(events, Players.Report(events));
    TrackingsAppend(Replayed(ps), events + [Players.Report(events)]);
  }

  lemma {:induction false} PartTold(o: Session, k: Kernel, e: InputEvent)
    requires TouchOnlyEvent(e)
    ensures var a := AbsorbAll(o, KernelPart(k, e));
            Told(a.packets, a.st.recs) ==
            Told(o.packets, o.st.recs) + if IsTracking(e) && !IsRepeat(k, e) then [e] else []
  {
    var owner := OwnerOf(k.live, k.cursor);
    var ps, recs := o.packets, o.st.recs;
    assert Told(ps, recs) + [] == Told(ps, recs) && recs + [] == recs;
    if IsTracking(e) || IsPosition(e) {
      TouchTold(o, e, !IsRepeat(k, e), owner, |k.live| == 1);
      var r := Record(e.time, if IsContact(e) then e.value else owner, e.code, e.value);
      ToldRecord(ps, recs, r);
      if IsLift(e) && |k.live| == 1 {
        var c := Record(e.time, MINUS_ONE, SYN_REPORT, 0);
        ToldRecord(ps, recs + [r], c);
        ToldCut(ps, recs + [r] + [c]);
      }
    } else if IsSyn(e) {
      AbsorbOne(o, Copy(e, MINUS_ONE));
      ToldRecord(ps, recs, Record(e.time, MINUS_ONE, e.code, e.value));
    } else {
      AbsorbOne(o, Copy(e, MINUS_ONE));
    }
  }

  /** Packets and buffer replay the contacts and lifts of the stream, repeats aside. */
  lemma {:induction false} TellsTheTouches(es: seq<InputEvent>)
    requires Legal(es) && Truthful(es) && TouchOnly(es)
    ensures BoundedSlots(es)
    ensures Told(Recorded(es).packets, Recorded(es).st.recs) == Spoken(es)
  {
    LegalIsBounded(es);
    if es != [] {
      var pre, e := es[..|es| - 1], es[|es| - 1];
      assert e in es && TouchOnlyEvent(e);
      TellsTheTouches(pre);
      BooksKept(pre);
      DeliverAbsorbs(Recorded(pre), LedgerRun(pre), e);
      TruthfulFollows(pre);
      EventAccounts(LedgerRun(pre), KernelRun(pre), WindowRun(pre), StrayRun(pre), Drift(pre), e);
      PartTold(Recorded(pre), KernelRun(pre), e);
    }
  }

  // ------------------------------------------------------------ ended packets

  /** The stream up to the last time no contact was down. */
  function Rested(es: seq<InputEvent>): (r: seq<InputEvent>)
    ensures r <= es && KernelRun(r).live == map[]
  {
    if KernelRun(es).live == map[] then es
    else
      assert KernelRun([]).live == map[];
      Rested(es[..|es| - 1])
  }

  lemma {:induction false} RestedKeeps(es: seq<InputEvent>)
    requires Legal(es) && Truthful(es) && TouchOnly(es)
    ensures var r := Rested(es); Legal(r) && Truthful(r) && TouchOnly(r)
    ensures BoundedSlots(es) && BoundedSlots(Rested(es))
    ensures Recorded(es).packets == Recorded(Rested(es)).packets
  {
    LegalIsBounded(es);
    if KernelRun(es).live != map[] {
      var pre, e := es[..|es| - 1], es[|es| - 1];
      assert e in es && TouchOnlyEvent(e);
      RestedKeeps(pre);
      TruthfulIsSteady(es);
      GestureEndsWithLastContact(es);
    }
  }

  /** With no contact down nothing is pending. */
  lemma {:induction false} RestsEmpty(es: seq<InputEvent>)
    requires Legal(es) && Truthful(es) && TouchOnly(es) && KernelRun(es).live == map[]
    ensures BoundedSlots(es) && Recorded(es).st.recs == []
  {
    LegalIsBounded(es);
    if es != [] {
      var pre, e := es[..|es| - 1], es[|es| - 1];
      assert e in es && TouchOnlyEvent(e);
      TruthfulIsSteady(es);
      GestureEndsWithLastContact(es);
      if KernelRun(pre).live == map[] {
        RestsEmpty(pre);
        TruthfulFollows(pre);
        BooksKept(pre);
        EventAccounts(LedgerRun(pre), KernelRun(pre), WindowRun(pre), StrayRun(pre), Drift(pre), e);
        DeliverAbsorbs(Recorded(pre), LedgerRun(pre), e);
        AbsorbOne(Recorded(pre), Copy(e, MINUS_ONE));
      }
    }
  }

  predicate HoldsNoSlot(recs: seq<Record>) {
    forall r :: r in recs ==> r.code != ABS_MT_SLOT
  }

  lemma {:induction false} StepDropsSlot(s: State, e: InputEvent)
    requires WellFormed(s) && TouchOnlyEvent(e) && HoldsNoSlot(s.recs)
    ensures HoldsNoSlot(Step(s, e).0.recs)
  {
  }

  /** No record comes from an ABS_MT_SLOT event. */
  lemma {:induction false} SlotsAreDropped(es: seq<InputEvent>)
    requires BoundedSlots(es) && TouchOnly(es)
    ensures HoldsNoSlot(Recorded(es).st.recs)
    ensures forall p :: p in Recorded(es).packets ==> HoldsNoSlot(p.recs)
  {
    if es != [] {
      var pre, e := es[..|es| - 1], es[|es| - 1];
      assert e in es;
      SlotsAreDropped(pre);
      StepDropsSlot(Recorded(pre).st, e);
    }
  }

  lemma {:induction false} NormalisedIn(etype: u16, recs: seq<Record>, e: InputEvent)
    requires e in NormalisedAll(etype, recs)
    ensures exists r :: r in recs && e == Normalised(etype, r)
  {
    if e == Normalised(etype, recs[0]) {
      assert recs[0] in recs;
    } else {
      NormalisedIn(etype, recs[1..], e);
    }
  }

  lemma {:induction false} ReplayNamesNoSlot(ps: seq<Packet>)
    requires forall p :: p in ps ==> HoldsNoSlot(p.recs)
    ensures NamesNoSlot(Replayed(ps))
  {
    if ps != [] {
      var p := ps[|ps| - 1];
      assert p in ps;
      ReplayNamesNoSlot(ps[..|ps| - 1]);
      forall e | e in NormalisedAll(p.etype, p.recs)
        ensures !IsSlot(e)
      {
        NormalisedIn(p.etype, p.recs, e);
      }
    }
  }

  /** The exact condition for what a replay of touches is to the kernel: what is written to the
      device for all ended packets is what protocol B allows if and only if the contacts in
      them came one at a time, and then SoloFollowed tells which contact is down. */
  lemma {:induction false} ReplayLegalExactly(es: seq<InputEvent>)
    requires Legal(es) && Truthful(es) && TouchOnly(es)
    ensures BoundedSlots(es)
    ensures Trackings(Replayed(Recorded(es).packets)) == Spoken(Rested(es))
    ensures Legal(Replayed(Recorded(es).packets)) <==> Solo(Rested(es))
  {
    RestedKeeps(es);
    var r := Rested(es);
    TellsTheTouches(r);
    RestsEmpty(r);
    SlotsAreDropped(r);
    ReplayNamesNoSlot(Recorded(r).packets);
    OnlyTrackings(Replayed(Recorded(r).packets));
    TruthfulFollows(r);
    DriftIsReplacement(r);
    SpokenLegal(r);
  }
}
