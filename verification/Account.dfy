/** The recorded account of the touches against the kernel's account of them.

    A contact that starts when none is down and before its slot is named is booked under
    slot 0.  That alone is harmless: the contact is recorded under its own id until it
    lifts.  The account goes wrong only when the stream comes back to the contact after
    naming a slot. */
module Account {
  import opened Words
  import opened Recorder
  import opened Session
  import opened Tracking
  import opened Recording

  /** The slots in which the recorder's books are astray: `home`, the slot of a contact
      booked under slot 0 instead; and slot 0 itself, `shadow`, while it has no contact of
      its own. */
  datatype Stray = Stray(home: Option<u32>, shadow: bool)

  const STRAIGHT := Stray(None, false)

  function StrayStep(t: Stray, w: Window, k: Kernel, e: InputEvent): Stray {
    if IsContact(e) && k.cursor !in k.live then
      if !w.placed then Stray(Some(k.cursor), true)
      else if k.cursor == 0 then t.(shadow := false)
      else t
    else if IsReplacement(k, e) && t.home == Some(k.cursor) then t.(home := None)
    else if IsLift(e) && k.live.Keys <= {k.cursor} then STRAIGHT
    else t
  }

  function StrayRun(es: seq<InputEvent>): Stray {
    if es == [] then STRAIGHT
    else
      var pre := es[..|es| - 1];
      StrayStep(StrayRun(pre), WindowRun(pre), KernelRun(pre), es[|es| - 1])
  }

  /** Slots in which the books may differ from the kernel's. */
  predicate Off(t: Stray, i: u32) {
    t.home == Some(i) || (t.shadow && i == 0)
  }

  /** Every contact id but a repeat comes when one is due, and no repeat does; lifts are
      steady; and once a slot has been named, there is no position or lift in a slot in which
      the books are astray. */
  predicate TruthfulEvent(t: Stray, w: Window, k: Kernel, d: int, e: InputEvent) {
    && (IsContact(e) ==> (w.armed <==> !IsRepeat(k, e)))
    && SteadyEvent(d, k, e)
    && (w.placed && (IsPosition(e) || IsLift(e)) ==> !Off(t, k.cursor))
  }

  predicate Truthful(es: seq<InputEvent>) {
    es == [] ||
    (var pre := es[..|es| - 1];
     && Truthful(pre)
     && TruthfulEvent(StrayRun(pre), WindowRun(pre), KernelRun(pre), Drift(pre), es[|es| - 1]))
  }

  /** The account drawn from the recorder's books is the kernel's after every event. */
  predicate AlwaysAccounts(es: seq<InputEvent>) {
    Items(es) == KernelItems(es) && (es == [] || AlwaysAccounts(es[..|es| - 1]))
  }

  /** What is known while books and kernel have told the same. */
  predicate Follows(l: Ledger, k: Kernel, w: Window, t: Stray, d: int) {
    && Sound(k) && l.armed == w.armed && l.tally == |k.live| + d
    && (if w.placed then l.slot == k.cursor else l.slot == 0 && k.cursor != 0)
    && (forall i: u32 :: !Off(t, i) ==> OwnerOf(l.owner, i) == OwnerOf(k.live, i))
    && (k.live == map[] ==> t == STRAIGHT && w.armed && d == 0)
    && (t.home.Some? ==>
          t.home.value != 0 && t.home.value in k.live && OwnerOf(l.owner, t.home.value) == MINUS_ONE)
    && (t.shadow ==> 0 !in k.live && OwnerOf(l.owner, 0) != MINUS_ONE)
    && (!w.placed && k.live != map[] ==>
          && t == Stray(Some(k.cursor), true) && k.live.Keys == {k.cursor} && !w.armed
          && OwnerOf(l.owner, 0) == k.live[k.cursor])
  }

  lemma OwnerAfter(m: map<u32, u32>, c: u32, v: u32, i: u32)
    ensures OwnerOf(m[c := v], i) == if i == c then v else OwnerOf(m, i)
  {
  }

  /** The first contact after all have lifted, its slot not named: it is booked in slot 0. */
  lemma {:induction false} UnplacedFollows(l: Ledger, k: Kernel, w: Window, t: Stray, d: int, e: InputEvent)
    requires Follows(l, k, w, t, d) && IsNewContact(k, e) && w.armed && !w.placed
    ensures Follows(LedgerStep(l, e), KernelStep(k, e), WindowStep(w, k, e), StrayStep(t, w, k, e), d)
  {
    assert t == STRAIGHT && k.live == map[];
    var l', k' := LedgerStep(l, e), KernelStep(k, e);
    AddedOne(k.live, k.cursor, e.value);
    ContactAdded(k.live, k.cursor, e.value);
    forall i: u32
      ensures OwnerOf(l'.owner, i) == if i == 0 then e.value else MINUS_ONE
    {
      OwnerAfter(l.owner, 0, e.value, i);
      assert !Off(t, i);
    }
    assert k'.live == map[k.cursor := e.value];
  }

  /** The owners when a contact is let in under its own slot. */
  lemma {:induction false} SlotTaken(l: Ledger, k: Kernel, w: Window, t: Stray, d: int, e: InputEvent)
    requires Follows(l, k, w, t, d) && IsContact(e) && w.armed && w.placed
    ensures var l', k' := LedgerStep(l, e), KernelStep(k, e);
            && l'.tally == l.tally + 1 && !l'.armed && l'.slot == l.slot
            && forall i: u32 ::
                 && OwnerOf(l'.owner, i) == (if i == k.cursor then e.value else OwnerOf(l.owner, i))
                 && OwnerOf(k'.live, i) == (if i == k.cursor then e.value else OwnerOf(k.live, i))
  {
    forall i: u32
      ensures OwnerOf(l.owner[k.cursor := e.value], i) == if i == k.cursor then e.value else OwnerOf(l.owner, i)
      ensures OwnerOf(k.live[k.cursor := e.value], i) == if i == k.cursor then e.value else OwnerOf(k.live, i)
    {
      OwnerAfter(l.owner, k.cursor, e.value, i);
      OwnerAfter(k.live, k.cursor, e.value, i);
    }
  }

  lemma {:induction false} PlacedFollows(l: Ledger, k: Kernel, w: Window, t: Stray, d: int, e: InputEvent)
    requires Follows(l, k, w, t, d) && IsNewContact(k, e) && w.armed && w.placed
    ensures Follows(LedgerStep(l, e), KernelStep(k, e), WindowStep(w, k, e), StrayStep(t, w, k, e), d)
  {
    SlotTaken(l, k, w, t, d, e);
    AddedOne(k.live, k.cursor, e.value);
    ContactAdded(k.live, k.cursor, e.value);
    assert k.cursor in KernelStep(k, e).live;
    assert forall i: u32 :: !Off(StrayStep(t, w, k, e), i) ==> i == k.cursor || !Off(t, i);
  }

  lemma {:induction false} ReplacementFollows(l: Ledger, k: Kernel, w: Window, t: Stray, d: int, e: InputEvent)
    requires Follows(l, k, w, t, d) && IsReplacement(k, e) && e.value != MINUS_ONE && w.armed && w.placed
    ensures Follows(LedgerStep(l, e), KernelStep(k, e), WindowStep(w, k, e), StrayStep(t, w, k, e), d + 1)
  {
    SlotTaken(l, k, w, t, d, e);
    AddedOne(k.live, k.cursor, e.value);
    ContactReplaced(k.live, k.cursor, e.value);
    assert k.cursor in KernelStep(k, e).live;
    assert forall i: u32 :: !Off(StrayStep(t, w, k, e), i) ==> i == k.cursor || !Off(t, i);
  }

  lemma {:induction false} ContactFollows(l: Ledger, k: Kernel, w: Window, t: Stray, d: int, e: InputEvent)
    requires Follows(l, k, w, t, d) && IsContact(e) && LegalEvent(k, e) && TruthfulEvent(t, w, k, d, e)
    ensures Follows(LedgerStep(l, e), KernelStep(k, e), WindowStep(w, k, e),
                    StrayStep(t, w, k, e), DriftStep(d, w, k, e))
  {
    if IsRepeat(k, e) {
      assert k.live[k.cursor := e.value] == k.live;
    } else if IsReplacement(k, e) {
      ReplacementFollows(l, k, w, t, d, e);
    } else if w.placed {
      PlacedFollows(l, k, w, t, d, e);
    } else {
      UnplacedFollows(l, k, w, t, d, e);
    }
  }

  lemma {:induction false} LastLiftFollows(l: Ledger, k: Kernel, w: Window, t: Stray, d: int, e: InputEvent)
    requires Follows(l, k, w, t, d) && IsLift(e) && k.cursor in k.live && |k.live| == 1 && SteadyEvent(d, k, e)
    ensures Follows(LedgerStep(l, e), KernelStep(k, e), WindowStep(w, k, e), StrayStep(t, w, k, e), d)
  {
    RemovedOne(k.live, k.cursor);
    assert |k.live - {k.cursor}| == 0;
    assert k.live - {k.cursor} == map[];
  }

  lemma {:induction false} OtherLiftFollows(l: Ledger, k: Kernel, w: Window, t: Stray, d: int, e: InputEvent)
    requires Follows(l, k, w, t, d) && IsLift(e) && k.cursor in k.live && |k.live| != 1
    requires TruthfulEvent(t, w, k, d, e)
    ensures Follows(LedgerStep(l, e), KernelStep(k, e), WindowStep(w, k, e), StrayStep(t, w, k, e), d)
  {
    RemovedOne(k.live, k.cursor);
    ContactRemoved(k.live, k.cursor);
    assert k.live - {k.cursor} != map[];
    assert w.placed by {
      assert |{k.cursor}| == 1;
    }
  }

  /** On a truthful event the books go on following, however far astray one contact is. */
  lemma {:induction false} EventFollows(l: Ledger, k: Kernel, w: Window, t: Stray, d: int, e: InputEvent)
    requires Follows(l, k, w, t, d) && LegalEvent(k, e) && TruthfulEvent(t, w, k, d, e)
    ensures Follows(LedgerStep(l, e), KernelStep(k, e), WindowStep(w, k, e),
                    StrayStep(t, w, k, e), DriftStep(d, w, k, e))
  {
    if IsContact(e) {
      ContactFollows(l, k, w, t, d, e);
    } else if IsLift(e) {
      if |k.live| == 1 {
        LastLiftFollows(l, k, w, t, d, e);
      } else {
        OtherLiftFollows(l, k, w, t, d, e);
      }
    }
  }

  lemma {:induction false} OwnersAgree(l: Ledger, k: Kernel, w: Window, t: Stray, d: int)
    requires Follows(l, k, w, t, d)
    ensures OwnerOf(l.owner, l.slot) == OwnerOf(k.live, k.cursor) <==> !(w.placed && Off(t, k.cursor))
  {
  }

  /** An event contributes what the kernel says exactly when it is truthful. */
  lemma {:induction false} EventAccounts(l: Ledger, k: Kernel, w: Window, t: Stray, d: int, e: InputEvent)
    requires Follows(l, k, w, t, d) && LegalEvent(k, e)
    ensures LedgerPart(l, e) == KernelPart(k, e) <==> TruthfulEvent(t, w, k, d, e)
  {
    OwnersAgree(l, k, w, t, d);
    if IsLift(e) {
      var mine, right := OwnerOf(l.owner, l.slot), OwnerOf(k.live, k.cursor);
      assert LedgerPart(l, e)[0] == Copy(e, mine) && KernelPart(k, e)[0] == Copy(e, right);
    }
  }

  lemma {:induction false} TruthfulFollows(es: seq<InputEvent>)
    requires Legal(es) && Truthful(es)
    ensures Follows(LedgerRun(es), KernelRun(es), WindowRun(es), StrayRun(es), Drift(es))
    ensures AlwaysAccounts(es)
  {
    if es != [] {
      var pre, e := es[..|es| - 1], es[|es| - 1];
      TruthfulFollows(pre);
      EventFollows(LedgerRun(pre), KernelRun(pre), WindowRun(pre), StrayRun(pre), Drift(pre), e);
      EventAccounts(LedgerRun(pre), KernelRun(pre), WindowRun(pre), StrayRun(pre), Drift(pre), e);
    }
  }

  // ------------------------------------------------------- what the packets tell

  /** After every event so far, packets and buffer are the kernel's account. */
  predicate AlwaysRecords(es: seq<InputEvent>)
    requires BoundedSlots(es)
  {
    && Accounts(Recorded(es).packets, Recorded(es).st.recs, KernelItems(es))
    && (es == [] || AlwaysRecords(es[..|es| - 1]))
  }

  /** Packets and buffer with what an event contributes. */
  predicate Same(a: Session, b: Session) {
    a.packets == b.packets && a.st.recs == b.st.recs
  }

  /** What a touch event leaves of a session, by what it contributes. */
  lemma {:induction false} TouchTold(o: Session, e: InputEvent, letIn: bool, owner: u32, last: bool)
    requires IsTracking(e) || IsPosition(e)
    ensures var a, r := AbsorbAll(o, Contribution(e, letIn, owner, last)), Record(e.time, owner, e.code, e.value);
            if IsLift(e) then
              if last then a.st.recs == [] && a.packets == o.packets + [Packet(EV_ABS,
                o.st.recs + [r] + [Record(e.time, MINUS_ONE, SYN_REPORT, 0)])]
              else a.packets == o.packets && a.st.recs == o.st.recs + [r]
            else
              && a.packets == o.packets
              && a.st.recs == o.st.recs +
                 if IsContact(e) then if letIn then [Record(e.time, e.value, e.code, e.value)] else []
                 else if owner != MINUS_ONE then [r] else []
  {
    AbsorbOne(o, Copy(e, owner));
    AbsorbOne(o, Copy(e, e.value));
    if IsLift(e) && last {
      AbsorbThree(o, Copy(e, owner), ClosingSyn(e), Cut(EV_ABS));
    }
  }

  lemma LastDiffers<T>(s: seq<T>, x: T, y: T, z: T)
    requires x != y
    ensures s + [x] != s + [y] && s + [x] + [z] != s + [y] + [z] && s + [x] != s
  {
    assert (s + [x])[|s|] == x && (s + [y])[|s|] == y;
    assert (s + [x] + [z])[|s|] == x && (s + [y] + [z])[|s|] == y;
    assert |s + [x]| != |s|;
  }

  /** Nothing hides a difference between two contributions of one event. */
  lemma {:induction false} PartsTell(o: Session, e: InputEvent, letIn: bool, owner: u32, last: bool,
                                     letIn': bool, owner': u32, last': bool)
    requires Contribution(e, letIn, owner, last) != Contribution(e, letIn', owner', last')
    ensures !Same(AbsorbAll(o, Contribution(e, letIn, owner, last)),
                  AbsorbAll(o, Contribution(e, letIn', owner', last')))
  {
    TouchTold(o, e, letIn, owner, last);
    TouchTold(o, e, letIn', owner', last');
    var r, r' := Record(e.time, owner, e.code, e.value), Record(e.time, owner', e.code, e.value);
    var c := Record(e.time, MINUS_ONE, SYN_REPORT, 0);
    if owner != owner' {
      LastDiffers(o.st.recs, r, r', c);
    }
    if IsLift(e) && last && last' {
      var p, p' := Packet(EV_ABS, o.st.recs + [r] + [c]), Packet(EV_ABS, o.st.recs + [r'] + [c]);
      LastDiffers(o.packets, p, p', p);
    }
  }

  /** An account determines packets and buffer. */
  lemma OneAccount(ps: seq<Packet>, recs: seq<Record>, ps': seq<Packet>, recs': seq<Record>, items: seq<Item>)
    requires Accounts(ps, recs, items) && Accounts(ps', recs', items)
    ensures ps == ps' && recs == recs'
  {
  }

  /** If the account has been the kernel's so far, it stays so exactly on a truthful event. */
  lemma {:induction false} RecordedEvent(pre: seq<InputEvent>, e: InputEvent)
    requires Legal(pre) && Truthful(pre) && LegalEvent(KernelRun(pre), e) && BoundedSlots(pre)
    ensures var o, items := Deliver(Recorded(pre), e), KernelItems(pre) + KernelPart(KernelRun(pre), e);
            Accounts(o.packets, o.st.recs, items)
            <==> TruthfulEvent(StrayRun(pre), WindowRun(pre), KernelRun(pre), Drift(pre), e)
  {
    var o, l, k := Recorded(pre), LedgerRun(pre), KernelRun(pre);
    TruthfulFollows(pre);
    RecordingConserves(pre);
    BooksKept(pre);
    DeliverAbsorbs(o, l, e);
    EventAccounts(l, k, WindowRun(pre), StrayRun(pre), Drift(pre), e);
    AbsorbAllAccounts(o, Items(pre), KernelPart(k, e));
    var o', a := Deliver(o, e), AbsorbAll(o, KernelPart(k, e));
    if LedgerPart(l, e) != KernelPart(k, e) {
      PartsTell(o, e, l.armed, OwnerOf(l.owner, l.slot), l.tally == 1,
                !IsRepeat(k, e), OwnerOf(k.live, k.cursor), |k.live| == 1);
      if Accounts(o'.packets, o'.st.recs, KernelItems(pre) + KernelPart(k, e)) {
        OneAccount(o'.packets, o'.st.recs, a.packets, a.st.recs, KernelItems(pre) + KernelPart(k, e));
      }
    }
  }

  lemma {:induction false} TruthfulRecords(es: seq<InputEvent>)
    requires Legal(es) && Truthful(es)
    ensures BoundedSlots(es) && AlwaysRecords(es)
  {
    LegalIsBounded(es);
    TruthfulFollows(es);
    RecordingConserves(es);
    if es != [] {
      TruthfulRecords(es[..|es| - 1]);
    }
  }

  /** The exact condition for the account: over a legal stream packets and buffer are the
      kernel's account of the touches after every event if and only if the stream is
      truthful. */
  lemma {:induction false} AccountExact(es: seq<InputEvent>)
    requires Legal(es)
    ensures BoundedSlots(es) && (AlwaysRecords(es) <==> Truthful(es))
  {
    LegalIsBounded(es);
    if es == [] {
      RecordingConserves(es);
    } else {
      var pre, e := es[..|es| - 1], es[|es| - 1];
      AccountExact(pre);
      if Truthful(pre) {
        RecordedEvent(pre, e);
      }
    }
  }

  /** On a legal and truthful stream the packets and the pending buffer are the kernel's
      account of the touches: each new contact, each position and each lift under the id of
      the contact that owns the kernel's slot. */
  lemma {:induction false} RecordsTheKernelTrace(es: seq<InputEvent>)
    requires Legal(es) && Truthful(es)
    ensures BoundedSlots(es)
    ensures Accounts(Recorded(es).packets, Recorded(es).st.recs, KernelItems(es))
  {
    TruthfulRecords(es);
  }

  // ------------------------------------------------------- the conditions compared

  /** A stream whose every contact is placed has no stray contact. */
  lemma {:induction false} TimelyIsTruthful(es: seq<InputEvent>)
    requires Legal(es) && Timely(es)
    ensures Truthful(es) && StrayRun(es) == STRAIGHT && Prompt(es) && Drift(es) == 0
  {
    if es != [] {
      TimelyIsTruthful(es[..|es| - 1]);
    }
  }

  lemma {:induction false} TruthfulIsSteady(es: seq<InputEvent>)
    requires Truthful(es)
    ensures Steady(es)
  {
    if es != [] {
      TruthfulIsSteady(es[..|es| - 1]);
    }
  }
}
