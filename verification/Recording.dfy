/** What ends up in the packets: an account of the recorder's whole output in terms of
    the input stream alone. */
module Recording {
  import opened Words
  import opened Recorder
  import opened Session
  import opened Tracking

  /** A record with the type of the input event it came from. */
  datatype Tagged = Tagged(r: Record, src: u16)

  /** What one input event contributes: records, and marks that end a packet. */
  datatype Item = Rec(t: Tagged) | Cut(etype: u16)

  // ---------------------------------------------------------------- ownership

  /** Ownership of the touch slots on an arbitrary stream, legal or not: who was last let
      into each slot, and how far arrivals outnumber lifts.  This is the recorder's own
      bookkeeping without its buffer, so an account drawn from it is independent of the
      recorder only in what is output, cut and dropped; module Account compares it with
      the account drawn from the kernel's protocol alone. */
  datatype Ledger = Ledger(slot: u32, armed: bool, owner: map<u32, u32>, tally: int)

  const OPENING := Ledger(0, true, map[], 0)

  function LedgerStep(l: Ledger, e: InputEvent): Ledger {
    if IsSlot(e) then l.(slot := e.value, armed := true)
    else if IsContact(e) && l.armed then
      l.(armed := false, owner := l.owner[l.slot := e.value], tally := l.tally + 1)
    else if IsLift(e) && l.tally == 1 then OPENING
    else if IsLift(e) then l.(owner := l.owner - {l.slot}, tally := l.tally - 1)
    else l
  }

  function LedgerRun(es: seq<InputEvent>): Ledger {
    if es == [] then OPENING else LedgerStep(LedgerRun(es[..|es| - 1]), es[|es| - 1])
  }

  function OwnerOf(owner: map<u32, u32>, slot: u32): u32 {
    if slot in owner then owner[slot] else MINUS_ONE
  }

  function Copy(e: InputEvent, id: u32): Item {
    Rec(Tagged(Record(e.time, id, e.code, e.value), e.etype))
  }

  function ClosingSyn(e: InputEvent): Item {
    Rec(Tagged(Record(e.time, MINUS_ONE, SYN_REPORT, 0), EV_SYN))
  }

  /** The contribution of an event, given whether a contact is let in, who owns the
      current slot, and whether a lift is the last one. */
  function Contribution(e: InputEvent, letIn: bool, owner: u32, last: bool): seq<Item> {
    if IsSyn(e) then [Copy(e, MINUS_ONE)]
    else if IsContact(e) then if letIn then [Copy(e, e.value)] else []
    else if IsLift(e) then [Copy(e, owner)] + if last then [ClosingSyn(e), Cut(EV_ABS)] else []
    else if IsPosition(e) then if owner == MINUS_ONE then [] else [Copy(e, owner)]
    else if IsKey(e) then [Copy(e, MINUS_ONE)] + if IsFlushingKey(e) then [Cut(EV_KEY)] else []
    else []
  }

  function LedgerPart(l: Ledger, e: InputEvent): seq<Item> {
    Contribution(e, l.armed, OwnerOf(l.owner, l.slot), l.tally == 1)
  }

  function Items(es: seq<InputEvent>): seq<Item> {
    if es == [] then []
    else
      var pre := es[..|es| - 1];
      Items(pre) + LedgerPart(LedgerRun(pre), es[|es| - 1])
  }

  /** The same account drawn from the kernel's view: every contact id but a repeat, every
      position and every lift under the id of the contact that owns the kernel's slot. */
  function KernelPart(k: Kernel, e: InputEvent): seq<Item> {
    Contribution(e, !IsRepeat(k, e), OwnerOf(k.live, k.cursor), |k.live| == 1)
  }

  function KernelItems(es: seq<InputEvent>): seq<Item> {
    if es == [] then []
    else
      var pre := es[..|es| - 1];
      KernelItems(pre) + KernelPart(KernelRun(pre), es[|es| - 1])
  }

  // -------------------------------------------------------------- segmentation

  function Segments(items: seq<Item>): (s: seq<seq<Tagged>>)
    ensures |s| > 0
  {
    if items == [] then [[]]
    else
      var s, x := Segments(items[..|items| - 1]), items[|items| - 1];
      if x.Cut? then s + [[]] else s[..|s| - 1] + [s[|s| - 1] + [x.t]]
  }

  /** The types of the events that end packets, in order. */
  function Cuts(items: seq<Item>): seq<u16> {
    if items == [] then []
    else
      var x := items[|items| - 1];
      Cuts(items[..|items| - 1]) + if x.Cut? then [x.etype] else []
  }

  /** A SYN_REPORT survives exactly when something else comes right before it. */
  predicate Survives(ts: seq<Tagged>, i: nat)
    requires i < |ts|
  {
    ts[i].r.code == SYN_REPORT ==> i > 0 && ts[i - 1].r.code != SYN_REPORT
  }

  function Squeeze(ts: seq<Tagged>): seq<Tagged> {
    if ts == [] then []
    else Squeeze(ts[..|ts| - 1]) + if Survives(ts, |ts| - 1) then [ts[|ts| - 1]] else []
  }

  function Strip(ts: seq<Tagged>): (r: seq<Record>)
    ensures |r| == |ts|
  {
    seq(|ts|, i requires 0 <= i < |ts| => ts[i].r)
  }

  predicate Accounts(ps: seq<Packet>, pending: seq<Record>, items: seq<Item>) {
    var segs, cuts := Segments(items), Cuts(items);
    && |segs| == |ps| + 1 && |cuts| == |ps|
    && (forall i :: 0 <= i < |ps| ==> ps[i] == Packet(cuts[i], Strip(Squeeze(segs[i]))))
    && pending == Strip(Squeeze(segs[|ps|]))
  }

  // -------------------------------------------------------------- conservation

  function Absorb(o: Session, x: Item): Session {
    match x
    case Rec(t) => o.(st := o.st.(recs := Append(o.st.recs, t.r)))
    case Cut(etype) => Session(o.st.(recs := []), o.packets + [Packet(etype, o.st.recs)])
  }

  lemma SqueezeSnoc(ts: seq<Tagged>, t: Tagged)
    ensures Squeeze(ts + [t]) == Squeeze(ts) + if Survives(ts + [t], |ts|) then [t] else []
  {
    assert (ts + [t])[..|ts|] == ts;
  }

  /** The last surviving record is a SYN_REPORT, or there is none, exactly when the
      same holds of the last record. */
  lemma {:induction false} SqueezeLast(ts: seq<Tagged>)
    ensures var q := Squeeze(ts);
            (q == [] || q[|q| - 1].r.code == SYN_REPORT) <==> (ts == [] || ts[|ts| - 1].r.code == SYN_REPORT)
  {
    if ts != [] {
      SqueezeLast(ts[..|ts| - 1]);
    }
  }

  lemma {:induction false} StripSnoc(ts: seq<Tagged>, t: Tagged)
    ensures Strip(ts + [t]) == Strip(ts) + [t.r]
  {
  }

  lemma {:induction false} AppendSqueezes(ts: seq<Tagged>, t: Tagged)
    ensures Append(Strip(Squeeze(ts)), t.r) == Strip(Squeeze(ts + [t]))
  {
    SqueezeSnoc(ts, t);
    SqueezeLast(ts);
    StripSnoc(Squeeze(ts), t);
    assert Squeeze(ts) + [] == Squeeze(ts);
  }

  lemma {:induction false} AbsorbAccounts(o: Session, items: seq<Item>, x: Item)
    requires Accounts(o.packets, o.st.recs, items)
    ensures var o' := Absorb(o, x); Accounts(o'.packets, o'.st.recs, items + [x])
  {
    assert (items + [x])[..|items|] == items;
    var segs := Segments(items);
    if x.Rec? {
      AppendSqueezes(segs[|segs| - 1], x.t);
    } else {
      assert Squeeze([]) == [] && Strip([]) == [];
    }
  }

  predicate Books(s: State, l: Ledger)
    requires WellFormed(s)
  {
    && s.cursor == l.slot && s.flag == l.armed && s.count == l.tally
    && (forall i: u32 :: i < ID_MAP_SIZE ==> s.table[i].value == OwnerOf(l.owner, i))
  }

  function AbsorbAll(o: Session, xs: seq<Item>): Session
    decreases |xs|
  {
    if xs == [] then o else AbsorbAll(Absorb(o, xs[0]), xs[1..])
  }

  lemma AbsorbOne(o: Session, x: Item)
    ensures AbsorbAll(o, [x]) == Absorb(o, x) && AbsorbAll(o, []) == o
  {
    assert [x][1..] == [];
  }

  lemma AbsorbTwo(o: Session, x: Item, y: Item)
    ensures AbsorbAll(o, [x] + [y]) == Absorb(Absorb(o, x), y)
  {
    assert ([x] + [y])[1..] == [y];
    AbsorbOne(Absorb(o, x), y);
  }

  lemma AbsorbThree(o: Session, x: Item, y: Item, z: Item)
    ensures AbsorbAll(o, [x] + [y, z]) == Absorb(Absorb(Absorb(o, x), y), z)
  {
    assert ([x] + [y, z])[1..] == [y] + [z];
    AbsorbTwo(Absorb(o, x), y, z);
  }

  lemma {:induction false} DeliverAbsorbs(o: Session, l: Ledger, e: InputEvent)
    requires WellFormed(o.st) && Books(o.st, l) && (IsSlot(e) ==> e.value < ID_MAP_SIZE)
    ensures var o' := Deliver(o, e);
            var a := AbsorbAll(o, LedgerPart(l, e));
            && Books(o'.st, LedgerStep(l, e))
            && o'.packets == a.packets && o'.st.recs == a.st.recs
  {
    if IsLift(e) {
      if l.tally == 1 {
        AbsorbThree(o, Copy(e, OwnerOf(l.owner, l.slot)), ClosingSyn(e), Cut(EV_ABS));
      } else {
        AbsorbOne(o, Copy(e, OwnerOf(l.owner, l.slot)));
      }
    } else if IsFlushingKey(e) {
      AbsorbTwo(o, Copy(e, MINUS_ONE), Cut(EV_KEY));
    } else if IsKey(e) || IsSyn(e) {
      AbsorbOne(o, Copy(e, MINUS_ONE));
    } else if IsContact(e) {
      AbsorbOne(o, Copy(e, e.value));
    } else {
      AbsorbOne(o, Copy(e, OwnerOf(l.owner, l.slot)));
    }
  }

  lemma {:induction false} AbsorbAllAccounts(o: Session, items: seq<Item>, xs: seq<Item>)
    requires Accounts(o.packets, o.st.recs, items)
    decreases |xs|
    ensures var o' := AbsorbAll(o, xs); Accounts(o'.packets, o'.st.recs, items + xs)
  {
    if xs == [] {
      assert items + xs == items;
    } else {
      AbsorbAccounts(o, items, xs[0]);
      AbsorbAllAccounts(Absorb(o, xs[0]), items + [xs[0]], xs[1..]);
      assert items + [xs[0]] + xs[1..] == items + xs;
    }
  }

  lemma {:induction false} BooksKept(es: seq<InputEvent>)
    requires BoundedSlots(es)
    ensures Books(Recorded(es).st, LedgerRun(es))
  {
    if es != [] {
      BooksKept(es[..|es| - 1]);
      DeliverAbsorbs(Recorded(es[..|es| - 1]), LedgerRun(es[..|es| - 1]), es[|es| - 1]);
    }
  }

  /** Conservation, for every stream whose slot numbers fit the table: the packets and
      the pending buffer hold exactly what the stream contributed, cut where the stream
      says, less the redundant SYN_REPORTs. */
  lemma {:induction false} RecordingConserves(es: seq<InputEvent>)
    requires BoundedSlots(es)
    ensures Accounts(Recorded(es).packets, Recorded(es).st.recs, Items(es))
  {
    if es == [] {
      assert Squeeze([]) == [] && Strip([]) == [];
    } else {
      var pre, e := es[..|es| - 1], es[|es| - 1];
      RecordingConserves(pre);
      BooksKept(pre);
      var l := LedgerRun(pre);
      DeliverAbsorbs(Recorded(pre), l, e);
      AbsorbAllAccounts(Recorded(pre), Items(pre), LedgerPart(l, e));
    }
  }

  // ------------------------------------------------------------------ counting

  function FlushingKeys(es: seq<InputEvent>): nat {
    if es == [] then 0 else FlushingKeys(es[..|es| - 1]) + if IsFlushingKey(es[|es| - 1]) then 1 else 0
  }

  /** How often the last contact lifts. */
  function Emptyings(es: seq<InputEvent>): nat {
    if es == [] then 0
    else
      var pre := es[..|es| - 1];
      Emptyings(pre) + if Empties(KernelRun(pre), es[|es| - 1]) then 1 else 0
  }

  /** After every event so far there is one packet for each flushing key, and one for each
      time the last contact lifted. */
  predicate CountsPackets(es: seq<InputEvent>)
    requires BoundedSlots(es)
  {
    && |Recorded(es).packets| == FlushingKeys(es) + Emptyings(es)
    && (es == [] || CountsPackets(es[..|es| - 1]))
  }

  lemma {:induction false} OthersEnd(s: State, e: InputEvent)
    requires WellFormed(s) && e.etype != EV_ABS
    ensures Step(s, e).1 == End <==> IsFlushingKey(e)
  {
  }

  /** The exact condition for the number of packets: the same as for the gesture ends. */
  lemma {:induction false} PacketsCounted(es: seq<InputEvent>)
    requires Legal(es)
    ensures BoundedSlots(es) && (CountsPackets(es) <==> Steady(es))
  {
    LegalIsBounded(es);
    if es != [] {
      var pre, e := es[..|es| - 1], es[|es| - 1];
      PacketsCounted(pre);
      if e.etype != EV_ABS {
        OthersEnd(Recorded(pre).st, e);
      }
      if Steady(pre) {
        SteadyDrifts(pre);
        EventDrifts(Recorded(pre).st, KernelRun(pre), WindowRun(pre), Drift(pre), e);
      }
    }
  }

  // ------------------------------------------------------------ SYN compaction

  predicate Compact(recs: seq<Record>) {
    && (recs != [] ==> recs[0].code != SYN_REPORT)
    && forall i :: 0 <= i < |recs| - 1 ==> !(recs[i].code == SYN_REPORT && recs[i + 1].code == SYN_REPORT)
  }

  lemma AppendCompact(recs: seq<Record>, r: Record)
    requires Compact(recs)
    ensures Compact(Append(recs, r))
  {
  }

  /** An event appends nothing, or one record, or a lift and its closing report. */
  lemma StepAppends(s: State, e: InputEvent) returns (r: Record, c: Record)
    requires WellFormed(s)
    ensures var recs := Step(s, e).0.recs;
            recs == s.recs || recs == Append(s.recs, r) || recs == Append(Append(s.recs, r), c)
  {
    r := Record(e.time, if IsLift(e) || IsPosition(e) then s.table[s.cursor].value
                        else if IsContact(e) then e.value else MINUS_ONE, e.code, e.value);
    c := Record(e.time, MINUS_ONE, SYN_REPORT, 0);
  }

  lemma {:induction false} StepCompact(s: State, e: InputEvent)
    requires WellFormed(s) && Compact(s.recs)
    ensures Compact(Step(s, e).0.recs)
  {
    var r, c := StepAppends(s, e);
    AppendCompact(s.recs, r);
    AppendCompact(Append(s.recs, r), c);
  }

  /** No packet, and not the buffer either, starts with a SYN_REPORT or holds two in a row. */
  lemma {:induction false} OutputCompact(es: seq<InputEvent>)
    requires BoundedSlots(es)
    ensures Compact(Recorded(es).st.recs)
    ensures forall p :: p in Recorded(es).packets ==> Compact(p.recs)
  {
    if es != [] {
      OutputCompact(es[..|es| - 1]);
      StepCompact(Recorded(es[..|es| - 1]).st, es[|es| - 1]);
    }
  }

  /** A packet ended by a touch event closes with the lift and one SYN_REPORT, both
      stamped with the time of the lift. */
  lemma {:induction false} GestureCloses(es: seq<InputEvent>, e: InputEvent)
    requires BoundedSlots(es + [e]) && IsTracking(e)
    ensures BoundedSlots(es)
    ensures var o, o' := Recorded(es), Recorded(es + [e]);
            |o'.packets| != |o.packets| ==>
              && |o'.packets| == |o.packets| + 1
              && var p := o'.packets[|o.packets|];
                 && p.etype == EV_ABS && |p.recs| >= 2
                 && p.recs[|p.recs| - 2] == Record(e.time, p.recs[|p.recs| - 2].id, ABS_MT_TRACKING_ID, MINUS_ONE)
                 && p.recs[|p.recs| - 1] == Record(e.time, MINUS_ONE, SYN_REPORT, 0)
  {
    assert (es + [e])[..|es|] == es;
    assert forall x :: x in es ==> x in es + [e];
  }

  /** Packets are labelled EV_ABS or EV_KEY. */
  lemma {:induction false} PacketLabels(es: seq<InputEvent>)
    requires BoundedSlots(es)
    ensures forall p :: p in Recorded(es).packets ==> p.etype == EV_ABS || p.etype == EV_KEY
  {
    if es != [] {
      PacketLabels(es[..|es| - 1]);
    }
  }
}
