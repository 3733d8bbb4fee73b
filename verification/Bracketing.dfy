/** Well-bracketed output: every position lies between the down record and the lift record
    of its contact, whatever key presses cut the packets. */
module Bracketing {
  import opened Words
  import opened Recorder
  import opened Session
  import opened Tracking
  import opened Recording
  import opened Account

  /** Reads a touch record against the contacts that are down; None rejects it. */
  function Scan(down: set<u32>, r: Record): Option<set<u32>> {
    if r.id == MINUS_ONE then Some(down)
    else if r.code == ABS_MT_TRACKING_ID && r.value != MINUS_ONE then
      if r.value == r.id && r.id !in down then Some(down + {r.id}) else None
    else if r.id !in down then None
    else if r.code == ABS_MT_TRACKING_ID then Some(down - {r.id})
    else Some(down)
  }

  function Next(down: Option<set<u32>>, r: Record): Option<set<u32>> {
    match down
    case None => None
    case Some(d) => Scan(d, r)
  }

  /** Down records, positions and lifts are well bracketed, leaving these contacts down. */
  function ScanAll(rs: seq<Record>): Option<set<u32>> {
    if rs == [] then Some({}) else Next(ScanAll(rs[..|rs| - 1]), rs[|rs| - 1])
  }

  /** The same for contributions, across the cuts. */
  function ScanItems(xs: seq<Item>): Option<set<u32>> {
    if xs == [] then Some({})
    else
      var before, x := ScanItems(xs[..|xs| - 1]), xs[|xs| - 1];
      if x.Cut? then before else Next(before, x.t.r)
  }

  lemma ScanSnoc(rs: seq<Record>, r: Record)
    ensures ScanAll(rs + [r]) == Next(ScanAll(rs), r)
  {
    assert (rs + [r])[..|rs|] == rs;
  }

  lemma ScanItemsSnoc(xs: seq<Item>, x: Item)
    ensures ScanItems(xs + [x]) == if x.Cut? then ScanItems(xs) else Next(ScanItems(xs), x.t.r)
  {
    assert (xs + [x])[..|xs|] == xs;
  }

  /** What a dropped SYN_REPORT would have changed: nothing. */
  predicate Quiet(x: Item) {
    x.Rec? && x.t.r.code == SYN_REPORT ==> x.t.r.id == MINUS_ONE
  }

  lemma {:induction false} AbsorbScans(o: Session, x: Item)
    requires Quiet(x)
    ensures ScanAll(Output(Absorb(o, x))) ==
            if x.Cut? then ScanAll(Output(o)) else Next(ScanAll(Output(o)), x.t.r)
  {
    match x {
      case Rec(t) =>
        ScanSnoc(Output(o), t.r);
        assert Flatten(o.packets) + (o.st.recs + [t.r]) == Output(o) + [t.r];
      case Cut(etype) =>
        FlattenSnoc(o.packets, Packet(etype, o.st.recs));
        assert Output(Absorb(o, x)) == Output(o) + [] == Output(o);
    }
  }

  lemma FirstMoved(items: seq<Item>, xs: seq<Item>)
    requires xs != []
    ensures items + [xs[0]] + xs[1..] == items + xs
  {
  }

  lemma {:induction false} AbsorbAllScans(o: Session, items: seq<Item>, xs: seq<Item>)
    requires ScanAll(Output(o)) == ScanItems(items) && forall x :: x in xs ==> Quiet(x)
    ensures ScanAll(Output(AbsorbAll(o, xs))) == ScanItems(items + xs)
    decreases |xs|
  {
    if xs == [] {
      assert items + xs == items;
    } else {
      AbsorbScans(o, xs[0]);
      ScanItemsSnoc(items, xs[0]);
      AbsorbAllScans(Absorb(o, xs[0]), items + [xs[0]], xs[1..]);
      FirstMoved(items, xs);
    }
  }

  lemma {:induction false} ContributesQuietly(e: InputEvent, letIn: bool, owner: u32, last: bool)
    ensures forall x :: x in Contribution(e, letIn, owner, last) ==> Quiet(x)
  {
  }

  /** The output scans as the contributions do, on every stream. */
  lemma {:induction false} OutputScans(es: seq<InputEvent>)
    requires BoundedSlots(es)
    ensures ScanAll(Output(Recorded(es))) == ScanItems(Items(es))
  {
    if es != [] {
      var pre, e := es[..|es| - 1], es[|es| - 1];
      OutputScans(pre);
      BooksKept(pre);
      var l := LedgerRun(pre);
      DeliverAbsorbs(Recorded(pre), l, e);
      ContributesQuietly(e, l.armed, OwnerOf(l.owner, l.slot), l.tally == 1);
      AbsorbAllScans(Recorded(pre), Items(pre), LedgerPart(l, e));
    }
  }

  /** What the kernel's part of the account does to a scan. */
  function PartScan(down: Option<set<u32>>, k: Kernel, e: InputEvent): Option<set<u32>> {
    var owner := OwnerOf(k.live, k.cursor);
    if IsContact(e) then if IsRepeat(k, e) then down else Next(down, Record(e.time, e.value, e.code, e.value))
    else if IsLift(e) || (IsPosition(e) && owner != MINUS_ONE) then
      Next(down, Record(e.time, owner, e.code, e.value))
    else down
  }

  lemma {:induction false} LiftScanned(xs: seq<Item>, k: Kernel, e: InputEvent)
    requires IsLift(e)
    ensures ScanItems(xs + KernelPart(k, e)) == PartScan(ScanItems(xs), k, e)
  {
    var lifted := Copy(e, OwnerOf(k.live, k.cursor));
    ScanItemsSnoc(xs, lifted);
    if |k.live| == 1 {
      ScanItemsSnoc(xs + [lifted], ClosingSyn(e));
      ScanItemsSnoc(xs + [lifted] + [ClosingSyn(e)], Cut(EV_ABS));
      assert xs + KernelPart(k, e) == xs + [lifted] + [ClosingSyn(e)] + [Cut(EV_ABS)];
    } else {
      assert xs + KernelPart(k, e) == xs + [lifted];
    }
  }

  lemma {:induction false} KeyScanned(xs: seq<Item>, k: Kernel, e: InputEvent)
    requires IsKey(e)
    ensures ScanItems(xs + KernelPart(k, e)) == ScanItems(xs)
  {
    ScanItemsSnoc(xs, Copy(e, MINUS_ONE));
    if IsFlushingKey(e) {
      ScanItemsSnoc(xs + [Copy(e, MINUS_ONE)], Cut(EV_KEY));
      assert xs + KernelPart(k, e) == xs + [Copy(e, MINUS_ONE)] + [Cut(EV_KEY)];
    } else {
      assert xs + KernelPart(k, e) == xs + [Copy(e, MINUS_ONE)];
    }
  }

  lemma {:induction false} PartScanned(xs: seq<Item>, k: Kernel, e: InputEvent)
    ensures ScanItems(xs + KernelPart(k, e)) == PartScan(ScanItems(xs), k, e)
  {
    assert xs + [] == xs;
    if IsLift(e) {
      LiftScanned(xs, k, e);
    } else if IsKey(e) {
      KeyScanned(xs, k, e);
    } else if IsContact(e) {
      ScanItemsSnoc(xs, Copy(e, e.value));
    } else if IsSyn(e) {
      ScanItemsSnoc(xs, Copy(e, MINUS_ONE));
    } else if IsPosition(e) {
      ScanItemsSnoc(xs, Copy(e, OwnerOf(k.live, k.cursor)));
    }
  }

  /** No contact took another's slot. */
  predicate Unreplaced(es: seq<InputEvent>) {
    es == [] ||
    (var pre := es[..|es| - 1];
     Unreplaced(pre) && !IsReplacement(KernelRun(pre), es[|es| - 1]))
  }

  lemma {:induction false} PartKeeps(k: Kernel, e: InputEvent)
    requires Sound(k) && LegalEvent(k, e) && !IsReplacement(k, e)
    ensures PartScan(Some(k.live.Values), k, e) == Some(KernelStep(k, e).live.Values)
  {
    if k.cursor in k.live {
      assert k.live[k.cursor] in k.live.Values;
    }
    if IsLift(e) {
      ContactRemoved(k.live, k.cursor);
    } else if IsNewContact(k, e) {
      ContactAdded(k.live, k.cursor, e.value);
    } else if IsContact(e) {
      assert k.live[k.cursor := e.value] == k.live;
    }
  }

  /** The scan has failed, or holds a contact down that the kernel has not. */
  predicate Amiss(down: Option<set<u32>>, k: Kernel) {
    down.Some? ==> exists x :: x in down.value && x != MINUS_ONE && x !in k.live.Values
  }

  lemma {:induction false} StaysAmiss(down: Option<set<u32>>, k: Kernel, e: InputEvent)
    requires Amiss(down, k) && LegalEvent(k, e)
    ensures Amiss(PartScan(down, k, e), KernelStep(k, e))
  {
    if PartScan(down, k, e).Some? {
      assert down.Some?;
      var x :| x in down.value && x != MINUS_ONE && x !in k.live.Values;
      if k.cursor in k.live {
        assert k.live[k.cursor] in k.live.Values;
      }
      assert x in PartScan(down, k, e).value;
      forall i | i in KernelStep(k, e).live
        ensures KernelStep(k, e).live[i] != x
      {
        assert i in k.live ==> k.live[i] in k.live.Values;
      }
    }
  }

  lemma {:induction false} ReplacementAmiss(k: Kernel, e: InputEvent)
    requires Sound(k) && IsReplacement(k, e)
    ensures Amiss(PartScan(Some(k.live.Values), k, e), KernelStep(k, e))
  {
    var x := k.live[k.cursor];
    assert x in k.live.Values && x in PartScan(Some(k.live.Values), k, e).value;
    assert forall i :: i in KernelStep(k, e).live ==> KernelStep(k, e).live[i] != x;
  }

  /** The kernel's account of a legal stream is well bracketed exactly if no contact was
      replaced: the one that goes so is never lifted. */
  lemma {:induction false} KernelScans(es: seq<InputEvent>)
    requires Legal(es)
    ensures Unreplaced(es) ==> ScanItems(KernelItems(es)) == Some(KernelRun(es).live.Values)
    ensures !Unreplaced(es) ==> Amiss(ScanItems(KernelItems(es)), KernelRun(es))
  {
    if es != [] {
      var pre, e := es[..|es| - 1], es[|es| - 1];
      var k := KernelRun(pre);
      KernelScans(pre);
      KernelSound(pre);
      PartScanned(KernelItems(pre), k, e);
      if !Unreplaced(pre) {
        StaysAmiss(ScanItems(KernelItems(pre)), k, e);
      } else if IsReplacement(k, e) {
        ReplacementAmiss(k, e);
      } else {
        PartKeeps(k, e);
      }
    } else {
      assert IDLE.live.Values == {};
    }
  }

  /** Over a legal and truthful stream the whole output, packets and buffer, is well
      bracketed whatever key presses cut it, leaving down the kernel's contacts, if and only
      if no contact was replaced. */
  lemma {:induction false} WellBracketed(es: seq<InputEvent>)
    requires Legal(es) && Truthful(es)
    ensures BoundedSlots(es)
    ensures ScanAll(Output(Recorded(es))) == Some(KernelRun(es).live.Values) <==> Unreplaced(es)
  {
    LegalIsBounded(es);
    OutputScans(es);
    TruthfulFollows(es);
    KernelScans(es);
  }

  /** A replacement drives the count up, and then the gesture cannot end. */
  lemma {:induction false} DriftIsReplacement(es: seq<InputEvent>)
    requires Legal(es) && Truthful(es)
    ensures Drift(es) >= 0 && (Drift(es) == 0 <==> Unreplaced(es))
  {
    if es != [] {
      DriftIsReplacement(es[..|es| - 1]);
    }
  }

  function Downs(rs: seq<Record>): nat {
    if rs == [] then 0
    else
      var r := rs[|rs| - 1];
      Downs(rs[..|rs| - 1]) + if r.id != MINUS_ONE && r.code == ABS_MT_TRACKING_ID && r.value != MINUS_ONE then 1 else 0
  }

  function Lifts(rs: seq<Record>): nat {
    if rs == [] then 0
    else
      var r := rs[|rs| - 1];
      Lifts(rs[..|rs| - 1]) + if r.id != MINUS_ONE && r.code == ABS_MT_TRACKING_ID && r.value == MINUS_ONE then 1 else 0
  }

  lemma {:induction false} ScanBalances(rs: seq<Record>)
    requires ScanAll(rs).Some?
    ensures Downs(rs) == Lifts(rs) + |ScanAll(rs).value|
  {
    if rs != [] {
      ScanBalances(rs[..|rs| - 1]);
    }
  }

  /** At each moment no contact is down, as many contacts were set down as were lifted. */
  lemma {:induction false} DownsMatchLifts(es: seq<InputEvent>)
    requires Legal(es) && Truthful(es) && KernelRun(es).live == map[]
    ensures BoundedSlots(es)
    ensures Downs(Output(Recorded(es))) == Lifts(Output(Recorded(es)))
  {
    TruthfulFollows(es);
    DriftIsReplacement(es);
    WellBracketed(es);
    ScanBalances(Output(Recorded(es)));
    assert KernelRun(es).live.Values == {};
  }
}
