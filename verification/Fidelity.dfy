/** Event types on replay.

    The wire carries one type per packet, that of the event which ended it, and the file
    has a type of its own only for zero reports.  This module proves exactly on which
    input streams every packet nevertheless replays as the events it was recorded from. */
module Fidelity {
  import opened Words
  import opened Recorder
  import opened Session
  import opened Recording
  import opened EventFile

  // --------------------------------------------------------- records and groups

  /** The input events behind some records. */
  function SourceEvents(ts: seq<Tagged>): seq<InputEvent> {
    if ts == [] then []
    else [InputEvent(ts[0].r.tv, ts[0].src, ts[0].r.code, ts[0].r.value)] + SourceEvents(ts[1..])
  }

  /** A record of the packet's own type, or the report the file format has a type for. */
  predicate KeepsType(etype: u16, t: Tagged) {
    if t.r.code == SYN_REPORT && t.r.value == 0 then t.src == EV_SYN else t.src == etype
  }

  predicate KeepTypes(etype: u16, ts: seq<Tagged>) {
    forall t :: t in ts ==> KeepsType(etype, t)
  }

  lemma {:induction false} TypesExact(etype: u16, ts: seq<Tagged>)
    ensures NormalisedAll(etype, Strip(ts)) == SourceEvents(ts) <==> KeepTypes(etype, ts)
  {
    if ts != [] {
      var t, tail := ts[0], ts[1..];
      TypesExact(etype, tail);
      assert Strip(ts)[1..] == Strip(tail) && Strip(ts)[0] == t.r;
      assert ts == [t] + tail;
      ConsEqual(Normalised(etype, t.r), InputEvent(t.r.tv, t.src, t.r.code, t.r.value),
                NormalisedAll(etype, Strip(tail)), SourceEvents(tail));
      assert KeepTypes(etype, ts) <==> KeepsType(etype, t) && KeepTypes(etype, tail) by {
        assert forall x :: x in ts <==> x == t || x in tail;
      }
    }
  }

  lemma ConsEqual<T>(x: T, y: T, s: seq<T>, t: seq<T>)
    ensures [x] + s == [y] + t <==> x == y && s == t
  {
    assert ([x] + s)[1..] == s && ([y] + t)[1..] == t && ([x] + s)[0] == x && ([y] + t)[0] == y;
  }

  /** The records of the input behind packet k, without redundant reports. */
  function Segment(es: seq<InputEvent>, k: nat): seq<Tagged>
    requires k < |Segments(Items(es))|
  {
    Squeeze(Segments(Items(es))[k])
  }

  /** Every packet replays as the very events it was recorded from. */
  predicate AllReplay(es: seq<InputEvent>)
    requires BoundedSlots(es) && |Recorded(es).packets| < |Segments(Items(es))|
  {
    var ps := Recorded(es).packets;
    forall k :: 0 <= k < |ps| ==> NormalisedAll(ps[k].etype, ps[k].recs) == SourceEvents(Segment(es, k))
  }

  // -------------------------------------------------------- what the stream mixes

  /** What has been recorded since the last packet ended: any touch, any BTN_TOUCH, any
      report of a value other than 0; and whether the last record is not a report, so that
      a record of code 0 would be kept. */
  datatype Mix = Mix(touch: bool, button: bool, loud: bool, open: bool)

  const CLEAN := Mix(false, false, false, false)

  predicate LastLift(l: Ledger, e: InputEvent) {
    IsLift(e) && l.tally == 1
  }

  predicate Touches(l: Ledger, e: InputEvent) {
    IsLift(e) || (IsContact(e) && l.armed) || (IsPosition(e) && OwnerOf(l.owner, l.slot) != MINUS_ONE)
  }

  function MixStep(m: Mix, l: Ledger, e: InputEvent): Mix {
    if IsFlushingKey(e) || LastLift(l, e) then CLEAN
    else if Touches(l, e) then m.(touch := true, open := true)
    else if IsKey(e) then m.(button := true, open := true)
    else if IsSyn(e) && m.open then m.(loud := m.loud || e.value != 0, open := false)
    else m
  }

  function MixRun(es: seq<InputEvent>): Mix {
    if es == [] then CLEAN else MixStep(MixRun(es[..|es| - 1]), LedgerRun(es[..|es| - 1]), es[|es| - 1])
  }

  /** A key ends a packet with no touch in it, a lift one with no BTN_TOUCH, and neither one
      with a kept report of a value other than 0; nor is the key itself kept with code and
      value 0. */
  predicate UnmixedEvent(m: Mix, l: Ledger, e: InputEvent) {
    && (IsFlushingKey(e) ==> !m.touch && !m.loud && !(m.open && e.code == 0 && e.value == 0))
    && (LastLift(l, e) ==> !m.button && !m.loud)
  }

  predicate Unmixed(es: seq<InputEvent>) {
    es == [] ||
    (var pre := es[..|es| - 1];
     Unmixed(pre) && UnmixedEvent(MixRun(pre), LedgerRun(pre), es[|es| - 1]))
  }

  // ------------------------------------------------------------------- the proof

  /** A record that may be pending: a touch, a report, or a BTN_TOUCH. */
  predicate Pendable(t: Tagged) {
    || (t.src == EV_ABS && t.r.code != SYN_REPORT)
    || (t.src == EV_SYN && t.r.code == SYN_REPORT)
    || (t.src == EV_KEY && t.r.code == BTN_TOUCH)
  }

  predicate Describes(m: Mix, q: seq<Tagged>) {
    && (forall t :: t in q ==> Pendable(t))
    && (m.touch <==> exists t :: t in q && t.src == EV_ABS)
    && (m.button <==> exists t :: t in q && t.src == EV_KEY)
    && (m.loud <==> exists t :: t in q && t.src == EV_SYN && t.r.value != 0)
    && (m.open <==> q != [] && q[|q| - 1].r.code != SYN_REPORT)
  }

  lemma {:induction false} KeyKeeps(m: Mix, q: seq<Tagged>)
    requires Describes(m, q)
    ensures KeepTypes(EV_KEY, q) <==> !m.touch && !m.loud
    ensures KeepTypes(EV_ABS, q) <==> !m.button && !m.loud
  {
  }

  /** What a kept or dropped record makes of the pending ones. */
  function Appended(q: seq<Tagged>, t: Tagged): seq<Tagged> {
    if t.r.code == SYN_REPORT && (q == [] || q[|q| - 1].r.code == SYN_REPORT) then q else q + [t]
  }

  function Pending(items: seq<Item>): seq<Tagged> {
    var s := Segments(items);
    Squeeze(s[|s| - 1])
  }

  /** All ended packets so far keep their types. */
  predicate Good(items: seq<Item>)
    requires |Segments(items)| == |Cuts(items)| + 1
  {
    forall k :: 0 <= k < |Cuts(items)| ==> KeepTypes(Cuts(items)[k], Squeeze(Segments(items)[k]))
  }

  lemma {:induction false} OneMoreSegment(items: seq<Item>)
    ensures |Segments(items)| == |Cuts(items)| + 1
  {
    if items != [] {
      OneMoreSegment(items[..|items| - 1]);
    }
  }

  lemma RecordGrows(items: seq<Item>, t: Tagged)
    ensures var s := Segments(items); Segments(items + [Rec(t)]) == s[..|s| - 1] + [s[|s| - 1] + [t]]
    ensures Cuts(items + [Rec(t)]) == Cuts(items)
  {
    assert (items + [Rec(t)])[..|items|] == items;
    assert Cuts(items) + [] == Cuts(items);
  }

  lemma SqueezedOneMore(ts: seq<Tagged>, t: Tagged)
    ensures Squeeze(ts + [t]) == Appended(Squeeze(ts), t)
  {
    SqueezeSnoc(ts, t);
    SqueezeLast(ts);
    assert Squeeze(ts) + [] == Squeeze(ts);
  }

  lemma {:induction false} RecordPends(items: seq<Item>, t: Tagged)
    ensures |Segments(items)| == |Cuts(items)| + 1 && |Segments(items + [Rec(t)])| == |Cuts(items + [Rec(t)])| + 1
    ensures Pending(items + [Rec(t)]) == Appended(Pending(items), t)
    ensures Good(items + [Rec(t)]) <==> Good(items)
  {
    OneMoreSegment(items);
    RecordGrows(items, t);
    var s, s' := Segments(items), Segments(items + [Rec(t)]);
    SqueezedOneMore(s[|s| - 1], t);
    assert forall k :: 0 <= k < |s| - 1 ==> s'[k] == s[k];
  }

  lemma {:induction false} CutEnds(items: seq<Item>, etype: u16)
    ensures |Segments(items)| == |Cuts(items)| + 1
    ensures |Segments(items + [Cut(etype)])| == |Cuts(items + [Cut(etype)])| + 1
    ensures Pending(items + [Cut(etype)]) == []
    ensures Good(items + [Cut(etype)]) <==> Good(items) && KeepTypes(etype, Pending(items))
  {
    OneMoreSegment(items);
    assert (items + [Cut(etype)])[..|items|] == items;
    var s, c := Segments(items), Cuts(items);
    var s', c' := Segments(items + [Cut(etype)]), Cuts(items + [Cut(etype)]);
    assert s' == s + [[]] && c' == c + [etype] && Squeeze([]) == [];
    assert forall k :: 0 <= k < |c| ==> s'[k] == s[k] && c'[k] == c[k];
    assert s'[|c|] == s[|s| - 1] && c'[|c|] == etype;
  }

  lemma {:induction false} RecordDescribed(m: Mix, q: seq<Tagged>, l: Ledger, e: InputEvent, id: u32)
    requires Describes(m, q) && !IsFlushingKey(e) && !LastLift(l, e)
    requires Touches(l, e) || IsKey(e) || IsSyn(e)
    ensures Describes(MixStep(m, l, e), Appended(q, Copy(e, id).t))
  {
    var t := Copy(e, id).t;
    assert forall x :: x in q + [t] <==> x in q || x == t;
  }

  lemma {:induction false} AppendedKeeps(q: seq<Tagged>, t: Tagged, etype: u16)
    ensures KeepTypes(etype, Appended(q, t)) <==> KeepTypes(etype, q) && (Appended(q, t) == q || KeepsType(etype, t))
  {
    assert forall x :: x in q + [t] <==> x in q || x == t;
    assert |q + [t]| != |q|;
  }

  /** From `items` to `all`: what is pending is described, and the packets ended keep their
      types if they did before and `ok` holds. */
  predicate Advances(items: seq<Item>, all: seq<Item>, m: Mix, ok: bool)
    requires |Segments(items)| == |Cuts(items)| + 1
  {
    && |Segments(all)| == |Cuts(all)| + 1
    && Describes(m, Pending(all))
    && (Good(all) <==> Good(items) && ok)
  }

  lemma {:induction false} KeyEnds(items: seq<Item>, m: Mix, l: Ledger, e: InputEvent)
    requires IsFlushingKey(e) && |Segments(items)| == |Cuts(items)| + 1 && Describes(m, Pending(items))
    ensures Advances(items, items + [Copy(e, MINUS_ONE)] + [Cut(EV_KEY)], CLEAN, UnmixedEvent(m, l, e))
  {
    var t := Copy(e, MINUS_ONE).t;
    RecordPends(items, t);
    CutEnds(items + [Rec(t)], EV_KEY);
    AppendedKeeps(Pending(items), t, EV_KEY);
    KeyKeeps(m, Pending(items));
    assert |Pending(items) + [t]| != |Pending(items)|;
  }

  lemma {:induction false} LiftEnds(items: seq<Item>, m: Mix, l: Ledger, e: InputEvent, id: u32)
    requires LastLift(l, e) && |Segments(items)| == |Cuts(items)| + 1 && Describes(m, Pending(items))
    ensures Advances(items, items + [Copy(e, id)] + [ClosingSyn(e)] + [Cut(EV_ABS)], CLEAN, UnmixedEvent(m, l, e))
  {
    var t, c := Copy(e, id).t, ClosingSyn(e).t;
    var q := Pending(items);
    RecordPends(items, t);
    RecordPends(items + [Rec(t)], c);
    CutEnds(items + [Rec(t)] + [Rec(c)], EV_ABS);
    AppendedKeeps(q, t, EV_ABS);
    AppendedKeeps(Appended(q, t), c, EV_ABS);
    KeyKeeps(m, q);
  }

  lemma {:induction false} OneRecord(items: seq<Item>, m: Mix, l: Ledger, e: InputEvent, id: u32)
    requires |Segments(items)| == |Cuts(items)| + 1 && Describes(m, Pending(items))
    requires !IsFlushingKey(e) && !LastLift(l, e) && (Touches(l, e) || IsKey(e) || IsSyn(e))
    ensures Advances(items, items + [Copy(e, id)], MixStep(m, l, e), UnmixedEvent(m, l, e))
  {
    RecordPends(items, Copy(e, id).t);
    RecordDescribed(m, Pending(items), l, e, id);
  }

  /** The id a contribution bears. */
  function IdOf(l: Ledger, e: InputEvent): u32 {
    if IsLift(e) || IsPosition(e) then OwnerOf(l.owner, l.slot) else if IsContact(e) then e.value else MINUS_ONE
  }

  lemma {:induction false} ContributionCases(items: seq<Item>, l: Ledger, e: InputEvent)
    ensures items + LedgerPart(l, e) ==
            if IsFlushingKey(e) then items + [Copy(e, MINUS_ONE)] + [Cut(EV_KEY)]
            else if LastLift(l, e) then items + [Copy(e, IdOf(l, e))] + [ClosingSyn(e)] + [Cut(EV_ABS)]
            else if Touches(l, e) || IsKey(e) || IsSyn(e) then items + [Copy(e, IdOf(l, e))]
            else items
  {
  }

  /** Over every stream, the packets ended so far keep their types exactly when the stream
      is unmixed. */
  lemma {:induction false} MixExact(es: seq<InputEvent>)
    ensures |Segments(Items(es))| == |Cuts(Items(es))| + 1
    ensures Describes(MixRun(es), Pending(Items(es)))
    ensures Good(Items(es)) <==> Unmixed(es)
  {
    OneMoreSegment(Items(es));
    if es == [] {
      assert Squeeze([]) == [];
    } else {
      var pre, e := es[..|es| - 1], es[|es| - 1];
      MixExact(pre);
      MixStepExact(Items(pre), MixRun(pre), LedgerRun(pre), e);
    }
  }

  lemma {:induction false} MixStepExact(items: seq<Item>, m: Mix, l: Ledger, e: InputEvent)
    requires |Segments(items)| == |Cuts(items)| + 1 && Describes(m, Pending(items))
    ensures Advances(items, items + LedgerPart(l, e),
                     MixStep(m, l, e), UnmixedEvent(m, l, e))
  {
    ContributionCases(items, l, e);
    if IsFlushingKey(e) {
      KeyEnds(items, m, l, e);
    } else if LastLift(l, e) {
      LiftEnds(items, m, l, e, IdOf(l, e));
    } else if Touches(l, e) || IsKey(e) || IsSyn(e) {
      OneRecord(items, m, l, e, IdOf(l, e));
    }
  }

  /** The exact condition for replay: over every stream, each packet replays as the very
      events it was recorded from if and only if the stream is unmixed. */
  lemma {:induction false} ReplayExact(es: seq<InputEvent>)
    requires BoundedSlots(es)
    ensures |Recorded(es).packets| < |Segments(Items(es))|
    ensures AllReplay(es) <==> Unmixed(es)
  {
    RecordingConserves(es);
    MixExact(es);
    var ps := Recorded(es).packets;
    forall k | 0 <= k < |ps|
      ensures NormalisedAll(ps[k].etype, ps[k].recs) == SourceEvents(Segment(es, k))
              <==> KeepTypes(Cuts(Items(es))[k], Segment(es, k))
    {
      TypesExact(ps[k].etype, Segment(es, k));
    }
  }

  // ------------------------------------------------------------------- two cases

  /** Leaves no record but of a touch or a plain report. */
  predicate TouchOnlyEvent(e: InputEvent) {
    (e.etype == EV_KEY ==> IsDiscarded(e.code)) && (IsSyn(e) ==> e.value == 0)
  }

  predicate TouchOnly(es: seq<InputEvent>) {
    forall e :: e in es ==> TouchOnlyEvent(e)
  }

  lemma {:induction false} TouchOnlyUnmixed(es: seq<InputEvent>)
    requires TouchOnly(es)
    ensures Unmixed(es) && !MixRun(es).button && !MixRun(es).loud
  {
    if es != [] {
      assert es[|es| - 1] in es;
      TouchOnlyUnmixed(es[..|es| - 1]);
    }
  }

  /** A recording of touches alone replays event for event. */
  lemma {:induction false} TouchesReplayExactly(es: seq<InputEvent>)
    requires BoundedSlots(es) && TouchOnly(es)
    ensures |Recorded(es).packets| < |Segments(Items(es))| && AllReplay(es)
  {
    ReplayExact(es);
    TouchOnlyUnmixed(es);
  }

  /** A key pressed in the middle of a gesture takes the touches recorded so far with it,
      and they replay as key events. */
  lemma {:induction false} KeyRelabelsTouches(es: seq<InputEvent>, e: InputEvent, i: nat)
    requires BoundedSlots(es) && IsFlushingKey(e) && i < |Recorded(es).st.recs|
    requires Recorded(es).st.recs[i].code != SYN_REPORT
    ensures BoundedSlots(es + [e])
    ensures var o := Recorded(es + [e]);
            && |o.packets| == |Recorded(es).packets| + 1
            && var p := o.packets[|o.packets| - 1];
               && i < |p.recs| && p.recs[i] == Recorded(es).st.recs[i]
               && |NormalisedAll(p.etype, p.recs)| == |p.recs|
               && NormalisedAll(p.etype, p.recs)[i].etype == EV_KEY
  {
    assert (es + [e])[..|es|] == es;
    var o := Recorded(es + [e]);
    var p := o.packets[|o.packets| - 1];
    NormalisedAt(p.etype, p.recs, i);
  }
}
