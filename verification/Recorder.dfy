/** The on-device recorder: the growing event buffer, the 32-entry table of touch
    slots, and `parse_event`, which turns kernel input events into gestures.

    The classes follow evtCap/jni/event/event_getter.h; their methods are proved
    against the value-level functions of this module, and modules Tracking and
    Recording prove what those functions mean over whole runs. */
module Recorder {
  import opened Words

  const EV_SYN: u16 := 0x00
  const EV_KEY: u16 := 0x01
  const EV_ABS: u16 := 0x03
  const SYN_REPORT: u16 := 0x00
  const ABS_MT_SLOT: u16 := 0x2f
  const ABS_MT_POSITION_X: u16 := 0x35
  const ABS_MT_POSITION_Y: u16 := 0x36
  const ABS_MT_TRACKING_ID: u16 := 0x39
  const KEY_SLASH: u16 := 53
  const BTN_TOOL_FINGER: u16 := 0x145
  const BTN_TOUCH: u16 := 0x14a

  const ID_MAP_SIZE := 32

  datatype InputEvent = InputEvent(time: Timeval, etype: u16, code: u16, value: u32)

  /** One column of the four parallel arrays. */
  datatype Record = Record(tv: Timeval, id: u32, code: u16, value: u32)

  datatype Pair = Pair(slot: u32, value: u32)

  const FREE_PAIR := Pair(MINUS_ONE, MINUS_ONE)

  datatype Verdict = Con | Skip | End

  /** What `parse_event` works on: the table, its cursor and counter, the
      `slot_flag`, and the buffered records with the type of the last event. */
  datatype State = State(table: seq<Pair>, cursor: u32, count: int, flag: bool, etype: u16, recs: seq<Record>)

  predicate IsDiscarded(code: u16) {
    code == BTN_TOOL_FINGER || code == KEY_SLASH
  }

  predicate IsTracking(e: InputEvent) {
    e.etype == EV_ABS && e.code == ABS_MT_TRACKING_ID
  }

  predicate IsLift(e: InputEvent) {
    IsTracking(e) && e.value == MINUS_ONE
  }

  predicate IsContact(e: InputEvent) {
    IsTracking(e) && e.value != MINUS_ONE
  }

  predicate IsSlot(e: InputEvent) {
    e.etype == EV_ABS && e.code == ABS_MT_SLOT
  }

  predicate IsPosition(e: InputEvent) {
    e.etype == EV_ABS && (e.code == ABS_MT_POSITION_X || e.code == ABS_MT_POSITION_Y)
  }

  predicate IsSyn(e: InputEvent) {
    e.etype == EV_SYN && e.code == SYN_REPORT
  }

  predicate IsKey(e: InputEvent) {
    e.etype == EV_KEY && !IsDiscarded(e.code)
  }

  /** The key events that flush the buffer at once. */
  predicate IsFlushingKey(e: InputEvent) {
    IsKey(e) && e.code != BTN_TOUCH
  }

  /** `event_info::add`: a SYN_REPORT that would open the buffer or follow another
      one is dropped.  The test looks at the code alone. */
  function Append(recs: seq<Record>, r: Record): seq<Record> {
    if r.code == SYN_REPORT && (recs == [] || recs[|recs| - 1].code == SYN_REPORT) then recs
    else recs + [r]
  }

  predicate WellFormed(s: State) {
    |s.table| == ID_MAP_SIZE && s.cursor < ID_MAP_SIZE
  }

  function FreeTable(): (t: seq<Pair>)
    ensures |t| == ID_MAP_SIZE && forall i :: 0 <= i < |t| ==> t[i] == FREE_PAIR
  {
    seq(ID_MAP_SIZE, _ => FREE_PAIR)
  }

  const INITIAL := State(FreeTable(), 0, 0, true, EV_SYN, [])

  function TrackingStep(s: State, e: InputEvent): (State, Verdict)
    requires WellFormed(s)
  {
    if e.value == MINUS_ONE then
      var id := s.table[s.cursor].value;
      var lifted := Append(s.recs, Record(e.time, id, e.code, e.value));
      if s.count - 1 == 0 then
        (State(FreeTable(), 0, 0, true, s.etype, Append(lifted, Record(e.time, MINUS_ONE, SYN_REPORT, 0))), End)
      else
        (s.(table := s.table[s.cursor := FREE_PAIR], count := s.count - 1, recs := lifted), Skip)
    else if !s.flag then
      (s, Skip)
    else
      (s.(table := s.table[s.cursor := Pair(Wrap32(s.count), e.value)], count := s.count + 1, flag := false,
          recs := Append(s.recs, Record(e.time, e.value, e.code, e.value))), Skip)
  }

  /** `parse_event` on values.  The table is only touched under a cursor in range. */
  function Step(s0: State, e: InputEvent): (State, Verdict)
    requires WellFormed(s0)
  {
    var s := s0.(etype := e.etype);
    if IsSyn(e) then
      (s.(recs := Append(s.recs, Record(e.time, MINUS_ONE, e.code, e.value))), Skip)
    else if IsTracking(e) then
      TrackingStep(s, e)
    else if IsSlot(e) then
      (s.(cursor := e.value, flag := true), Skip)
    else if IsPosition(e) then
      var id := s.table[s.cursor].value;
      if id == MINUS_ONE then (s, Skip)
      else (s.(recs := Append(s.recs, Record(e.time, id, e.code, e.value))), Con)
    else if IsKey(e) then
      (s.(recs := Append(s.recs, Record(e.time, MINUS_ONE, e.code, e.value))),
       if e.code == BTN_TOUCH then Skip else End)
    else
      (s, Skip)
  }

  // ------------------------------------------------------------ event by event

  /** The buffer with one more record.  One of code 0 is kept only after one of another code. */
  lemma {:induction false} BufferGrows(recs: seq<Record>, r: Record)
    ensures r.code != 0 ==> Append(recs, r) == recs + [r]
    ensures r.code == 0 ==> Append(recs, r) == if recs == [] || recs[|recs| - 1].code == 0 then recs else recs + [r]
  {
  }

  /** At first all 32 slots are free, nothing is recorded, and a contact will be let in. */
  lemma {:induction false} StartsFree()
    ensures INITIAL == State(seq(32, _ => Pair(0xffff_ffff, 0xffff_ffff)), 0, 0, true, 0, [])
    ensures WellFormed(INITIAL)
  {
    assert FreeTable() == seq(32, _ => Pair(0xffff_ffff, 0xffff_ffff));
  }

  /** EV_SYN, SYN_REPORT. */
  lemma {:induction false} ReportStep(s: State, t: Timeval, v: u32)
    requires WellFormed(s)
    ensures var full := s.recs + [Record(t, 0xffff_ffff, 0, v)];
            Step(s, InputEvent(t, 0, 0, v)) ==
            (s.(etype := 0, recs := if s.recs == [] || s.recs[|s.recs| - 1].code == 0 then s.recs else full), Skip)
  {
  }

  /** ABS_MT_POSITION_X and ABS_MT_POSITION_Y, with a contact in the current slot or not. */
  lemma {:induction false} PositionStep(s: State, t: Timeval, code: u16, v: u32)
    requires WellFormed(s) && (code == 0x35 || code == 0x36)
    ensures var id := s.table[s.cursor].value;
            Step(s, InputEvent(t, 3, code, v)) ==
            if id == 0xffff_ffff then (s.(etype := 3), Skip)
            else (s.(etype := 3, recs := s.recs + [Record(t, id, code, v)]), Con)
  {
  }

  /** ABS_MT_TRACKING_ID of a new contact: let in when the flag is up, and otherwise dropped. */
  lemma {:induction false} ContactStep(s: State, t: Timeval, v: u32)
    requires WellFormed(s) && v != 0xffff_ffff && 0 <= s.count < 0x1_0000_0000
    ensures Step(s, InputEvent(t, 3, 0x39, v)) ==
            if !s.flag then (s.(etype := 3), Skip)
            else (State(s.table[s.cursor := Pair(s.count, v)], s.cursor, s.count + 1, false, 3,
                        s.recs + [Record(t, v, 0x39, v)]), Skip)
  {
  }

  /** ABS_MT_TRACKING_ID -1 with more contacts counted. */
  lemma {:induction false} LiftStep(s: State, t: Timeval)
    requires WellFormed(s) && s.count != 1
    ensures var id := s.table[s.cursor].value;
            Step(s, InputEvent(t, 3, 0x39, 0xffff_ffff)) ==
            (State(s.table[s.cursor := Pair(0xffff_ffff, 0xffff_ffff)], s.cursor, s.count - 1, s.flag, 3,
                   s.recs + [Record(t, id, 0x39, 0xffff_ffff)]), Skip)
  {
  }

  /** ABS_MT_TRACKING_ID -1 of the last contact counted. */
  lemma {:induction false} LastLiftStep(s: State, t: Timeval)
    requires WellFormed(s) && s.count == 1
    ensures var id := s.table[s.cursor].value;
            Step(s, InputEvent(t, 3, 0x39, 0xffff_ffff)) ==
            (State(seq(32, _ => Pair(0xffff_ffff, 0xffff_ffff)), 0, 0, true, 3,
                   s.recs + [Record(t, id, 0x39, 0xffff_ffff)] + [Record(t, 0xffff_ffff, 0, 0)]), End)
  {
    StartsFree();
  }

  /** ABS_MT_SLOT. */
  lemma {:induction false} SlotStep(s: State, t: Timeval, v: u32)
    requires WellFormed(s)
    ensures Step(s, InputEvent(t, 3, 0x2f, v)) == (s.(etype := 3, cursor := v, flag := true), Skip)
  {
  }

  /** EV_KEY: KEY_SLASH and BTN_TOOL_FINGER are ignored, BTN_TOUCH waits in the buffer, and
      any other ends the packet. */
  lemma {:induction false} KeyStep(s: State, t: Timeval, code: u16, v: u32)
    requires WellFormed(s)
    ensures Step(s, InputEvent(t, 1, code, v)) ==
            if code == 53 || code == 0x145 then (s.(etype := 1), Skip)
            else
              (s.(etype := 1, recs := Append(s.recs, Record(t, 0xffff_ffff, code, v))),
               if code == 0x14a then Skip else End)
  {
  }

  /** Whatever is none of these leaves but its type. */
  lemma {:induction false} OtherStep(s: State, e: InputEvent)
    requires WellFormed(s) && e.etype != 1 && !(e.etype == 0 && e.code == 0)
    requires !(e.etype == 3 && e.code in {0x2f, 0x35, 0x36, 0x39})
    ensures Step(s, e) == (s.(etype := e.etype), Skip)
  {
  }

  /** The growing buffer of a gesture, held as four parallel arrays. */
  class EventInfo {
    var eventType: u16
    var count: nat
    var devId: u32
    var tv: seq<Timeval>
    var id: seq<u32>
    var code: seq<u16>
    var value: seq<u32>

    ghost predicate Valid()
      reads this
    {
      |tv| == count && |id| == count && |code| == count && |value| == count
    }

    ghost function Records(): (r: seq<Record>)
      requires Valid()
      reads this
      ensures |r| == count
    {
      seq(count, i requires 0 <= i < count && Valid() reads this => Record(tv[i], id[i], code[i], value[i]))
    }

    constructor ()
      ensures Valid() && Records() == [] && eventType == EV_SYN
    {
      eventType, count, devId := EV_SYN, 0, 0;
      tv, id, code, value := [], [], [], [];
    }

    method SetType(t: u16)
      requires Valid()
      modifies this`eventType
      ensures Valid() && eventType == t && Records() == old(Records())
    {
      eventType := t;
    }

    method SetDevId(d: u32)
      requires Valid()
      modifies this`devId
      ensures Valid() && devId == d && Records() == old(Records())
    {
      devId := d;
    }

    /** The four arrays grow together, or not at all. */
    method Add(t: Timeval, i: u32, c: u16, v: u32)
      requires Valid()
      modifies this
      ensures Valid() && eventType == old(eventType) && devId == old(devId)
      ensures Records() == Append(old(Records()), Record(t, i, c, v))
    {
      if c == SYN_REPORT {
        if count == 0 || (count > 0 && code[count - 1] == SYN_REPORT) {
          return;
        }
      }
      tv := tv + [t];
      id := id + [i];
      code := code + [c];
      value := value + [v];
      count := count + 1;
    }

    method Clear()
      requires Valid()
      modifies this
      ensures Valid() && Records() == [] && eventType == old(eventType) && devId == old(devId)
    {
      tv, id, code, value := [], [], [], [];
      count := 0;
    }
  }

  /** The table from touch slot to contact. */
  class EventIdMap {
    const pair: array<Pair>
    var currentSlot: u32
    var slotCount: int

    ghost predicate Valid()
    {
      pair.Length == ID_MAP_SIZE
    }

    constructor ()
      ensures Valid() && fresh(pair)
      ensures pair[..] == INITIAL.table && currentSlot == 0 && slotCount == 0
    {
      pair := new Pair[ID_MAP_SIZE](_ => FREE_PAIR);
      currentSlot, slotCount := 0, 0;
    }

    method AddTouchId(v: u32)
      requires Valid() && currentSlot < ID_MAP_SIZE
      modifies this`slotCount, pair
      ensures pair[..] == old(pair[..])[currentSlot := Pair(Wrap32(old(slotCount)), v)]
      ensures slotCount == old(slotCount) + 1
    {
      pair[currentSlot] := Pair(Wrap32(slotCount), v);
      slotCount := slotCount + 1;
    }

    method RemoveCurrentTouchId()
      requires Valid() && currentSlot < ID_MAP_SIZE
      modifies this`slotCount, pair
      ensures pair[..] == old(pair[..])[currentSlot := FREE_PAIR]
      ensures slotCount == old(slotCount) - 1
    {
      pair[currentSlot] := FREE_PAIR;
      slotCount := slotCount - 1;
    }

    method ChangeCurrentTouchId(slot: u32)
      modifies this`currentSlot
      ensures currentSlot == slot
    {
      currentSlot := slot;
    }

    method GetCurrentTouchId() returns (p: Pair)
      requires Valid() && currentSlot < ID_MAP_SIZE
      ensures p == pair[currentSlot]
    {
      p := pair[currentSlot];
    }

    /** First slot holding a contact id, or -1. */
    method Get(v: u32) returns (r: int)
      requires Valid()
      ensures r == -1 ==> forall i :: 0 <= i < ID_MAP_SIZE ==> pair[i].value != v
      ensures r != -1 ==> 0 <= r < ID_MAP_SIZE && pair[r].value == v
      ensures r != -1 ==> forall i :: 0 <= i < r ==> pair[i].value != v
    {
      var i := 0;
      while i < ID_MAP_SIZE
        invariant 0 <= i <= ID_MAP_SIZE
        invariant forall k :: 0 <= k < i ==> pair[k].value != v
      {
        if pair[i].value == v {
          return i;
        }
        i := i + 1;
      }
      return -1;
    }

    method Clear()
      requires Valid()
      modifies this, pair
      ensures pair[..] == INITIAL.table && currentSlot == 0 && slotCount == 0
    {
      forall i | 0 <= i < pair.Length {
        pair[i] := FREE_PAIR;
      }
      slotCount := 0;
      currentSlot := 0;
    }
  }

  /** The event getter of one device. */
  class EventGetter {
    const ei: EventInfo
    const idMap: EventIdMap
    var slotFlag: bool

    ghost predicate Valid()
      reads this, ei, idMap
    {
      ei.Valid() && idMap.Valid()
    }

    ghost function Model(): State
      requires Valid()
      reads this, ei, idMap, idMap.pair
    {
      State(idMap.pair[..], idMap.currentSlot, idMap.slotCount, slotFlag, ei.eventType, ei.Records())
    }

    constructor ()
      ensures Valid() && fresh(ei) && fresh(idMap) && fresh(idMap.pair)
      ensures Model() == INITIAL
    {
      ei := new EventInfo();
      idMap := new EventIdMap();
      slotFlag := true;
    }

    method ParseTracking(e: InputEvent) returns (ret: Verdict)
      requires Valid() && WellFormed(Model()) && IsTracking(e)
      modifies this, ei, idMap, idMap.pair
      ensures Valid() && ei.devId == old(ei.devId)
      ensures (Model(), ret) == TrackingStep(old(Model()), e)
    {
      ret := Skip;
      if e.value == MINUS_ONE {
        var p := idMap.GetCurrentTouchId();
        idMap.RemoveCurrentTouchId();
        ei.Add(e.time, p.value, e.code, e.value);
        if idMap.slotCount == 0 {
          ei.Add(e.time, MINUS_ONE, SYN_REPORT, 0);
          idMap.Clear();
          ret := End;
          slotFlag := true;
        }
      } else {
        if slotFlag {
          slotFlag := false;
          idMap.AddTouchId(e.value);
          var p := idMap.GetCurrentTouchId();
          ei.Add(e.time, p.value, e.code, e.value);
        }
      }
    }

    method ParseEvent(e: InputEvent) returns (ret: Verdict)
      requires Valid() && WellFormed(Model())
      modifies this, ei, idMap, idMap.pair
      ensures Valid() && ei.devId == old(ei.devId)
      ensures (Model(), ret) == Step(old(Model()), e)
    {
      ret := Skip;
      ei.SetType(e.etype);
      if e.etype == EV_SYN {
        if e.code == SYN_REPORT {
          ei.Add(e.time, MINUS_ONE, e.code, e.value);
        }
      } else if e.etype == EV_ABS {
        if e.code == ABS_MT_TRACKING_ID {
          ret := ParseTracking(e);
        } else if e.code == ABS_MT_SLOT {
          idMap.ChangeCurrentTouchId(e.value);
          slotFlag := true;
        } else if e.code == ABS_MT_POSITION_X || e.code == ABS_MT_POSITION_Y {
          var p := idMap.GetCurrentTouchId();
          if p.value != MINUS_ONE {
            ei.Add(e.time, p.value, e.code, e.value);
            ret := Con;
          }
        }
      } else if e.etype == EV_KEY {
        if IsDiscarded(e.code) {
          return;
        }
        ei.Add(e.time, MINUS_ONE, e.code, e.value);
        if e.code != BTN_TOUCH {
          ret := End;
        }
      }
    }
  }
}
