/** The two players: reading an event file into the list, replaying a group in time, and
    the play commands of the control connection. */
module Players {
  import opened Words
  import opened Recorder
  import opened EventFile
  import opened EventList
  import opened ControlWords
  import Pipeline

  // ------------------------------------------------------------------- reading

  /** `CEvtPlayer::read_event`: the number of groups in the list, or -1 when the file
      stops before the end token; the groups completed are in the list either way. */
  method ReadEvent(file: bytes, list: List) returns (r: int)
    requires list.Valid()
    modifies list.repr
    ensures list.Valid() && list.contents == old(list.contents) + ParseFile(file).entries
    ensures r == if ParseFile(file).ended then |list.contents| else -1
    ensures fresh(list.repr - old(list.repr))
  {
    var rest, id, e := file, MINUS_ONE, [];
    while true
      invariant list.Valid()
      invariant fresh(list.repr - old(list.repr))
      invariant list.contents + Parse(rest, id, e).entries == old(list.contents) + ParseFile(file).entries
      invariant Parse(rest, id, e).ended == ParseFile(file).ended
      decreases |rest|
    {
      if |rest| < TOKEN_LEN {
        return -1;
      }
      var tv := GetTimeval(rest, 0);
      if tv.sec == MINUS_ONE {
        if tv.usec == MINUS_ONE {
          ghost var before := list.contents;
          var _ := list.Insert(Entry(id, e));
          ghost var more := Parse(rest[TOKEN_LEN..], MINUS_ONE, []).entries;
          assert before + ([Entry(id, e)] + more) == list.contents + more;
          rest, id, e := rest[TOKEN_LEN..], MINUS_ONE, [];
          continue;
        } else if tv.usec == 0x8fff_ffff {
          break;
        }
      }
      if |rest| < RECORD_LEN {
        return -1;
      }
      id := Get32(rest, 8);
      var etype, code, value := Get16(rest, 12), Get16(rest, 14), Get32(rest, 16);
      e := e + [InputEvent(tv, if code == 0 && value == 0 then EV_SYN else etype, code, value)];
      rest := rest[RECORD_LEN..];
    }
    r := list.GetCount();
  }

  /** One call of the on-device `read_event`: consumes a group, or the end of the file. */
  method ReadGroupOnDevice(rest0: bytes, id0: u32, list: List) returns (rest: bytes, id: u32, more: bool)
    requires list.Valid() && ParseOnDevice(rest0, id0, []).Some?
    modifies list.repr
    ensures list.Valid() && |rest| < |rest0|
    ensures more ==> ParseOnDevice(rest, id, []).Some?
    ensures list.contents + (if more then ParseOnDevice(rest, id, []).value else []) ==
            old(list.contents) + ParseOnDevice(rest0, id0, []).value
    ensures fresh(list.repr - old(list.repr))
  {
    rest, id := rest0, id0;
    var e: seq<InputEvent> := [];
    while true
      invariant ParseOnDevice(rest, id, e) == ParseOnDevice(rest0, id0, []) && |rest| <= |rest0|
      decreases |rest|
    {
      var tv := GetTimeval(rest, 0);
      if tv.sec == MINUS_ONE {
        if tv.usec == MINUS_ONE {
          rest := rest[TOKEN_LEN..];
          break;
        } else if tv.usec == 0x8fff_ffff {
          return rest[TOKEN_LEN..], id, false;
        }
      }
      id := Get32(rest, 8);
      var etype, code, value := Get16(rest, 12), Get16(rest, 14), Get32(rest, 16);
      e := e + [InputEvent(tv, if code == 0 && value == 0 then EV_SYN else etype, code, value)];
      rest := rest[RECORD_LEN..];
    }
    if e != [] {
      ghost var before := list.contents;
      var _ := list.Insert(Entry(id, e));
      ghost var tail := ParseOnDevice(rest, id, []).value;
      assert before + ([Entry(id, e)] + tail) == list.contents + tail;
    }
    more := true;
  }

  /** `event_player::open_event_file` on a file that has its end token. */
  method OpenEventFile(file: bytes, list: List)
    requires list.Valid() && ParseOnDevice(file, MINUS_ONE, []).Some?
    modifies list.repr
    ensures list.Valid()
    ensures list.contents == old(list.contents) + ParseOnDevice(file, MINUS_ONE, []).value
    ensures fresh(list.repr - old(list.repr))
  {
    var rest, id, more := file, MINUS_ONE, true;
    while more
      invariant list.Valid()
      invariant fresh(list.repr - old(list.repr))
      invariant more ==> ParseOnDevice(rest, id, []).Some?
      invariant list.contents + (if more then ParseOnDevice(rest, id, []).value else []) ==
                old(list.contents) + ParseOnDevice(file, MINUS_ONE, []).value
      decreases |rest|, more
    {
      rest, id, more := ReadGroupOnDevice(rest, id, list);
    }
  }

  // -------------------------------------------------------------------- replay

  const SECOND := 1_000_000

  /** Below this the player does not wait. */
  const SHORT_GAP := 100

  function Signed(x: u32): int {
    if x < 0x8000_0000 then x else x - TWO_32
  }

  predicate NormalisedTime(t: Timeval) {
    t.sec < 0x8000_0000 && t.usec < SECOND
  }

  function Micros(t: Timeval): int {
    Signed(t.sec) * SECOND + Signed(t.usec)
  }

  /** `timersub`. */
  function TimerSub(a: Timeval, b: Timeval): (int, int) {
    var sec, usec := Signed(a.sec) - Signed(b.sec), Signed(a.usec) - Signed(b.usec);
    if usec < 0 then (sec - 1, usec + SECOND) else (sec, usec)
  }

  /** How long `select` sleeps on a difference; a negative one it refuses. */
  function Slept(d: (int, int)): nat {
    if !(d.0 > 0 || d.1 > SHORT_GAP) || d.0 < 0 || d.1 < 0 then 0 else d.0 * SECOND + d.1
  }

  const NO_TIME := Timeval(MINUS_ONE, MINUS_ONE)

  function LastTime(es: seq<InputEvent>): Timeval {
    if es == [] then NO_TIME else es[|es| - 1].time
  }

  /** The sleeps before the events of a group: none before the first one, nor after one
      whose microseconds look like the unset marker. */
  function TotalSleep(es: seq<InputEvent>): nat {
    if es == [] then 0
    else
      var pre := es[..|es| - 1];
      TotalSleep(pre) +
      if LastTime(pre).usec != MINUS_ONE then Slept(TimerSub(es[|es| - 1].time, LastTime(pre))) else 0
  }

  /** The zero report written after a group. */
  function Report(es: seq<InputEvent>): InputEvent {
    InputEvent(LastTime(es), EV_SYN, SYN_REPORT, 0)
  }

  /** `play_event`: what is written to the device, and the time slept in all; `opens` is
      whether the device of the group can be opened. */
  method PlayEvent(list: List, seqNo: int, opens: bool)
    returns (ok: bool, device: u32, written: seq<InputEvent>, slept: nat)
    requires list.Valid()
    ensures ok <==> 0 <= seqNo < |list.contents| && opens
    ensures ok ==>
              && device == list.contents[seqNo].id
              && written == list.contents[seqNo].events + [Report(list.contents[seqNo].events)]
              && (list.contents[seqNo].events != [] ==>
                    var last := list.contents[seqNo].events[|list.contents[seqNo].events| - 1];
                    written[|written| - 1] == InputEvent(last.time, 0, 0, 0))
              && (list.contents[seqNo].events == [] ==>
                    written == [InputEvent(Timeval(0xffff_ffff, 0xffff_ffff), 0, 0, 0)])
              && slept == TotalSleep(list.contents[seqNo].events)
    ensures !ok ==> written == [] && slept == 0
  {
    device, written, slept := 0, [], 0;
    var p := list.GetEventData(seqNo);
    if p.None? {
      return false, device, written, slept;
    }
    device := p.value.id;
    if !opens {
      return false, device, written, slept;
    }
    var e := p.value.events;
    var prev := NO_TIME;
    for i := 0 to |e|
      invariant prev == LastTime(e[..i]) && written == e[..i] && slept == TotalSleep(e[..i])
    {
      assert e[..i + 1][..i] == e[..i];
      if prev.usec != MINUS_ONE {
        var d := TimerSub(e[i].time, prev);
        if (d.0 > 0 || d.1 > SHORT_GAP) && d.0 >= 0 && d.1 >= 0 {
          slept := slept + (d.0 * SECOND + d.1);
        }
      }
      written := written + [e[i]];
      prev := e[i].time;
    }
    assert e[..|e|] == e;
    written := written + [InputEvent(prev, EV_SYN, SYN_REPORT, 0)];
    ok := true;
  }

  lemma {:induction false} SleptBounds(a: Timeval, b: Timeval)
    requires NormalisedTime(a) && NormalisedTime(b)
    ensures var d := Micros(b) - Micros(a);
            Slept(TimerSub(b, a)) == if d > 100 then d else 0
  {
  }

  /** Replay keeps time: over a group with normalised times the sleeps fall short of the
      recorded span by at most 100 microseconds per gap, and with times that do not go
      back they never exceed it. */
  lemma {:induction false} ReplayKeepsTime(es: seq<InputEvent>)
    requires es != [] && forall e :: e in es ==> NormalisedTime(e.time)
    ensures var span := Micros(es[|es| - 1].time) - Micros(es[0].time);
            && span - 100 * (|es| - 1) <= TotalSleep(es)
            && ((forall i :: 0 <= i < |es| - 1 ==> Micros(es[i].time) <= Micros(es[i + 1].time)) ==>
                  TotalSleep(es) <= span)
  {
    var n := |es| - 1;
    if n == 0 {
      assert es[..0] == [] && TotalSleep(es) == TotalSleep([]) + 0;
    } else {
      var pre := es[..n];
      ReplayKeepsTime(pre);
      SleptBounds(es[n - 1].time, es[n].time);
      assert LastTime(pre) == es[n - 1].time;
    }
  }

  // ------------------------------------------------------------- play commands

  /** What a control word asks the player to do, with what it meets: the event file a start
      would open, and whether a step can open its device. */
  datatype Command = Start(file: bytes) | PlayStep(k: nat, opens: bool) | Stop | Ignored

  function Decode(word: bv32, file: bytes, opens: bool): Command {
    if CommandOf(word) == EVENT_PLAY_START then Start(file)
    else if CommandOf(word) == EVENT_PLAY_STEP then PlayStep(IndexOf(word) as int, opens)
    else if CommandOf(word) == EVENT_PLAY_STOP then Stop
    else Ignored
  }

  /** What each word asks for, by its bytes 0 and 2; a step's index is byte 3, then byte 1. */
  lemma {:induction false} WordsAsk(word: bv32, file: bytes, opens: bool)
    ensures Decode(word, file, opens) ==
            if word & 0x00ff_00ff == 0x0004_0001 then Start(file)
            else if word & 0x00ff_00ff == 0x0004_0004 then
              PlayStep((((word & 0xff00_0000) >> 16) | ((word & 0x0000_ff00) >> 8)) as int, opens)
            else if word & 0x00ff_00ff == 0x0004_0002 then Stop
            else Ignored
    ensures Decode(word, file, opens) != Ignored ==> MessageOf(word) == Pipeline.Other
  {
  }

  /** The packing loses nothing: 16-bit indices and step words correspond one to one. */
  lemma {:induction false} StepWordRoundTrip(k: bv32, word: bv32, file: bytes, opens: bool)
    ensures k & 0xffff == k ==> Decode(StepWord(k), file, opens) == PlayStep(k as int, opens)
    ensures Decode(word, file, opens).PlayStep? ==>
              StepWord(IndexOf(word)) == word && IndexOf(word) & 0xffff == IndexOf(word)
  {
    PackingExact(k, word);
  }

  lemma PackingExact(k: bv32, word: bv32)
    ensures k & 0xffff == k ==> CommandOf(StepWord(k)) == EVENT_PLAY_STEP && IndexOf(StepWord(k)) == k
    ensures CommandOf(word) == EVENT_PLAY_STEP ==>
              StepWord(IndexOf(word)) == word && IndexOf(word) & 0xffff == IndexOf(word)
  {
    assert k & 0xffff == k ==> ((k & 0xff00) | (k & 0x00ff)) == k;
  }

  /** A start command finds a file with an end token. */
  predicate WellEnded(c: Command) {
    c.Start? ==> ParseOnDevice(c.file, MINUS_ONE, []).Some?
  }

  /** The groups a start command adds. */
  function GroupsIn(file: bytes): seq<Entry> {
    match ParseOnDevice(file, MINUS_ONE, [])
    case Some(es) => es
    case None => []
  }

  function After(es: seq<Entry>, c: Command): seq<Entry> {
    match c
    case Start(file) => es + GroupsIn(file)
    case Stop => []
    case _ => es
  }

  /** What the player holds after a history of commands. */
  function Held(cs: seq<Command>): seq<Entry> {
    if cs == [] then [] else After(Held(cs[..|cs| - 1]), cs[|cs| - 1])
  }

  /** What a command sends to the device out of the groups held. */
  function Played(es: seq<Entry>, c: Command): seq<InputEvent> {
    if c.PlayStep? && c.k < |es| && c.opens then es[c.k].events + [Report(es[c.k].events)] else []
  }

  /** One play command of `recv_packet`; `played` is what reaches the device. */
  method HandlePlay(list: List, c: Command) returns (played: seq<InputEvent>)
    requires list.Valid() && WellEnded(c)
    modifies list.repr
    ensures list.Valid() && list.contents == After(old(list.contents), c)
    ensures played == Played(old(list.contents), c)
    ensures fresh(list.repr - old(list.repr))
  {
    played := [];
    match c {
      case Start(file) =>
        OpenEventFile(file, list);
      case PlayStep(k, opens) =>
        var ok, device, written, slept := PlayEvent(list, k, opens);
        played := written;
      case Stop =>
        var freed := list.Destroy();
      case Ignored =>
    }
  }

  /** What a history of commands sends to the device, command by command. */
  function PlayedAll(cs: seq<Command>): (p: seq<seq<InputEvent>>)
    ensures |p| == |cs|
  {
    if cs == [] then []
    else PlayedAll(cs[..|cs| - 1]) + [Played(Held(cs[..|cs| - 1]), cs[|cs| - 1])]
  }

  /** HandlePlay after a history. */
  method HandleNext(list: List, cs: seq<Command>, n: nat) returns (played: seq<InputEvent>)
    requires list.Valid() && n < |cs| && WellEnded(cs[n]) && list.contents == Held(cs[..n])
    modifies list.repr
    ensures list.Valid() && fresh(list.repr - old(list.repr)) && list.contents == Held(cs[..n + 1])
    ensures PlayedAll(cs[..n + 1]) == PlayedAll(cs[..n]) + [played]
  {
    assert cs[..n + 1][..n] == cs[..n];
    played := HandlePlay(list, cs[n]);
  }

  /** A session on a list that starts out empty. */
  method PlaySession(cs: seq<Command>) returns (played: seq<seq<InputEvent>>)
    requires forall i :: 0 <= i < |cs| ==> WellEnded(cs[i])
    ensures played == PlayedAll(cs)
  {
    var list := new List();
    played := [];
    for n := 0 to |cs|
      invariant fresh(list.repr) && list.Valid() && list.contents == Held(cs[..n])
      invariant played == PlayedAll(cs[..n])
    {
      var out := HandleNext(list, cs, n);
      played := played + [out];
    }
    assert cs[..|cs|] == cs;
  }

  /** All the groups of some files, in order. */
  function Concatenated(files: seq<bytes>): seq<Entry> {
    if files == [] then [] else Concatenated(files[..|files| - 1]) + GroupsIn(files[|files| - 1])
  }

  /** The files opened since the last stop. */
  function OpenFiles(cs: seq<Command>): seq<bytes> {
    if cs == [] then []
    else
      var c, fs := cs[|cs| - 1], OpenFiles(cs[..|cs| - 1]);
      match c
      case Start(file) => fs + [file]
      case Stop => []
      case _ => fs
  }

  /** A step index addresses the files opened since the last stop, laid end to end. */
  lemma {:induction false} SessionAddressing(cs: seq<Command>)
    ensures Held(cs) == Concatenated(OpenFiles(cs))
  {
    if cs != [] {
      var pre, c := cs[..|cs| - 1], cs[|cs| - 1];
      SessionAddressing(pre);
      if c.Start? {
        assert (OpenFiles(pre) + [c.file])[..|OpenFiles(pre)|] == OpenFiles(pre);
      }
    }
  }

  /** Every step command plays the group at its index in those files, and other commands,
      or indices past the end, play nothing. */
  lemma {:induction false} StepsPlayByIndex(cs: seq<Command>, n: nat)
    requires n < |cs|
    ensures PlayedAll(cs)[n] == Played(Concatenated(OpenFiles(cs[..n])), cs[n])
  {
    if n < |cs| - 1 {
      StepsPlayByIndex(cs[..|cs| - 1], n);
      assert cs[..|cs| - 1][..n] == cs[..n];
    } else {
      SessionAddressing(cs[..n]);
    }
  }

  lemma HeldSnoc(cs: seq<Command>, c: Command)
    ensures Held(cs + [c]) == After(Held(cs), c)
  {
    assert (cs + [c])[..|cs|] == cs;
  }

  /** A stop wipes out what came before it; without one the groups of a history are followed
      by those of what comes after. */
  lemma {:induction false} StopForgets(cs: seq<Command>, more: seq<Command>)
    ensures Held(cs + [Stop] + more) == Held(more)
    ensures Stop !in more ==> Held(cs + more) == Held(cs) + Held(more)
  {
    if more == [] {
      assert cs + [Stop] + more == cs + [Stop] && cs + more == cs;
      HeldSnoc(cs, Stop);
      assert Held(cs) + [] == Held(cs);
    } else {
      var front, c := more[..|more| - 1], more[|more| - 1];
      StopForgets(cs, front);
      assert cs + [Stop] + more == cs + [Stop] + front + [c] && cs + more == cs + front + [c];
      assert c in more && forall x :: x in front ==> x in more;
      HeldSnoc(cs + [Stop] + front, c);
      HeldSnoc(cs + front, c);
    }
  }
}
