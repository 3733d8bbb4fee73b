/** The event file: the receiver's writer, and the grammar both players read. */
module EventFile {
  import opened Words
  import opened Recorder

  const TOKEN_LEN := 8
  const RECORD_LEN := 20

  const EVENT_TOKEN := Timeval(MINUS_ONE, MINUS_ONE)
  const END_TOKEN := Timeval(MINUS_ONE, 0x8fff_ffff)

  /** What the writer is handed per packet. */
  datatype Group = Group(devId: u32, etype: u16, recs: seq<Record>)

  /** What a player keeps per group. */
  datatype Entry = Entry(id: u32, events: seq<InputEvent>)

  predicate IsToken(t: Timeval) {
    t == EVENT_TOKEN || t == END_TOKEN
  }

  /** The type an event gets in the file and again in the players. */
  function NormalType(etype: u16, code: u16, value: u32): u16 {
    if code == 0 && value == 0 then EV_SYN else etype
  }

  function Normalised(etype: u16, r: Record): InputEvent {
    InputEvent(r.tv, NormalType(etype, r.code, r.value), r.code, r.value)
  }

  function NormalisedAll(etype: u16, recs: seq<Record>): seq<InputEvent> {
    if recs == [] then [] else [Normalised(etype, recs[0])] + NormalisedAll(etype, recs[1..])
  }

  // -------------------------------------------------------------------- writer

  function PrintEvent(id: u32, e: InputEvent): (b: bytes)
    ensures |b| == RECORD_LEN
  {
    LeTimeval(e.time) + Le32(id) + Le16(e.etype) + Le16(e.code) + Le32(e.value)
  }

  function PrintRecords(g: Group): bytes
    decreases |g.recs|
  {
    if g.recs == [] then []
    else PrintEvent(g.devId, Normalised(g.etype, g.recs[0])) + PrintRecords(g.(recs := g.recs[1..]))
  }

  function PrintGroups(gs: seq<Group>): bytes {
    if gs == [] then [] else PrintRecords(gs[0]) + LeTimeval(EVENT_TOKEN) + PrintGroups(gs[1..])
  }

  function PrintFile(gs: seq<Group>): bytes {
    PrintGroups(gs) + LeTimeval(END_TOKEN)
  }

  lemma PrintNext(file: bytes, g: Group, b: bytes)
    requires g.recs != [] && b == PrintEvent(g.devId, Normalised(g.etype, g.recs[0]))
    ensures file + b + PrintRecords(g.(recs := g.recs[1..])) == file + PrintRecords(g)
  {
  }

  lemma PrintLast(before: bytes, file: bytes, g: Group)
    requires file + PrintRecords(g.(recs := [])) == before + PrintRecords(g)
    ensures file + LeTimeval(EVENT_TOKEN) == before + PrintGroups([g])
  {
    assert [g][1..] == [];
    Tail(before, PrintRecords(g), LeTimeval(EVENT_TOKEN), file);
  }

  lemma Tail(before: bytes, records: bytes, token: bytes, file: bytes)
    requires file + [] == before + records
    ensures file + token == before + (records + token + [])
  {
    assert file + [] == file;
  }

  /** The receiver's output file. */
  class EventWriter {
    var file: bytes

    constructor ()
      ensures file == []
    {
      file := [];
    }

    method WriteEventFile(g: Group)
      modifies this
      ensures file == old(file) + PrintGroups([g])
    {
      var i := 0;
      ghost var rest := g;
      while i < |g.recs|
        invariant 0 <= i <= |g.recs| && rest == g.(recs := g.recs[i..])
        invariant file + PrintRecords(rest) == old(file) + PrintRecords(g)
      {
        var r := g.recs[i];
        var t := if r.code == 0 && r.value == 0 then EV_SYN else g.etype;
        var b := LeTimeval(r.tv) + Le32(g.devId) + Le16(t) + Le16(r.code) + Le32(r.value);
        PrintNext(file, rest, b);
        file := file + b;
        rest := rest.(recs := rest.recs[1..]);
        i := i + 1;
      }
      PrintLast(old(file), file, g);
      file := file + LeTimeval(EVENT_TOKEN);
    }

    method CloseEventFile()
      modifies this
      ensures file == old(file) + LeTimeval(END_TOKEN)
    {
      file := file + LeTimeval(END_TOKEN);
    }
  }

  // ------------------------------------------------------------------- grammar

  /** What reading a file leaves: the groups completed, and whether the end token was met. */
  datatype Parsed = Parsed(entries: seq<Entry>, ended: bool)

  function ReadRecord(b: bytes): InputEvent
    requires |b| >= RECORD_LEN
  {
    var code, value := Get16(b, 14), Get32(b, 16);
    InputEvent(GetTimeval(b, 0), NormalType(Get16(b, 12), code, value), code, value)
  }

  /** evtPly's reader: `id` and `e` are what the current group has so far.  Every group
      token closes a group, an empty one too; the file may stop anywhere. */
  function Parse(b: bytes, id: u32, e: seq<InputEvent>): Parsed
    decreases |b|
  {
    if |b| < TOKEN_LEN then Parsed([], false)
    else if GetTimeval(b, 0) == EVENT_TOKEN then
      var p := Parse(b[TOKEN_LEN..], MINUS_ONE, []);
      p.(entries := [Entry(id, e)] + p.entries)
    else if GetTimeval(b, 0) == END_TOKEN then Parsed([], true)
    else if |b| < RECORD_LEN then Parsed([], false)
    else Parse(b[RECORD_LEN..], Get32(b, 8), e + [ReadRecord(b)])
  }

  function ParseFile(b: bytes): Parsed {
    Parse(b, MINUS_ONE, [])
  }

  /** The on-device reader: an empty group is passed over, and a file that stops before
      the end token is never done with. */
  function ParseOnDevice(b: bytes, id: u32, e: seq<InputEvent>): Option<seq<Entry>>
    decreases |b|
  {
    if |b| < TOKEN_LEN then None
    else if GetTimeval(b, 0) == EVENT_TOKEN then
      (match ParseOnDevice(b[TOKEN_LEN..], id, [])
       case None => None
       case Some(es) => Some((if e == [] then [] else [Entry(id, e)]) + es))
    else if GetTimeval(b, 0) == END_TOKEN then Some([])
    else if |b| < RECORD_LEN then None
    else ParseOnDevice(b[RECORD_LEN..], Get32(b, 8), e + [ReadRecord(b)])
  }

  function NonEmpty(es: seq<Entry>): seq<Entry> {
    if es == [] then []
    else (if es[0].events == [] then [] else [es[0]]) + NonEmpty(es[1..])
  }

  /** On every byte string the two readers agree up to empty groups, and the on-device one
      gets to the end exactly when the other meets the end token. */
  lemma {:induction false} ReadersAgree(b: bytes, id: u32, id': u32, e: seq<InputEvent>)
    requires e != [] ==> id == id'
    ensures ParseOnDevice(b, id', e) == if Parse(b, id, e).ended then Some(NonEmpty(Parse(b, id, e).entries)) else None
    decreases |b|
  {
    if |b| < TOKEN_LEN {
    } else if GetTimeval(b, 0) == EVENT_TOKEN {
      ReadersAgree(b[TOKEN_LEN..], MINUS_ONE, id', []);
      var es := Parse(b[TOKEN_LEN..], MINUS_ONE, []).entries;
      assert ([Entry(id, e)] + es)[1..] == es;
    } else if GetTimeval(b, 0) == END_TOKEN {
    } else if |b| >= RECORD_LEN {
      ReadersAgree(b[RECORD_LEN..], Get32(b, 8), Get32(b, 8), e + [ReadRecord(b)]);
    }
  }

  // ---------------------------------------------------------------- round trip

  function EntryOf(g: Group): Entry {
    Entry(if g.recs == [] then MINUS_ONE else g.devId, NormalisedAll(g.etype, g.recs))
  }

  function EntriesOf(gs: seq<Group>): (es: seq<Entry>)
    ensures |es| == |gs|
  {
    seq(|gs|, i requires 0 <= i < |gs| => EntryOf(gs[i]))
  }

  /** No record of the group carries a token for a time. */
  predicate Printable(g: Group) {
    forall r :: r in g.recs ==> !IsToken(r.tv)
  }

  lemma FiveFields(a: bytes, b: bytes, c: bytes, d: bytes, e: bytes, rest: bytes)
    requires |a| == 8 && |b| == 4 && |c| == 2 && |d| == 2 && |e| == 4
    ensures var w := a + b + c + d + e + rest;
            w[0..8] == a && w[8..12] == b && w[12..14] == c && w[14..16] == d && w[16..20] == e && w[20..] == rest
  {
  }

  lemma {:induction false} EventRoundTrip(id: u32, etype: u16, r: Record, rest: bytes)
    ensures var b := PrintEvent(id, Normalised(etype, r)) + rest;
            && GetTimeval(b, 0) == r.tv && Get32(b, 8) == id
            && ReadRecord(b) == Normalised(etype, r) && b[RECORD_LEN..] == rest
  {
    var e := Normalised(etype, r);
    var b := PrintEvent(id, e) + rest;
    FiveFields(LeTimeval(e.time), Le32(id), Le16(e.etype), Le16(e.code), Le32(e.value), rest);
    ReadBackTimeval(b, 0, e.time);
    ReadBack32(b, 8, id);
    ReadBack16(b, 12, e.etype);
    ReadBack16(b, 14, e.code);
    ReadBack32(b, 16, e.value);
  }

  lemma {:induction false} TokenReads(t: Timeval, rest: bytes)
    ensures GetTimeval(LeTimeval(t) + rest, 0) == t && (LeTimeval(t) + rest)[TOKEN_LEN..] == rest
  {
    ReadBackTimeval(LeTimeval(t) + rest, 0, t);
  }

  lemma ParseHead(b: bytes, id: u32, e: seq<InputEvent>)
    requires |b| >= RECORD_LEN && !IsToken(GetTimeval(b, 0))
    ensures Parse(b, id, e) == Parse(b[RECORD_LEN..], Get32(b, 8), e + [ReadRecord(b)])
  {
  }

  lemma {:induction false} ParseOneRecord(g: Group, id: u32, e: seq<InputEvent>, rest: bytes)
    requires Printable(g) && g.recs != []
    ensures Parse(PrintRecords(g) + rest, id, e) ==
            Parse(PrintRecords(g.(recs := g.recs[1..])) + rest, g.devId, e + [Normalised(g.etype, g.recs[0])])
  {
    var first := PrintEvent(g.devId, Normalised(g.etype, g.recs[0]));
    var more := PrintRecords(g.(recs := g.recs[1..])) + rest;
    assert PrintRecords(g) + rest == first + more;
    EventRoundTrip(g.devId, g.etype, g.recs[0], more);
    ParseHead(first + more, id, e);
  }

  lemma {:induction false} ParseRecords(g: Group, id: u32, e: seq<InputEvent>, rest: bytes)
    requires Printable(g)
    ensures Parse(PrintRecords(g) + rest, id, e) ==
            Parse(rest, if g.recs == [] then id else g.devId, e + NormalisedAll(g.etype, g.recs))
    decreases |g.recs|
  {
    if g.recs == [] {
      assert PrintRecords(g) + rest == rest && e + [] == e;
    } else {
      var tail := g.(recs := g.recs[1..]);
      var ev := Normalised(g.etype, g.recs[0]);
      ParseOneRecord(g, id, e, rest);
      ParseRecords(tail, g.devId, e + [ev], rest);
      assert e + [ev] + NormalisedAll(g.etype, tail.recs) == e + NormalisedAll(g.etype, g.recs);
    }
  }

  lemma {:induction false} ParseGroup(g: Group, rest: bytes)
    requires Printable(g)
    ensures var p := ParseFile(rest);
            ParseFile(PrintRecords(g) + LeTimeval(EVENT_TOKEN) + rest) == p.(entries := [EntryOf(g)] + p.entries)
  {
    var more := LeTimeval(EVENT_TOKEN) + rest;
    assert PrintRecords(g) + LeTimeval(EVENT_TOKEN) + rest == PrintRecords(g) + more;
    ParseRecords(g, MINUS_ONE, [], more);
    assert [] + NormalisedAll(g.etype, g.recs) == NormalisedAll(g.etype, g.recs);
    TokenReads(EVENT_TOKEN, rest);
  }

  lemma PrintFileHead(gs: seq<Group>)
    requires gs != []
    ensures PrintFile(gs) == PrintRecords(gs[0]) + LeTimeval(EVENT_TOKEN) + PrintFile(gs[1..])
  {
  }

  lemma EntriesHead(gs: seq<Group>)
    requires gs != []
    ensures EntriesOf(gs) == [EntryOf(gs[0])] + EntriesOf(gs[1..])
  {
  }

  lemma {:induction false} ParsePrinted(gs: seq<Group>)
    requires forall g :: g in gs ==> Printable(g)
    ensures ParseFile(PrintFile(gs)) == Parsed(EntriesOf(gs), true)
  {
    if gs == [] {
      TokenReads(END_TOKEN, []);
      assert PrintFile(gs) == LeTimeval(END_TOKEN) + [] == LeTimeval(END_TOKEN);
    } else {
      ParseGroup(gs[0], PrintFile(gs[1..]));
      ParsePrinted(gs[1..]);
      PrintFileHead(gs);
      EntriesHead(gs);
    }
  }

  predicate NoTokens(es: seq<InputEvent>) {
    forall e :: e in es ==> !IsToken(e.time)
  }

  /** Whatever the bytes, no event a reader keeps has a token for a time. */
  lemma {:induction false} ParsedHasNoTokens(b: bytes, id: u32, e: seq<InputEvent>)
    requires NoTokens(e)
    ensures forall x :: x in Parse(b, id, e).entries ==> NoTokens(x.events)
    decreases |b|
  {
    if |b| < TOKEN_LEN {
    } else if GetTimeval(b, 0) == EVENT_TOKEN {
      ParsedHasNoTokens(b[TOKEN_LEN..], MINUS_ONE, []);
    } else if GetTimeval(b, 0) == END_TOKEN {
    } else if |b| >= RECORD_LEN {
      ParsedHasNoTokens(b[RECORD_LEN..], Get32(b, 8), e + [ReadRecord(b)]);
    }
  }

  lemma {:induction false} NormalisedAt(etype: u16, recs: seq<Record>, i: nat)
    requires i < |recs|
    ensures |NormalisedAll(etype, recs)| == |recs| && NormalisedAll(etype, recs)[i] == Normalised(etype, recs[i])
  {
    if i > 0 {
      NormalisedAt(etype, recs[1..], i - 1);
    } else if |recs| > 1 {
      NormalisedAt(etype, recs[1..], 0);
    }
  }

  /** The file round trip: evtPly reads a printed file back to the same groups, with types
      normalised, if and only if no record's time looks like a token. */
  lemma {:induction false} FileRoundTrip(gs: seq<Group>)
    ensures ParseFile(PrintFile(gs)) == Parsed(EntriesOf(gs), true) <==> forall g :: g in gs ==> Printable(g)
  {
    if forall g :: g in gs ==> Printable(g) {
      ParsePrinted(gs);
    } else {
      var g :| g in gs && !Printable(g);
      var r :| r in g.recs && IsToken(r.tv);
      var i :| 0 <= i < |gs| && gs[i] == g;
      var j :| 0 <= j < |g.recs| && g.recs[j] == r;
      NormalisedAt(g.etype, g.recs, j);
      assert EntriesOf(gs)[i].events[j].time == r.tv;
      ParsedHasNoTokens(PrintFile(gs), MINUS_ONE, []);
    }
  }

  lemma {:induction false} InNonEmpty(es: seq<Entry>, x: Entry)
    ensures x in NonEmpty(es) <==> x in es && x.events != []
  {
    if es != [] {
      InNonEmpty(es[1..], x);
      assert es == [es[0]] + es[1..];
    }
  }

  /** The same for the on-device reader, which leaves the empty groups out. */
  lemma {:induction false} FileRoundTripOnDevice(gs: seq<Group>)
    ensures ParseOnDevice(PrintFile(gs), MINUS_ONE, []) == Some(NonEmpty(EntriesOf(gs)))
            <==> forall g :: g in gs ==> Printable(g)
  {
    FileRoundTrip(gs);
    ReadersAgree(PrintFile(gs), MINUS_ONE, MINUS_ONE, []);
    if g :| g in gs && !Printable(g) {
      var r :| r in g.recs && IsToken(r.tv);
      var j :| 0 <= j < |g.recs| && g.recs[j] == r;
      NormalisedAt(g.etype, g.recs, j);
      var x := EntryOf(g);
      assert x.events[j].time == r.tv;
      var i :| 0 <= i < |gs| && gs[i] == g;
      assert EntriesOf(gs)[i] == x;
      ParsedHasNoTokens(PrintFile(gs), MINUS_ONE, []);
      InNonEmpty(EntriesOf(gs), x);
      InNonEmpty(ParseFile(PrintFile(gs)).entries, x);
    }
  }

  lemma SameFront(b: bytes, n: nat)
    requires TOKEN_LEN <= n <= |b|
    ensures GetTimeval(b[..n], 0) == GetTimeval(b, 0)
    ensures b[..n][TOKEN_LEN..] == b[TOKEN_LEN..][..n - TOKEN_LEN]
    ensures n >= RECORD_LEN ==>
              && Get32(b[..n], 8) == Get32(b, 8) && ReadRecord(b[..n]) == ReadRecord(b)
              && b[..n][RECORD_LEN..] == b[RECORD_LEN..][..n - RECORD_LEN]
  {
  }

  /** A file cut short anywhere yields an initial part of the groups of the whole file. */
  lemma {:induction false} TruncationKeepsPrefix(b: bytes, n: nat, id: u32, e: seq<InputEvent>)
    requires n <= |b|
    ensures Parse(b[..n], id, e).entries <= Parse(b, id, e).entries
    decreases |b|
  {
    if n >= TOKEN_LEN {
      SameFront(b, n);
      if GetTimeval(b, 0) == EVENT_TOKEN {
        TruncationKeepsPrefix(b[TOKEN_LEN..], n - TOKEN_LEN, MINUS_ONE, []);
      } else if GetTimeval(b, 0) != END_TOKEN && n >= RECORD_LEN {
        TruncationKeepsPrefix(b[RECORD_LEN..], n - RECORD_LEN, Get32(b, 8), e + [ReadRecord(b)]);
      }
    }
  }

  // -------------------------------------------------------------- byte by byte

  /** A record in the file, 20 bytes from an offset. */
  predicate EventAt(b: bytes, at: nat, id: u32, etype: u16, r: Record) {
    && at + 20 <= |b|
    && Get32(b, at) == r.tv.sec && Get32(b, at + 4) == r.tv.usec && Get32(b, at + 8) == id
    && Get16(b, at + 12) == (if r.code == 0 && r.value == 0 then 0 else etype)
    && Get16(b, at + 14) == r.code && Get32(b, at + 16) == r.value
  }

  lemma WordsAfter(front: bytes, b: bytes, i: nat)
    requires i + 2 <= |b|
    ensures Get16(front + b, |front| + i) == Get16(b, i)
    ensures i + 4 <= |b| ==> Get32(front + b, |front| + i) == Get32(b, i)
  {
  }

  lemma {:induction false} OneEventAt(id: u32, etype: u16, r: Record, rest: bytes)
    ensures EventAt(PrintEvent(id, Normalised(etype, r)) + rest, 0, id, etype, r)
  {
    var e := Normalised(etype, r);
    var b := PrintEvent(id, e) + rest;
    FiveFields(LeTimeval(e.time), Le32(id), Le16(e.etype), Le16(e.code), Le32(e.value), rest);
    ReadBackTimeval(b, 0, e.time);
    ReadBack32(b, 8, id);
    ReadBack16(b, 12, e.etype);
    ReadBack16(b, 14, e.code);
    ReadBack32(b, 16, e.value);
  }

  lemma EventShifts(front: bytes, b: bytes, at: nat, id: u32, etype: u16, r: Record)
    requires EventAt(b, at, id, etype, r)
    ensures EventAt(front + b, |front| + at, id, etype, r)
  {
    WordsAfter(front, b, at);
    WordsAfter(front, b, at + 4);
    WordsAfter(front, b, at + 8);
    WordsAfter(front, b, at + 12);
    WordsAfter(front, b, at + 14);
    WordsAfter(front, b, at + 16);
  }

  lemma {:induction false} RecordsLaidOut(g: Group, i: nat, rest: bytes)
    requires i < |g.recs|
    ensures |PrintRecords(g)| == 20 * |g.recs|
    ensures EventAt(PrintRecords(g) + rest, 20 * i, g.devId, g.etype, g.recs[i])
    decreases |g.recs|
  {
    var tail := g.(recs := g.recs[1..]);
    var first, more := PrintEvent(g.devId, Normalised(g.etype, g.recs[0])), PrintRecords(tail) + rest;
    assert PrintRecords(g) + rest == first + more;
    if tail.recs != [] {
      RecordsLaidOut(tail, if i == 0 then 0 else i - 1, rest);
    }
    if i == 0 {
      OneEventAt(g.devId, g.etype, g.recs[0], more);
    } else {
      EventShifts(first, more, 20 * (i - 1), g.devId, g.etype, g.recs[i]);
    }
  }

  lemma Joined(a: bytes, b: bytes, c: bytes, d: bytes)
    ensures a + b + c + d == a + b + (c + d)
  {
  }

  const LAST_TOKENS := LeTimeval(EVENT_TOKEN) + LeTimeval(END_TOKEN)

  lemma TokenWords(sec: u32, usec: u32)
    ensures Get32(LeTimeval(Timeval(sec, usec)), 0) == sec && Get32(LeTimeval(Timeval(sec, usec)), 4) == usec
  {
    ReadBackTimeval(LeTimeval(Timeval(sec, usec)), 0, Timeval(sec, usec));
  }

  lemma {:induction false} LastTokens()
    ensures |LAST_TOKENS| == 16
    ensures Get32(LAST_TOKENS, 0) == 0xffff_ffff && Get32(LAST_TOKENS, 4) == 0xffff_ffff
    ensures Get32(LAST_TOKENS, 8) == 0xffff_ffff && Get32(LAST_TOKENS, 12) == 0x8fff_ffff
  {
    TokenWords(0xffff_ffff, 0xffff_ffff);
    TokenWords(0xffff_ffff, 0x8fff_ffff);
    WordsAfter(LeTimeval(EVENT_TOKEN), LeTimeval(END_TOKEN), 0);
    WordsAfter(LeTimeval(EVENT_TOKEN), LeTimeval(END_TOKEN), 4);
  }

  lemma {:induction false} OneGroupFile(g: Group)
    ensures PrintFile([g]) == PrintRecords(g) + LAST_TOKENS
  {
    var records := PrintRecords(g);
    assert [g][1..] == [] && PrintGroups([]) == [];
    assert PrintGroups([g]) == records + LeTimeval(EVENT_TOKEN) + [];
    assert records + LeTimeval(EVENT_TOKEN) + [] == records + LeTimeval(EVENT_TOKEN);
    Split(records, LeTimeval(EVENT_TOKEN), LeTimeval(END_TOKEN));
  }

  lemma Split(a: bytes, b: bytes, c: bytes)
    ensures a + b + c == a + (b + c)
  {
  }

  /** A file of one group, byte by byte: a record every 20 bytes, a zero one with type 0; then
      eight bytes of 0xff; then the end token. */
  lemma {:induction false} FileLayout(g: Group, i: nat)
    requires i < |g.recs|
    ensures var b, n := PrintFile([g]), 20 * |g.recs|;
            && |b| == n + 16
            && EventAt(b, 20 * i, g.devId, g.etype, g.recs[i])
            && Get32(b, n) == 0xffff_ffff && Get32(b, n + 4) == 0xffff_ffff
            && Get32(b, n + 8) == 0xffff_ffff && Get32(b, n + 12) == 0x8fff_ffff
  {
    var records := PrintRecords(g);
    OneGroupFile(g);
    RecordsLaidOut(g, i, LAST_TOKENS);
    LastTokens();
    WordsAfter(records, LAST_TOKENS, 0);
    WordsAfter(records, LAST_TOKENS, 4);
    WordsAfter(records, LAST_TOKENS, 8);
    WordsAfter(records, LAST_TOKENS, 12);
  }

  /** Files of groups laid end to end differ from one file only in the end tokens between. */
  lemma {:induction false} GroupsEndToEnd(gs: seq<Group>, more: seq<Group>)
    ensures PrintFile(gs + more) == PrintGroups(gs) + PrintFile(more)
  {
    if gs == [] {
      assert gs + more == more && [] + PrintFile(more) == PrintFile(more);
    } else {
      GroupsEndToEnd(gs[1..], more);
      assert (gs + more)[1..] == gs[1..] + more && (gs + more)[0] == gs[0];
      PrintFileHead(gs + more);
      Joined(PrintRecords(gs[0]), LeTimeval(EVENT_TOKEN), PrintGroups(gs[1..]), PrintFile(more));
    }
  }

  /** What a reader makes of the next bytes of a file: a token, a record, or the end of a file
      that has no end token. */
  lemma {:induction false} ReaderReads(b: bytes, id: u32, e: seq<InputEvent>)
    ensures |b| < 8 ==> Parse(b, id, e) == Parsed([], false)
    ensures |b| >= 8 && Get32(b, 0) == 0xffff_ffff && Get32(b, 4) == 0xffff_ffff ==>
              var rest := Parse(b[8..], 0xffff_ffff, []);
              Parse(b, id, e) == Parsed([Entry(id, e)] + rest.entries, rest.ended)
    ensures |b| >= 8 && Get32(b, 0) == 0xffff_ffff && Get32(b, 4) == 0x8fff_ffff ==>
              Parse(b, id, e) == Parsed([], true)
    ensures |b| >= 8 && !(Get32(b, 0) == 0xffff_ffff && Get32(b, 4) in {0xffff_ffff, 0x8fff_ffff}) ==>
              Parse(b, id, e) ==
              if |b| < 20 then Parsed([], false)
              else
                var code, value := Get16(b, 14), Get32(b, 16);
                var etype := if code == 0 && value == 0 then 0 else Get16(b, 12);
                Parse(b[20..], Get32(b, 8), e + [InputEvent(Timeval(Get32(b, 0), Get32(b, 4)), etype, code, value)])
  {
  }
}
