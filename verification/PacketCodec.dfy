/** The wire format between recorder and receiver: `make_event_packet` and
    `make_surface_packet` of the sender, `parseHeader`, `parseEvtPacket` and the `svc`
    loop of the receiver. */
module PacketCodec {
  import opened Words
  import opened Recorder

  const HEADER_LEN := 16
  const ROW_LEN := 18
  const BODY_LEN := 10

  const PACKET_TYPE_CAPTURE: u32 := 0x0000_0000
  const PACKET_TYPE_EVENT: u32 := 0x8000_8000
  const PACKET_TYPE_CONTROL: u32 := 0x0000_8000

  datatype WirePacket =
    | EventPacket(tv: Timeval, etype: u16, devId: u32, recs: seq<Record>)
    | SurfacePacket(tv: Timeval, width: u16, height: u16, body: bytes)

  /** Lengths fit the 32-bit length words. */
  predicate Fits(p: WirePacket) {
    match p
    case EventPacket(_, _, _, recs) => HEADER_LEN + BODY_LEN + ROW_LEN * |recs| < TWO_32
    case SurfacePacket(_, _, _, body) => HEADER_LEN + |body| < TWO_32
  }

  function Row(r: Record): (b: bytes)
    ensures |b| == ROW_LEN
  {
    LeTimeval(r.tv) + Le32(r.id) + Le16(r.code) + Le32(r.value)
  }

  function RowsBytes(rs: seq<Record>): (b: bytes)
    ensures |b| == ROW_LEN * |rs|
  {
    if rs == [] then [] else RowsBytes(rs[..|rs| - 1]) + Row(rs[|rs| - 1])
  }

  function BodyHead(etype: u16, count: u32, devId: u32): (b: bytes)
    ensures |b| == BODY_LEN
  {
    Le16(etype) + Le32(count) + Le32(devId)
  }

  function EventBody(etype: u16, devId: u32, recs: seq<Record>): (b: bytes)
    requires |recs| < TWO_32
    ensures |b| == BODY_LEN + ROW_LEN * |recs|
  {
    BodyHead(etype, |recs|, devId) + RowsBytes(recs)
  }

  function FrameHead(tv: Timeval, kind: u32, len: u32): (b: bytes)
    ensures |b| == HEADER_LEN
  {
    LeTimeval(tv) + Le32(kind) + Le32(len)
  }

  function Frame(tv: Timeval, kind: u32, body: bytes): (b: bytes)
    requires |body| < TWO_32
    ensures |b| == HEADER_LEN + |body|
  {
    FrameHead(tv, kind, |body|) + body
  }

  /** The type word of a packet; a surface packet has its sides in the union instead. */
  function KindWord(p: WirePacket): u32 {
    match p
    case EventPacket(_, _, _, _) => PACKET_TYPE_EVENT
    case SurfacePacket(_, width, height, _) => width + height * TWO_16
  }

  function Body(p: WirePacket): (b: bytes)
    requires Fits(p)
    ensures |b| < TWO_32 - HEADER_LEN
  {
    match p
    case EventPacket(_, etype, devId, recs) => EventBody(etype, devId, recs)
    case SurfacePacket(_, _, _, body) => body
  }

  function Encode(p: WirePacket): (b: bytes)
    requires Fits(p)
    ensures |b| == HEADER_LEN + |Body(p)|
  {
    Frame(p.tv, KindWord(p), Body(p))
  }

  function EncodeAll(ps: seq<WirePacket>): bytes
    requires forall p :: p in ps ==> Fits(p)
  {
    if ps == [] then [] else Encode(ps[0]) + EncodeAll(ps[1..])
  }

  // -------------------------------------------------------------------- sender

  /** memcpy of a field at the write pointer. */
  method Put(buf: array<u8>, p: nat, field: bytes) returns (p': nat)
    requires p + |field| <= buf.Length
    modifies buf
    ensures p' == p + |field| && buf[..p'] == old(buf[..p]) + field
  {
    for i := 0 to |field|
      invariant buf[..p + i] == old(buf[..p]) + field[..i]
    {
      buf[p + i] := field[i];
    }
    p' := p + |field|;
  }

  method PutHead(buf: array<u8>, tv: Timeval, n: u32, etype: u16, count: u32, devId: u32) returns (p: nat)
    requires HEADER_LEN + BODY_LEN <= buf.Length
    modifies buf
    ensures p == HEADER_LEN + BODY_LEN
    ensures buf[..p] == FrameHead(tv, PACKET_TYPE_EVENT, n) + BodyHead(etype, count, devId)
  {
    p := Put(buf, 0, LeTimeval(tv));
    p := Put(buf, p, Le32(PACKET_TYPE_EVENT));
    p := Put(buf, p, Le32(n));
    p := Put(buf, p, Le16(etype));
    p := Put(buf, p, Le32(count));
    p := Put(buf, p, Le32(devId));
    Regroup(FrameHead(tv, PACKET_TYPE_EVENT, n), Le16(etype), Le32(count), Le32(devId));
  }

  lemma Regroup(a: bytes, b: bytes, c: bytes, d: bytes)
    ensures a + b + c + d == a + (b + c + d)
  {
  }

  lemma HeadAndRows(head: bytes, body: bytes, rows: bytes)
    ensures head + body + rows == head + (body + rows)
  {
  }

  lemma RowsGrow(head: bytes, rs: seq<Record>, i: nat)
    requires i < |rs|
    ensures head + RowsBytes(rs[..i]) + Row(rs[i]) == head + RowsBytes(rs[..i + 1])
  {
    assert rs[..i + 1][..i] == rs[..i] && rs[..i + 1][i] == rs[i];
  }

  method PutRows(buf: array<u8>, p0: nat, ei: EventInfo) returns (p: nat)
    requires ei.Valid() && p0 + ROW_LEN * ei.count <= buf.Length
    modifies buf
    ensures p == p0 + ROW_LEN * ei.count && buf[..p] == old(buf[..p0]) + RowsBytes(ei.Records())
  {
    p := p0;
    ghost var head := buf[..p0];
    ghost var rs := ei.Records();
    for i := 0 to ei.count
      invariant p == p0 + ROW_LEN * i && rs == ei.Records()
      invariant buf[..p] == head + RowsBytes(rs[..i])
    {
      p := PutRow(buf, p, ei, i);
      RowsGrow(head, rs, i);
    }
    assert rs[..ei.count] == rs;
  }

  /** The buffer is filled exactly by the format, and the pointer ends at its end. */
  method MakeEventPacket(tv: Timeval, ei: EventInfo) returns (buf: array<u8>, len: u32)
    requires ei.Valid() && HEADER_LEN + BODY_LEN + ROW_LEN * ei.count < TWO_32
    ensures fresh(buf) && len == buf.Length == 26 + 18 * ei.count
    ensures buf[..] == Encode(EventPacket(tv, ei.eventType, ei.devId, ei.Records()))
  {
    len := HEADER_LEN + BODY_LEN + ROW_LEN * ei.count;
    buf := new u8[len];
    var p := PutHead(buf, tv, BODY_LEN + ROW_LEN * ei.count, ei.eventType, ei.count, ei.devId);
    p := PutRows(buf, p, ei);
    Laid(buf[..], p, tv, ei.eventType, ei.devId, ei.Records());
  }

  /** What the pointer has passed is the image of the packet. */
  lemma Laid(b: bytes, p: nat, tv: Timeval, etype: u16, devId: u32, recs: seq<Record>)
    requires p == |b| == HEADER_LEN + BODY_LEN + ROW_LEN * |recs| < TWO_32
    requires b[..p] == FrameHead(tv, PACKET_TYPE_EVENT, BODY_LEN + ROW_LEN * |recs|)
                       + BodyHead(etype, |recs|, devId) + RowsBytes(recs)
    ensures b == Encode(EventPacket(tv, etype, devId, recs))
  {
    assert b[..p] == b;
    EventLayout(tv, etype, devId, recs);
  }

  lemma EventLayout(tv: Timeval, etype: u16, devId: u32, recs: seq<Record>)
    requires HEADER_LEN + BODY_LEN + ROW_LEN * |recs| < TWO_32
    ensures FrameHead(tv, PACKET_TYPE_EVENT, BODY_LEN + ROW_LEN * |recs|)
            + BodyHead(etype, |recs|, devId) + RowsBytes(recs) ==
            Encode(EventPacket(tv, etype, devId, recs))
  {
    HeadAndRows(FrameHead(tv, PACKET_TYPE_EVENT, BODY_LEN + ROW_LEN * |recs|),
                BodyHead(etype, |recs|, devId), RowsBytes(recs));
  }

  method PutRow(buf: array<u8>, p: nat, ei: EventInfo, i: nat) returns (p': nat)
    requires ei.Valid() && i < ei.count && p + ROW_LEN <= buf.Length
    modifies buf
    ensures p' == p + ROW_LEN && buf[..p'] == old(buf[..p]) + Row(ei.Records()[i])
  {
    p' := Put(buf, p, LeTimeval(ei.tv[i]));
    p' := Put(buf, p', Le32(ei.id[i]));
    p' := Put(buf, p', Le16(ei.code[i]));
    p' := Put(buf, p', Le32(ei.value[i]));
  }

  method PutSurfaceHead(buf: array<u8>, tv: Timeval, width: u16, height: u16, n: u32) returns (p: nat)
    requires HEADER_LEN <= buf.Length
    modifies buf
    ensures p == HEADER_LEN && buf[..p] == FrameHead(tv, width + height * TWO_16, n)
  {
    p := Put(buf, 0, LeTimeval(tv));
    p := Put(buf, p, Le16(width));
    p := Put(buf, p, Le16(height));
    p := Put(buf, p, Le32(n));
    SidesWord(width, height);
    HeadAndRows(LeTimeval(tv), Le16(width), Le16(height));
  }

  method MakeSurfacePacket(tv: Timeval, width: u16, height: u16, body: bytes) returns (buf: array<u8>, len: u32)
    requires HEADER_LEN + |body| < TWO_32
    ensures fresh(buf) && len == buf.Length
    ensures buf[..] == Encode(SurfacePacket(tv, width, height, body))
  {
    len := HEADER_LEN + |body|;
    buf := new u8[len];
    var p := PutSurfaceHead(buf, tv, width, height, |body|);
    p := Put(buf, p, body);
    assert buf[..p] == buf[..];
  }

  lemma SidesWord(width: u16, height: u16)
    ensures Le32(width + height * TWO_16) == Le16(width) + Le16(height)
  {
  }

  // ------------------------------------------------------------------ receiver

  /** What the receiver makes of a packet: header and body; the type word of a capture holds
      the two sides. */
  datatype Received =
    | ScreenCapture(tv: Timeval, width: u16, height: u16, body: bytes)
    | EventCapture(tv: Timeval, etype: u16, devId: u32, recs: seq<Record>)
    | Control
    | Reserved1

  /** `type & 0x80008000`: bits 31 and 15. */
  function Masked(kind: u32): u32 {
    kind / 0x8000_0000 * 0x8000_0000 + kind / 0x8000 % 2 * 0x8000
  }

  function GetRow(b: bytes, at: nat): Record
    requires at + ROW_LEN <= |b|
  {
    Record(GetTimeval(b, at), Get32(b, at + 8), Get16(b, at + 12), Get32(b, at + 14))
  }

  function GetRows(b: bytes, at: nat, n: nat): (rs: seq<Record>)
    requires at + ROW_LEN * n <= |b|
    ensures |rs| == n
  {
    if n == 0 then [] else GetRows(b, at, n - 1) + [GetRow(b, at + ROW_LEN * (n - 1))]
  }

  /** `OnEventCapture`: the body must be as long as its count says, or the receiver stops. */
  function OnEventCapture(tv: Timeval, body: bytes): Option<Received> {
    if |body| < BODY_LEN then None
    else
      var n := Get32(body, 2);
      if BODY_LEN + ROW_LEN * n != |body| then None
      else Some(EventCapture(tv, Get16(body, 0), Get32(body, 6), GetRows(body, BODY_LEN, n)))
  }

  function Handle(tv: Timeval, kind: u32, body: bytes): Option<Received> {
    var k := Masked(kind);
    if k == PACKET_TYPE_EVENT then OnEventCapture(tv, body)
    else if k == PACKET_TYPE_CAPTURE then Some(ScreenCapture(tv, kind % TWO_16, kind / TWO_16, body))
    else if k == PACKET_TYPE_CONTROL then Some(Control)
    else Some(Reserved1)
  }

  /** The service loop on the bytes of a connection.  It ends when the connection does,
      and also on an empty body, which its read cannot tell from a closed connection. */
  function Receive(b: bytes): seq<Received>
    decreases |b|
  {
    if |b| < HEADER_LEN then []
    else
      var len := Get32(b, 12);
      if len == 0 || |b| < HEADER_LEN + len then []
      else
        match Handle(GetTimeval(b, 0), Get32(b, 8), b[HEADER_LEN..HEADER_LEN + len])
        case None => []
        case Some(r) => [r] + Receive(b[HEADER_LEN + len..])
  }

  /** `parseEvtPacket`: the rows in order, and the number of bytes read. */
  method ParseEvtPacket(b: bytes) returns (etype: u16, devId: u32, recs: seq<Record>, len: nat)
    requires |b| >= BODY_LEN && BODY_LEN + ROW_LEN * Get32(b, 2) <= |b|
    ensures etype == Get16(b, 0) && devId == Get32(b, 6)
    ensures recs == GetRows(b, BODY_LEN, Get32(b, 2)) && len == BODY_LEN + ROW_LEN * |recs|
  {
    var p := 0;
    etype := Get16(b, p); p := p + 2;
    var count := Get32(b, p); p := p + 4;
    devId := Get32(b, p); p := p + 4;
    recs := [];
    for i := 0 to count
      invariant p == BODY_LEN + ROW_LEN * i && recs == GetRows(b, BODY_LEN, i)
    {
      recs := recs + [Record(GetTimeval(b, p), Get32(b, p + 8), Get16(b, p + 12), Get32(b, p + 14))];
      p := p + ROW_LEN;
    }
    len := p;
  }

  /** `svc`. */
  method Svc(stream: bytes) returns (handled: seq<Received>)
    ensures handled == Receive(stream)
  {
    handled := [];
    var rest := stream;
    while |rest| >= HEADER_LEN
      invariant handled + Receive(rest) == Receive(stream)
      decreases |rest|
    {
      var tv, kind, len := GetTimeval(rest, 0), Get32(rest, 8), Get32(rest, 12);
      if len == 0 || |rest| < HEADER_LEN + len {
        return;
      }
      var body := rest[HEADER_LEN..HEADER_LEN + len];
      var r := Handle(tv, kind, body);
      if r.None? {
        return;
      }
      handled := handled + [r.value];
      rest := rest[HEADER_LEN + len..];
    }
  }

  // ---------------------------------------------------------------- round trip

  /** What a packet is meant to arrive as. */
  function Meant(p: WirePacket): Received {
    match p
    case EventPacket(tv, etype, devId, recs) => EventCapture(tv, etype, devId, recs)
    case SurfacePacket(tv, width, height, body) => ScreenCapture(tv, width, height, body)
  }

  function MeantAll(ps: seq<WirePacket>): (rs: seq<Received>)
    ensures |rs| == |ps|
  {
    seq(|ps|, i requires 0 <= i < |ps| => Meant(ps[i]))
  }

  predicate Heads(rs: seq<Received>, r: Received) {
    rs != [] && rs[0] == r
  }

  /** The frames the receiver can tell apart. */
  predicate Distinguishable(p: WirePacket) {
    p.SurfacePacket? ==> p.width < 0x8000 && p.height < 0x8000 && p.body != []
  }

  lemma FourFields(a: bytes, b: bytes, c: bytes, d: bytes)
    ensures var w := a + b + c + d; var i, j := |a| + |b|, |a| + |b| + |c|;
            w[0..|a|] == a && w[|a|..i] == b && w[i..j] == c && w[j..j + |d|] == d
  {
  }

  /** A piece of a field laid out after some front. */
  lemma Within(front: bytes, mid: bytes, rest: bytes, i: nat, j: nat)
    requires i <= j <= |mid|
    ensures (front + mid + rest)[|front| + i..|front| + j] == mid[i..j]
  {
  }

  lemma {:induction false} RowRoundTrip(front: bytes, r: Record, rest: bytes)
    ensures GetRow(front + Row(r) + rest, |front|) == r
  {
    var b, at := front + Row(r) + rest, |front|;
    FourFields(LeTimeval(r.tv), Le32(r.id), Le16(r.code), Le32(r.value));
    Within(front, Row(r), rest, 0, 8);
    Within(front, Row(r), rest, 8, 12);
    Within(front, Row(r), rest, 12, 14);
    Within(front, Row(r), rest, 14, 18);
    ReadBackTimeval(b, at, r.tv);
    ReadBack32(b, at + 8, r.id);
    ReadBack16(b, at + 12, r.code);
    ReadBack32(b, at + 14, r.value);
  }

  lemma Reassociate(front: bytes, rows: bytes, row: bytes, rest: bytes)
    ensures front + (rows + row) + rest == front + rows + row + rest
    ensures front + (rows + row) + rest == front + rows + (row + rest)
  {
  }

  lemma {:induction false} RowsRoundTrip(front: bytes, rs: seq<Record>, rest: bytes)
    ensures GetRows(front + RowsBytes(rs) + rest, |front|, |rs|) == rs
    decreases |rs|
  {
    if rs != [] {
      var n := |rs| - 1;
      var rows, row := RowsBytes(rs[..n]), Row(rs[n]);
      Reassociate(front, rows, row, rest);
      RowsRoundTrip(front, rs[..n], row + rest);
      RowRoundTrip(front + rows, rs[n], rest);
    }
  }

  lemma {:induction false} BodyRoundTrip(tv: Timeval, etype: u16, devId: u32, recs: seq<Record>)
    requires BODY_LEN + ROW_LEN * |recs| < TWO_32
    ensures OnEventCapture(tv, EventBody(etype, devId, recs)) == Some(EventCapture(tv, etype, devId, recs))
  {
    var b := EventBody(etype, devId, recs);
    var h := BodyHead(etype, |recs|, devId);
    assert b[0..2] == h[0..2] == Le16(etype);
    assert b[2..6] == h[2..6] == Le32(|recs|);
    assert b[6..10] == h[6..10] == Le32(devId);
    assert b == h + RowsBytes(recs) + [];
    ReadBack16(b, 0, etype);
    ReadBack32(b, 2, |recs|);
    ReadBack32(b, 6, devId);
    RowsRoundTrip(h, recs, []);
  }

  lemma {:induction false} FrameRoundTrip(tv: Timeval, kind: u32, body: bytes, rest: bytes)
    requires |body| < TWO_32
    ensures var b := Frame(tv, kind, body) + rest;
            && GetTimeval(b, 0) == tv && Get32(b, 8) == kind && Get32(b, 12) == |body|
            && b[HEADER_LEN..HEADER_LEN + |body|] == body && b[HEADER_LEN + |body|..] == rest
  {
    var b := Frame(tv, kind, body) + rest;
    var h := FrameHead(tv, kind, |body|);
    assert b[0..8] == h[0..8] == LeTimeval(tv);
    assert b[8..12] == h[8..12] == Le32(kind);
    assert b[12..16] == h[12..16] == Le32(|body|);
    ReadBackTimeval(b, 0, tv);
    ReadBack32(b, 8, kind);
    ReadBack32(b, 12, |body|);
  }

  lemma {:induction false} SidesMasked(width: u16, height: u16)
    ensures Masked(width + height * TWO_16) == PACKET_TYPE_CAPTURE <==> width < 0x8000 && height < 0x8000
  {
    var k := width + height * TWO_16;
    assert k / 0x8000_0000 == height / 0x8000;
    assert k / 0x8000 == width / 0x8000 + 2 * height;
    assert (width / 0x8000 + 2 * height) % 2 == width / 0x8000;
  }

  lemma {:induction false} ReceiveFrame(tv: Timeval, kind: u32, body: bytes, rest: bytes)
    requires |body| < TWO_32
    ensures Receive(Frame(tv, kind, body) + rest) ==
            if body == [] || Handle(tv, kind, body) == None then []
            else [Handle(tv, kind, body).value] + Receive(rest)
  {
    FrameRoundTrip(tv, kind, body, rest);
  }

  lemma {:induction false} EventHandled(p: WirePacket)
    requires Fits(p) && p.EventPacket?
    ensures Handle(p.tv, KindWord(p), Body(p)) == Some(Meant(p)) && Body(p) != []
  {
    BodyRoundTrip(p.tv, p.etype, p.devId, p.recs);
    assert Masked(PACKET_TYPE_EVENT) == PACKET_TYPE_EVENT;
  }

  lemma {:induction false} EventReceived(p: WirePacket, rest: bytes)
    requires Fits(p) && p.EventPacket?
    ensures Receive(Encode(p) + rest) == [Meant(p)] + Receive(rest)
  {
    EventHandled(p);
    ReceiveFrame(p.tv, KindWord(p), Body(p), rest);
  }

  lemma {:induction false} SurfaceHandled(p: WirePacket)
    requires Fits(p) && p.SurfacePacket?
    ensures Handle(p.tv, KindWord(p), p.body) == Some(Meant(p)) <==> p.width < 0x8000 && p.height < 0x8000
  {
    SidesMasked(p.width, p.height);
  }

  lemma {:induction false} SurfaceReceived(p: WirePacket, rest: bytes)
    requires Fits(p) && p.SurfacePacket?
    ensures Distinguishable(p) ==> Receive(Encode(p) + rest) == [Meant(p)] + Receive(rest)
    ensures !Distinguishable(p) ==> !Heads(Receive(Encode(p) + rest), Meant(p))
  {
    SurfaceHandled(p);
    ReceiveFrame(p.tv, KindWord(p), p.body, rest);
  }

  /** One packet at the head of the stream is taken for what it is exactly when it is
      distinguishable, and then the receiver goes on right behind it. */
  lemma {:induction false} ReceiveOne(p: WirePacket, rest: bytes)
    requires Fits(p)
    ensures Distinguishable(p) ==> Receive(Encode(p) + rest) == [Meant(p)] + Receive(rest)
    ensures !Distinguishable(p) ==> !Heads(Receive(Encode(p) + rest), Meant(p))
  {
    if p.EventPacket? {
      EventReceived(p, rest);
    } else {
      SurfaceReceived(p, rest);
    }
  }

  lemma HeadDecides(r: Received, got: seq<Received>, tail: seq<Received>, meant: seq<Received>, good: bool)
    requires good ==> got == [r] + tail
    requires !good ==> !Heads(got, r)
    ensures got == [r] + meant <==> good && tail == meant
  {
    assert ([r] + tail)[1..] == tail && ([r] + meant)[1..] == meant;
  }

  lemma {:induction false} MeantCons(p: WirePacket, ps: seq<WirePacket>)
    ensures MeantAll([p] + ps) == [Meant(p)] + MeantAll(ps)
  {
  }

  lemma {:induction false} EncodeCons(p: WirePacket, ps: seq<WirePacket>)
    requires Fits(p) && forall q :: q in ps ==> Fits(q)
    ensures EncodeAll([p] + ps) == Encode(p) + EncodeAll(ps)
  {
    assert ([p] + ps)[1..] == ps;
  }

  predicate AllDistinguishable(ps: seq<WirePacket>) {
    forall p :: p in ps ==> Distinguishable(p)
  }

  lemma {:induction false} StreamHead(p: WirePacket, ps: seq<WirePacket>)
    requires Fits(p) && forall q :: q in ps ==> Fits(q)
    ensures Receive(EncodeAll([p] + ps)) == MeantAll([p] + ps) <==>
            Distinguishable(p) && Receive(EncodeAll(ps)) == MeantAll(ps)
  {
    EncodeCons(p, ps);
    MeantCons(p, ps);
    ReceiveOne(p, EncodeAll(ps));
    HeadDecides(Meant(p), Receive(EncodeAll([p] + ps)), Receive(EncodeAll(ps)), MeantAll(ps), Distinguishable(p));
  }

  /** Self-delimitation: any mix of event and surface packets, sent back to back, arrives
      as exactly that sequence if and only if each surface has a body and sides below 0x8000. */
  lemma {:induction false} StreamRoundTrip(ps: seq<WirePacket>)
    requires forall p :: p in ps ==> Fits(p)
    ensures Receive(EncodeAll(ps)) == MeantAll(ps) <==> AllDistinguishable(ps)
  {
    if ps != [] {
      assert ps == [ps[0]] + ps[1..];
      StreamHead(ps[0], ps[1..]);
      StreamRoundTrip(ps[1..]);
    }
  }

  /** Nothing of a packet is lost in what it is meant to arrive as. */
  lemma {:induction false} MeantApart(ps: seq<WirePacket>, qs: seq<WirePacket>)
    requires MeantAll(ps) == MeantAll(qs)
    ensures ps == qs
  {
    forall i | 0 <= i < |ps|
      ensures ps[i] == qs[i]
    {
      assert MeantAll(ps)[i] == MeantAll(qs)[i];
    }
  }

  /** Two streams of distinguishable packets have the same bytes only if they are the same. */
  lemma {:induction false} StreamsApart(ps: seq<WirePacket>, qs: seq<WirePacket>)
    requires (forall p :: p in ps ==> Fits(p)) && (forall q :: q in qs ==> Fits(q))
    requires AllDistinguishable(ps) && AllDistinguishable(qs) && EncodeAll(ps) == EncodeAll(qs)
    ensures ps == qs
  {
    StreamRoundTrip(ps);
    StreamRoundTrip(qs);
    MeantApart(ps, qs);
  }

  // -------------------------------------------------------------- byte by byte

  /** A word read at an offset, by its bytes, lowest first. */
  lemma {:induction false} ByteOrder(b: bytes, at: nat, x: u32)
    requires at + 4 <= |b|
    ensures var x0: int, x1: int, x2: int, x3: int := b[at], b[at + 1], b[at + 2], b[at + 3];
            && Get32(b, at) == x0 + 0x100 * x1 + 0x1_0000 * x2 + 0x100_0000 * x3
            && Get16(b, at) == x0 + 0x100 * x1
    ensures GetTimeval(Le32(x) + Le32(x), 0) == Timeval(x, x)
    ensures Le32(0x8000_8000) == [0x00, 0x80, 0x00, 0x80] && Le32(0x0403_0201) == [1, 2, 3, 4]
  {
    ReadBackTimeval(LeTimeval(Timeval(x, x)), 0, Timeval(x, x));
  }

  lemma {:induction false} GetRowsAt(b: bytes, at: nat, n: nat, i: nat)
    requires at + ROW_LEN * n <= |b| && i < n
    ensures GetRows(b, at, n)[i] == GetRow(b, at + ROW_LEN * i)
  {
    if i < n - 1 {
      GetRowsAt(b, at, n - 1, i);
    }
  }

  lemma WordsWithin(b: bytes, from: nat, to: nat, i: nat)
    requires from <= to <= |b| && i + 2 <= to - from
    ensures Get16(b[from..to], i) == Get16(b, from + i)
    ensures i + 4 <= to - from ==> Get32(b[from..to], i) == Get32(b, from + i)
  {
  }

  /** Records laid out in a body: record i from offset 26 + 18 * i of the packet. */
  predicate RowsAt(b: bytes, recs: seq<Record>) {
    forall i :: 0 <= i < |recs| ==> RowAt(b, 26 + 18 * i, recs[i])
  }

  predicate RowAt(b: bytes, at: int, r: Record) {
    && 0 <= at && at + 18 <= |b|
    && Get32(b, at) == r.tv.sec && Get32(b, at + 4) == r.tv.usec
    && Get32(b, at + 8) == r.id && Get16(b, at + 12) == r.code && Get32(b, at + 14) == r.value
  }

  lemma {:induction false} RowsLaidOut(head: bytes, recs: seq<Record>, i: nat)
    requires |head| == 26 && i < |recs|
    ensures RowAt(head + RowsBytes(recs), 26 + 18 * i, recs[i])
  {
    var b := head + RowsBytes(recs) + [];
    assert b == head + RowsBytes(recs);
    RowsRoundTrip(head, recs, []);
    GetRowsAt(b, 26, |recs|, i);
  }

  /** An event packet, byte by byte: the send time, the type word, the length of what follows
      it, the type, the count and the device, and the records. */
  lemma {:induction false} EventPacketLayout(p: WirePacket)
    requires Fits(p) && p.EventPacket?
    ensures var b := Encode(p);
            && |b| == 26 + 18 * |p.recs|
            && Get32(b, 0) == p.tv.sec && Get32(b, 4) == p.tv.usec
            && Get32(b, 8) == 0x8000_8000 && Get32(b, 12) == |b| - 16
            && Get16(b, 16) == p.etype && Get32(b, 18) == |p.recs| && Get32(b, 22) == p.devId
            && RowsAt(b, p.recs)
  {
    var b := Encode(p);
    var kind: u32 := 0x8000_8000;
    var h, m := FrameHead(p.tv, kind, |Body(p)|), BodyHead(p.etype, |p.recs|, p.devId);
    FrameRoundTrip(p.tv, kind, Body(p), []);
    assert b + [] == b;
    assert b == h + m + RowsBytes(p.recs) by {
      HeadAndRows(h, m, RowsBytes(p.recs));
    }
    assert b[16..18] == m[0..2] == Le16(p.etype);
    assert b[18..22] == m[2..6] == Le32(|p.recs|);
    assert b[22..26] == m[6..10] == Le32(p.devId);
    ReadBack16(b, 16, p.etype);
    ReadBack32(b, 18, |p.recs|);
    ReadBack32(b, 22, p.devId);
    forall i | 0 <= i < |p.recs|
      ensures RowAt(b, 26 + 18 * i, p.recs[i])
    {
      RowsLaidOut(h + m, p.recs, i);
    }
  }

  /** A surface packet, byte by byte: the send time, the sides, the length, the body. */
  lemma {:induction false} SurfacePacketLayout(p: WirePacket)
    requires Fits(p) && p.SurfacePacket?
    ensures var b := Encode(p);
            && |b| == 16 + |p.body|
            && Get32(b, 0) == p.tv.sec && Get32(b, 4) == p.tv.usec
            && Get16(b, 8) == p.width && Get16(b, 10) == p.height
            && Get32(b, 12) == |p.body| && b[16..] == p.body
  {
    var b := Encode(p);
    FrameRoundTrip(p.tv, KindWord(p), p.body, []);
    assert b + [] == b;
  }

  lemma RowWithin(b: bytes, from: nat, to: nat, at: nat)
    requires from <= to <= |b| && at + 18 <= to - from
    ensures GetRow(b[from..to], at) == GetRow(b, from + at)
  {
    WordsWithin(b, from, to, at);
    WordsWithin(b, from, to, at + 4);
    WordsWithin(b, from, to, at + 8);
    WordsWithin(b, from, to, at + 12);
    WordsWithin(b, from, to, at + 14);
  }

  lemma {:induction false} RowsWithin(b: bytes, from: nat, to: nat, n: nat)
    requires from <= to <= |b| && 10 + 18 * n <= to - from
    ensures GetRows(b[from..to], 10, n) == GetRows(b, from + 10, n)
  {
    if n > 0 {
      RowsWithin(b, from, to, n - 1);
      RowWithin(b, from, to, 10 + 18 * (n - 1));
    }
  }

  lemma {:induction false} KindBits(b: bytes, at: nat)
    requires at + 4 <= |b|
    ensures Get32(b, at) % 0x1_0000 == Get16(b, at) && Get32(b, at) / 0x1_0000 == Get16(b, at + 2)
    ensures Masked(Get32(b, at)) == (if Get16(b, at + 2) >= 0x8000 then 0x8000_0000 else 0)
                                    + if Get16(b, at) >= 0x8000 then 0x8000 else 0
  {
    var low: int, high: int := Get16(b, at), Get16(b, at + 2);
    var k := low + high * 0x1_0000;
    assert k / 0x8000_0000 == high / 0x8000;
    assert k / 0x8000 == low / 0x8000 + 2 * high;
    assert (low / 0x8000 + 2 * high) % 2 == low / 0x8000;
  }

  lemma ReceiveWhole(b: bytes)
    requires |b| >= 16 && Get32(b, 12) > 0 && |b| >= 16 + Get32(b, 12)
    ensures var n := Get32(b, 12);
            var h := Handle(Timeval(Get32(b, 0), Get32(b, 4)), Get32(b, 8), b[16..16 + n]);
            Receive(b) == if h == None then [] else [h.value] + Receive(b[16 + n..])
  {
  }

  /** A body of an event packet, by its length and the count in it. */
  lemma {:induction false} BodyReads(b: bytes, n: nat, tv: Timeval)
    requires |b| >= 16 + n
    ensures OnEventCapture(tv, b[16..16 + n]) ==
            if n < 10 || 10 + 18 * Get32(b, 18) != n then None
            else Some(EventCapture(tv, Get16(b, 16), Get32(b, 22), GetRows(b, 26, Get32(b, 18))))
  {
    if n >= 10 {
      WordsWithin(b, 16, 16 + n, 0);
      WordsWithin(b, 16, 16 + n, 2);
      WordsWithin(b, 16, 16 + n, 6);
      if 10 + 18 * Get32(b, 18) == n {
        RowsWithin(b, 16, 16 + n, Get32(b, 18));
      }
    }
  }

  /** What the receiver does with the bytes of one whole packet and what follows, by bits 31
      and 15 of its type word. */
  lemma {:induction false} ReceiverReads(b: bytes)
    requires |b| >= 16 && Get32(b, 12) > 0 && |b| >= 16 + Get32(b, 12)
    ensures var n, high, low := Get32(b, 12), Get16(b, 10) >= 0x8000, Get16(b, 8) >= 0x8000;
            var tv, rest := Timeval(Get32(b, 0), Get32(b, 4)), Receive(b[16 + n..]);
            Receive(b) ==
            if !high && !low then [ScreenCapture(tv, Get16(b, 8), Get16(b, 10), b[16..16 + n])] + rest
            else if !high then [Control] + rest
            else if !low then [Reserved1] + rest
            else if n < 10 || 10 + 18 * Get32(b, 18) != n then []
            else [EventCapture(tv, Get16(b, 16), Get32(b, 22), GetRows(b, 26, Get32(b, 18)))] + rest
  {
    ReceiveWhole(b);
    KindBits(b, 8);
    BodyReads(b, Get32(b, 12), Timeval(Get32(b, 0), Get32(b, 4)));
  }

  /** The rows the receiver reads. */
  lemma {:induction false} RowsRead(b: bytes, n: nat, i: nat)
    requires 26 + 18 * n <= |b| && i < n
    ensures RowAt(b, 26 + 18 * i, GetRows(b, 26, n)[i])
  {
    GetRowsAt(b, 26, n, i);
  }

  /** A stream that breaks off, or has an empty body, yields nothing more. */
  lemma {:induction false} ReceiverStops(b: bytes)
    requires |b| < 16 || Get32(b, 12) == 0 || |b| < 16 + Get32(b, 12)
    ensures Receive(b) == []
  {
  }
}
