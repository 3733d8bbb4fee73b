/** `_get_raw_buffer`: a frame read from a pipe in chunks of at most 1024 bytes. */
module FrameReader {
  import opened Words

  const BUFF_SIZE := 1024

  function Min(a: int, b: int): int {
    if a <= b then a else b
  }

  /** How much one read returns: at most what is asked for and what is left, and nothing
      only when one of these is zero; the cap makes it short in any other way. */
  function Fread(want: nat, left: nat, cap: nat): nat {
    Min(Min(want, left), if cap == 0 then 1 else cap)
  }

  /** The next request; the comparison is unsigned, so a negative rest is a huge one. */
  function NextRequest(frame: int, total: int, request: nat): nat {
    if Wrap32(frame - total) < BUFF_SIZE && frame - total >= 0 then frame - total else request
  }

  /** Bytes stored when the loop ends, for any sequence of caps. */
  function Stored(frame: nat, stream: nat, caps: nat -> nat, k: nat, total: nat, request: nat): nat
    requires total <= stream < 0x8000_0000
    decreases stream - total
  {
    var ret := Fread(request, stream - total, caps(k));
    if ret == 0 then total
    else Stored(frame, stream, caps, k + 1, total + ret, NextRequest(frame, total + ret, request))
  }

  /** While the request is within the rest of the frame, the loop ends with the frame full
      or the stream used up, and no more. */
  lemma {:induction false} StoresFrame(frame: nat, stream: nat, caps: nat -> nat, k: nat, total: nat, request: nat)
    requires total <= stream < 0x8000_0000 && frame < 0x8000_0000 && total <= frame
    requires request == Min(BUFF_SIZE, frame - total)
    ensures Stored(frame, stream, caps, k, total, request) == Min(frame, stream)
    decreases stream - total
  {
    var ret := Fread(request, stream - total, caps(k));
    if ret > 0 {
      StoresFrame(frame, stream, caps, k + 1, total + ret, NextRequest(frame, total + ret, request));
    }
  }

  lemma StoresAtLeast(frame: nat, stream: nat, caps: nat -> nat, k: nat, total: nat, request: nat)
    requires total <= stream < 0x8000_0000
    ensures Stored(frame, stream, caps, k, total, request) >= total
    decreases stream - total
  {
  }

  /** What the first read returns. */
  function FirstChunk(stream: nat, caps: nat -> nat): nat {
    Fread(BUFF_SIZE, stream, caps(0))
  }

  /** The frame is never overrun exactly when it is at least one chunk long or the first
      read happens to stay within it; the bytes stored are then those the frame holds of
      the stream. */
  lemma {:induction false} FrameNotOverrunExactly(frame: nat, stream: nat, caps: nat -> nat)
    requires stream < 0x8000_0000 && frame < 0x8000_0000
    ensures var n := Stored(frame, stream, caps, 0, 0, 1024);
            && (n <= frame <==> frame >= 1024 || FirstChunk(stream, caps) <= frame)
            && (n <= frame ==> n == Min(frame, stream))
  {
    if frame >= BUFF_SIZE {
      StoresFrame(frame, stream, caps, 0, 0, BUFF_SIZE);
    } else {
      var ret := FirstChunk(stream, caps);
      if ret > 0 {
        if ret <= frame {
          StoresFrame(frame, stream, caps, 1, ret, NextRequest(frame, ret, BUFF_SIZE));
        } else {
          StoresAtLeast(frame, stream, caps, 1, ret, NextRequest(frame, ret, BUFF_SIZE));
        }
      }
    }
  }

  /** The loop: the frame receives, in order, the front of the stream and nothing else. */
  method GetRawBuffer(p: array<u8>, stream: bytes, caps: nat -> nat) returns (totalRead: nat)
    requires |stream| < 0x8000_0000 && p.Length < 0x8000_0000
    requires p.Length >= BUFF_SIZE || FirstChunk(|stream|, caps) <= p.Length
    modifies p
    ensures totalRead == Min(p.Length, |stream|)
    ensures p[..totalRead] == stream[..totalRead] && p[totalRead..] == old(p[totalRead..])
  {
    totalRead := 0;
    var request: nat := BUFF_SIZE;
    var k: nat := 0;
    var ret := Fread(request, |stream|, caps(k));
    while 0 < ret
      invariant totalRead <= p.Length && totalRead <= |stream|
      invariant ret == Fread(request, |stream| - totalRead, caps(k))
      invariant if k == 0 then totalRead == 0 && request == BUFF_SIZE
                else request == Min(BUFF_SIZE, p.Length - totalRead)
      invariant p[..totalRead] == stream[..totalRead] && p[totalRead..] == old(p[totalRead..])
      decreases |stream| - totalRead
    {
      CopyChunk(p, stream, totalRead, ret);
      totalRead := totalRead + ret;
      request := NextRequest(p.Length, totalRead, request);
      k := k + 1;
      ret := Fread(request, |stream| - totalRead, caps(k));
    }
  }

  /** The next n bytes of the stream, through the chunk buffer into the frame. */
  method CopyChunk(p: array<u8>, stream: bytes, at: nat, n: nat)
    requires at + n <= p.Length && at + n <= |stream| && p[..at] == stream[..at]
    modifies p
    ensures p[..at + n] == stream[..at + n]
    ensures p[at + n..] == old(p[at + n..])
  {
    for i := 0 to n
      invariant p[..at + i] == stream[..at + i]
      invariant p[at + i..] == old(p[at + i..])
    {
      p[at + i] := stream[at + i];
    }
  }
}
