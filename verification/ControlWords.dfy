/** The control words of the connection: a command in bytes 0 and 2, and in bytes 1 and 3 the
    index of a play step. */
module ControlWords {
  import Pipeline

  const CAPTURE_START: bv32 := 0x0001_0001
  const CAPTURE_STOP: bv32 := 0x0001_0002
  const CAPTURE_IMMEDIATELY: bv32 := 0x0001_0004
  const EVENT_RECORD_START: bv32 := 0x0002_0001
  const EVENT_RECORD_STOP: bv32 := 0x0002_0002
  const EVENT_PLAY_START: bv32 := 0x0004_0001
  const EVENT_PLAY_STOP: bv32 := 0x0004_0002
  const EVENT_PLAY_STEP: bv32 := 0x0004_0004
  const TERMINATE: bv32 := 0x0008_0001

  function CommandOf(word: bv32): bv32 {
    word & 0x00ff_00ff
  }

  function IndexOf(word: bv32): bv32 {
    ((word & 0xff00_0000) >> 16) | ((word & 0x0000_ff00) >> 8)
  }

  /** A step command carrying an index. */
  function StepWord(k: bv32): bv32 {
    EVENT_PLAY_STEP | ((k & 0xff00) << 16) | ((k & 0x00ff) << 8)
  }

  /** What a word is to the threads around the queue; play commands are not their concern. */
  function MessageOf(word: bv32): Pipeline.Message {
    var c := CommandOf(word);
    if c == CAPTURE_START then Pipeline.CaptureStart
    else if c == CAPTURE_STOP then Pipeline.CaptureStop
    else if c == CAPTURE_IMMEDIATELY then Pipeline.CaptureImmediately
    else if c == EVENT_RECORD_START then Pipeline.RecordStart
    else if c == EVENT_RECORD_STOP then Pipeline.RecordStop
    else if c == TERMINATE then Pipeline.Terminate
    else Pipeline.Other
  }

  /** Bytes 0 and 2 alone decide the message. */
  lemma {:induction false} WordsMean(word: bv32)
    ensures MessageOf(word) == Pipeline.CaptureStart <==> word & 0x00ff_00ff == 0x0001_0001
    ensures MessageOf(word) == Pipeline.CaptureStop <==> word & 0x00ff_00ff == 0x0001_0002
    ensures MessageOf(word) == Pipeline.CaptureImmediately <==> word & 0x00ff_00ff == 0x0001_0004
    ensures MessageOf(word) == Pipeline.RecordStart <==> word & 0x00ff_00ff == 0x0002_0001
    ensures MessageOf(word) == Pipeline.RecordStop <==> word & 0x00ff_00ff == 0x0002_0002
    ensures MessageOf(word) == Pipeline.Terminate <==> word & 0x00ff_00ff == 0x0008_0001
  {
  }
}
