/** The recording thread of main.cpp around `parse_event`: one device, one polled
    event per turn, a packet pushed and the buffer cleared whenever a turn ends one. */
module Session {
  import opened Words
  import opened Recorder

  /** What `make_event_packet` is handed when a turn ends a packet. */
  datatype Packet = Packet(etype: u16, recs: seq<Record>)

  datatype Session = Session(st: State, packets: seq<Packet>)

  predicate BoundedSlots(es: seq<InputEvent>) {
    forall e :: e in es && IsSlot(e) ==> e.value < ID_MAP_SIZE
  }

  /** One event through `parse_event`, `push` and `clear`. */
  function Deliver(o: Session, e: InputEvent): (r: Session)
    requires WellFormed(o.st) && (IsSlot(e) ==> e.value < ID_MAP_SIZE)
    ensures WellFormed(r.st)
  {
    var (st, v) := Step(o.st, e);
    if v == End then Session(st.(recs := []), o.packets + [Packet(st.etype, st.recs)])
    else Session(st, o.packets)
  }

  function Recorded(es: seq<InputEvent>): (r: Session)
    requires BoundedSlots(es)
    ensures WellFormed(r.st)
  {
    if es == [] then Session(INITIAL, [])
    else Deliver(Recorded(es[..|es| - 1]), es[|es| - 1])
  }

  /** The packet an event ends: its type, and all that was pending with what it adds. */
  lemma {:induction false} EventEnds(o: Session, e: InputEvent)
    requires WellFormed(o.st) && (IsSlot(e) ==> e.value < ID_MAP_SIZE)
    ensures var (st, v), o' := Step(o.st, e), Deliver(o, e);
            if v == End then o'.packets == o.packets + [Packet(e.etype, st.recs)] && o'.st == st.(recs := [])
            else o'.packets == o.packets && o'.st == st
  {
  }

  /** The records of all packets, followed by those still in the buffer. */
  function Flatten(ps: seq<Packet>): seq<Record> {
    if ps == [] then [] else Flatten(ps[..|ps| - 1]) + ps[|ps| - 1].recs
  }

  lemma {:induction false} FlattenSnoc(ps: seq<Packet>, p: Packet)
    ensures Flatten(ps + [p]) == Flatten(ps) + p.recs
  {
    assert (ps + [p])[..|ps|] == ps;
  }

  function Output(o: Session): seq<Record> {
    Flatten(o.packets) + o.st.recs
  }
}
