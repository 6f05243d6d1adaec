/** How packets are defined by a byte stream: a 4-byte header holds the size of the whole
    packet and its id, both 16-bit little-endian. */
module PacketFraming {

  newtype Byte = b: int | 0 <= b < 256

  const HEADER_SIZE := 4
  const HEART_BEAT_ID := 12345

  /** A heart-beat is answered, any other packet goes to the handler of its id. */
  datatype Event = HeartBeat | Dispatch(id: nat, packet: seq<Byte>)

  function Word(data: seq<Byte>, i: nat): (w: nat)
    requires i + 1 < |data|
    ensures w < 0x10000
  { data[i] as int + 256 * data[i + 1] as int }

  function PacketSize(data: seq<Byte>): (n: nat)
    requires |data| >= HEADER_SIZE
    ensures n < 0x10000
  { Word(data, 0) }

  /** The data starts with a packet that is there in full. */
  predicate HasPacket(data: seq<Byte>) {
    |data| >= HEADER_SIZE && PacketSize(data) <= |data|
  }

  function EventOf(data: seq<Byte>): Event
    requires HasPacket(data)
  {
    var id := Word(data, 2);
    if id == HEART_BEAT_ID then HeartBeat else Dispatch(id, data[..PacketSize(data)])
  }

  /** No packet of the stream has size 0. */
  predicate Advances(data: seq<Byte>)
    decreases |data|
  {
    HasPacket(data) ==> PacketSize(data) > 0 && Advances(data[PacketSize(data)..])
  }

  /** What the whole stream means, and the bytes of its last, incomplete packet. */
  function Events(data: seq<Byte>): seq<Event>
    requires Advances(data)
    decreases |data|
  {
    if HasPacket(data) then [EventOf(data)] + Events(data[PacketSize(data)..]) else []
  }

  function Rest(data: seq<Byte>): seq<Byte>
    requires Advances(data)
    decreases |data|
  {
    if HasPacket(data) then Rest(data[PacketSize(data)..]) else data
  }

  lemma {:induction false} RestIsSuffix(data: seq<Byte>)
    requires Advances(data)
    ensures |Rest(data)| <= |data| && Rest(data) == data[|data| - |Rest(data)|..]
    decreases |data|
  {
    if HasPacket(data) {
      RestIsSuffix(data[PacketSize(data)..]);
    }
  }

  /** The bytes left over are fewer than the largest packet. */
  lemma {:induction false} RestIsShort(data: seq<Byte>)
    requires Advances(data)
    ensures |Rest(data)| < 0x10000 && !HasPacket(Rest(data))
    decreases |data|
  {
    if HasPacket(data) { RestIsShort(data[PacketSize(data)..]); }
  }

  /** More bytes do not change a packet that is already there. */
  lemma PacketStays(data: seq<Byte>, more: seq<Byte>)
    requires HasPacket(data)
    ensures HasPacket(data + more) && PacketSize(data + more) == PacketSize(data)
    ensures EventOf(data + more) == EventOf(data)
    ensures (data + more)[PacketSize(data)..] == data[PacketSize(data)..] + more
  {
    assert (data + more)[..PacketSize(data)] == data[..PacketSize(data)];
  }

  function After(data: seq<Byte>): (r: seq<Byte>)
    requires HasPacket(data)
    ensures |r| == |data| - PacketSize(data)
  { data[PacketSize(data)..] }

  lemma FirstPacket(data: seq<Byte>)
    requires HasPacket(data)
    ensures Advances(data) <==> PacketSize(data) > 0 && Advances(After(data))
    ensures Advances(data) ==>
              Events(data) == [EventOf(data)] + Events(After(data)) && Rest(data) == Rest(After(data))
  {}

  lemma NoPacket(data: seq<Byte>)
    requires !HasPacket(data)
    ensures Advances(data) && Events(data) == [] && Rest(data) == data
  {}

  /** Parsing can stop anywhere: going on from what was left gives the same events. */
  lemma {:induction false} ParseResumes(data: seq<Byte>, more: seq<Byte>)
    requires Advances(data + more)
    ensures Advances(data) && Advances(Rest(data) + more)
    ensures Events(data + more) == Events(data) + Events(Rest(data) + more)
    ensures Rest(data + more) == Rest(Rest(data) + more)
    decreases |data|
  {
    hide Advances, Events, Rest, EventOf, PacketSize, HasPacket;
    if HasPacket(data) {
      PacketStays(data, more);
      FirstPacket(data + more);
      assert After(data + more) == After(data) + more;
      ParseResumes(After(data), more);
      FirstPacket(data);
    } else {
      NoPacket(data);
    }
  }

  /** The session: bytes not yet parsed, and what has been dispatched. */
  datatype Stream = Stream(pending: seq<Byte>, events: seq<Event>)

  function Joined(chunks: seq<seq<Byte>>): seq<Byte> {
    if chunks == [] then [] else chunks[0] + Joined(chunks[1..])
  }

  /** One receive after the other. */
  function Received(s: Stream, chunks: seq<seq<Byte>>): Stream
    requires Advances(s.pending + Joined(chunks))
    decreases |chunks|
  {
    if chunks == [] then s
    else
      assert s.pending + Joined(chunks) == (s.pending + chunks[0]) + Joined(chunks[1..]);
      ParseResumes(s.pending + chunks[0], Joined(chunks[1..]));
      Received(Receive(s, chunks[0]), chunks[1..])
  }

  function Receive(s: Stream, chunk: seq<Byte>): Stream
    requires Advances(s.pending + chunk)
  {
    Stream(Rest(s.pending + chunk), s.events + Events(s.pending + chunk))
  }

  lemma NextReceive(s: Stream, chunks: seq<seq<Byte>>)
    requires Advances(s.pending + Joined(chunks)) && chunks != []
    ensures var data, more := s.pending + chunks[0], Joined(chunks[1..]);
            && s.pending + Joined(chunks) == data + more
            && Advances(data) && Advances(Rest(data) + more) && !HasPacket(Rest(data))
            && Received(s, chunks) == Received(Receive(s, chunks[0]), chunks[1..])
            && Rest(Rest(data) + more) == Rest(data + more)
            && Events(data + more) == Events(data) + Events(Rest(data) + more)
  {
    hide Events, Rest, Advances, HasPacket;
    var data, more := s.pending + chunks[0], Joined(chunks[1..]);
    assert s.pending + Joined(chunks) == data + more;
    ParseResumes(data, more);
    RestIsShort(data);
  }

  /** However a stream is split into receives, the same packets are dispatched in the same
      order, and the same bytes are left. */
  lemma {:induction false} ChunkingIsIrrelevant(s: Stream, chunks: seq<seq<Byte>>)
    requires Advances(s.pending + Joined(chunks)) && !HasPacket(s.pending)
    ensures Received(s, chunks) ==
              Stream(Rest(s.pending + Joined(chunks)), s.events + Events(s.pending + Joined(chunks)))
    decreases |chunks|
  {
    hide *;
    if chunks == [] {
      NoChunks(s);
    } else {
      NextReceive(s, chunks);
      var s1 := Receive(s, chunks[0]);
      ReceiveIs(s, chunks[0]);
      ChunkingIsIrrelevant(s1, chunks[1..]);
      var data, more := s.pending + chunks[0], Joined(chunks[1..]);
      assert s.events + Events(data) + Events(Rest(data) + more) ==
          s.events + (Events(data) + Events(Rest(data) + more));
    }
  }

  lemma ReceiveIs(s: Stream, chunk: seq<Byte>)
    requires Advances(s.pending + chunk)
    ensures Receive(s, chunk) == Stream(Rest(s.pending + chunk), s.events + Events(s.pending + chunk))
  {}

  lemma NoChunks(s: Stream)
    requires !HasPacket(s.pending)
    ensures s.pending + Joined([]) == s.pending && Advances(s.pending)
    ensures Received(s, []) == s && Rest(s.pending) == s.pending && s.events + Events(s.pending) == s.events
  {}

  // ---------------------------------------------------------------- packets written and read back

  /** A packet before it is sent. */
  datatype Packet = Packet(id: nat, payload: seq<Byte>) {
    predicate Sendable() { id < 0x10000 && |payload| < 65532 }
  }

  /** A packet on the wire: the size of the whole and the id, low bytes first, then the payload. */
  function Encoded(p: Packet): seq<Byte>
    requires p.Sendable()
  {
    var size := 4 + |p.payload|;
    [(size % 256) as Byte, (size / 256) as Byte, (p.id % 256) as Byte, (p.id / 256) as Byte] + p.payload
  }

  predicate AllSendable(packets: seq<Packet>) { forall i | 0 <= i < |packets| :: packets[i].Sendable() }

  function Wire(packets: seq<Packet>): seq<Byte>
    requires AllSendable(packets)
  {
    if packets == [] then [] else Encoded(packets[0]) + Wire(packets[1..])
  }

  /** What is to be done with the packets: a heart-beat is answered, another goes, whole, to the
      handler of its id. */
  function Handled(packets: seq<Packet>): seq<Event>
    requires AllSendable(packets)
  {
    if packets == [] then []
    else
      [if packets[0].id == 12345 then HeartBeat else Dispatch(packets[0].id, Encoded(packets[0]))] +
      Handled(packets[1..])
  }

  /** The bytes are part of a packet, and not all of it. */
  ghost predicate Unfinished(data: seq<Byte>) {
    data == [] || exists p: Packet :: p.Sendable() && |data| < |Encoded(p)| && data == Encoded(p)[..|data|]
  }

  /** A written packet is there, and is what was written, whatever follows. */
  lemma EncodedIsPacket(p: Packet, more: seq<Byte>)
    requires p.Sendable()
    ensures var data := Encoded(p) + more;
            && HasPacket(data) && PacketSize(data) == |Encoded(p)| == 4 + |p.payload|
            && EventOf(data) == (if p.id == 12345 then HeartBeat else Dispatch(p.id, Encoded(p)))
            && After(data) == more
  {
    var data, size := Encoded(p) + more, 4 + |p.payload|;
    assert Word(data, 0) == size % 256 + 256 * (size / 256);
    assert Word(data, 2) == p.id % 256 + 256 * (p.id / 256);
    assert data[..size] == Encoded(p);
  }

  /** Part of one is not. */
  lemma UnfinishedIsNoPacket(data: seq<Byte>)
    requires Unfinished(data)
    ensures !HasPacket(data)
  {
    if data != [] && |data| >= HEADER_SIZE {
      var p: Packet :| p.Sendable() && |data| < |Encoded(p)| && data == Encoded(p)[..|data|];
      EncodedIsPacket(p, []);
      assert Encoded(p) + [] == Encoded(p);
      assert PacketSize(data) == PacketSize(Encoded(p));
    }
  }

  /** Reading gives back what was written: the events of any packets on the wire, with part of
      another one behind them, are those of the packets, in order, and that part is left. */
  lemma {:induction false} WireParses(packets: seq<Packet>, tail: seq<Byte>)
    requires AllSendable(packets) && Unfinished(tail)
    ensures var data := Wire(packets) + tail;
            Advances(data) && Events(data) == Handled(packets) && Rest(data) == tail
  {
    var data := Wire(packets) + tail;
    hide Advances, Events, Rest, Encoded, EventOf, HasPacket, PacketSize, Unfinished;
    if packets == [] {
      assert data == tail;
      UnfinishedIsNoPacket(tail);
      NoPacket(tail);
    } else {
      var more := Wire(packets[1..]) + tail;
      WireParses(packets[1..], tail);
      assert data == Encoded(packets[0]) + more;
      EncodedIsPacket(packets[0], more);
      FirstPacket(data);
    }
  }

  // ---------------------------------------------------------------- packets of size 0

  /** The loop of `OnRecv`, at most `fuel` rounds of it, from `done` on: where it stops. */
  datatype Loop = Stopped(done: nat) | Running(done: nat)

  function Rounds(data: seq<Byte>, done: nat, fuel: nat): Loop
    requires done <= |data|
    decreases fuel
  {
    if !HasPacket(data[done..]) then Stopped(done)
    else if fuel == 0 then Running(done)
    else Rounds(data, done + PacketSize(data[done..]), fuel - 1)
  }

  /** What the rounds dispatch. */
  function Dispatched(data: seq<Byte>, done: nat, fuel: nat): seq<Event>
    requires done <= |data|
    decreases fuel
  {
    if !HasPacket(data[done..]) || fuel == 0 then []
    else [EventOf(data[done..])] + Dispatched(data, done + PacketSize(data[done..]), fuel - 1)
  }

  /** With enough rounds the loop dispatches just the packets of the data. */
  lemma {:induction false} AdvancingDispatches(data: seq<Byte>, done: nat, fuel: nat)
    requires done <= |data| && Advances(data[done..]) && fuel >= |data| - done
    ensures Dispatched(data, done, fuel) == Events(data[done..])
    decreases |data| - done
  {
    hide Advances, Events, EventOf;
    if HasPacket(data[done..]) {
      FirstPacket(data[done..]);
      var next := done + PacketSize(data[done..]);
      assert After(data[done..]) == data[next..];
      AdvancingDispatches(data, next, fuel - 1);
    } else {
      NoPacket(data[done..]);
    }
  }

  /** Both together: what the loop does to data it can finish, given enough rounds. */
  lemma LoopParses(data: seq<Byte>, fuel: nat)
    requires Advances(data) && fuel >= |data|
    ensures |Rest(data)| <= |data|
    ensures Rounds(data, 0, fuel) == Stopped(|data| - |Rest(data)|) && Dispatched(data, 0, fuel) == Events(data)
  {
    assert data[0..] == data;
    AdvancingStops(data, 0);
    MoreFuel(data, 0, |data|, fuel);
    AdvancingDispatches(data, 0, fuel);
    RestIsSuffix(data);
    hide Advances, Events, Rest;
  }

  lemma {:induction false} MoreDispatches(data: seq<Byte>, done: nat, fuel: nat, more: nat)
    requires done <= |data| && fuel <= more && Rounds(data, done, fuel).Stopped?
    ensures Dispatched(data, done, more) == Dispatched(data, done, fuel)
    decreases fuel
  {
    hide EventOf;
    if HasPacket(data[done..]) {
      MoreDispatches(data, done + PacketSize(data[done..]), fuel - 1, more - 1);
    }
  }

  /** A loop that stopped had data without packets of size 0, and has parsed it. */
  lemma StoppedParses(data: seq<Byte>, fuel: nat)
    requires Rounds(data, 0, fuel).Stopped?
    ensures Advances(data) && |Rest(data)| <= |data|
    ensures Rounds(data, 0, fuel) == Stopped(|data| - |Rest(data)|) && Dispatched(data, 0, fuel) == Events(data)
  {
    assert data[0..] == data;
    StoppingAdvances(data, 0, fuel);
    var more := if fuel < |data| then |data| else fuel;
    LoopParses(data, more);
    MoreFuel(data, 0, fuel, more);
    MoreDispatches(data, 0, fuel, more);
    hide Advances, Events, Rest;
  }

  lemma {:induction false} AdvancingStops(data: seq<Byte>, done: nat)
    requires done <= |data| && Advances(data[done..])
    ensures Rounds(data, done, |data| - done).Stopped?
    ensures Rounds(data, done, |data| - done).done == |data| - |Rest(data[done..])|
    decreases |data| - done
  {
    if HasPacket(data[done..]) {
      var next := done + PacketSize(data[done..]);
      assert data[done..][PacketSize(data[done..])..] == data[next..];
      AdvancingStops(data, next);
      MoreFuel(data, next, |data| - next, |data| - done - 1);
    }
  }

  lemma {:induction false} MoreFuel(data: seq<Byte>, done: nat, fuel: nat, more: nat)
    requires done <= |data| && fuel <= more && Rounds(data, done, fuel).Stopped?
    ensures Rounds(data, done, more) == Rounds(data, done, fuel)
    decreases fuel
  {
    if HasPacket(data[done..]) {
      MoreFuel(data, done + PacketSize(data[done..]), fuel - 1, more - 1);
    }
  }

  lemma {:induction false} StoppingAdvances(data: seq<Byte>, done: nat, fuel: nat)
    requires done <= |data| && Rounds(data, done, fuel).Stopped?
    ensures Advances(data[done..])
    decreases fuel
  {
    if HasPacket(data[done..]) {
      var next := done + PacketSize(data[done..]);
      assert data[done..][PacketSize(data[done..])..] == data[next..];
      StoppingAdvances(data, next, fuel - 1);
      if next == done {
        ZeroNeverStops(data, done, fuel);
      }
    }
  }

  lemma {:induction false} ZeroNeverStops(data: seq<Byte>, done: nat, fuel: nat)
    requires done <= |data| && HasPacket(data[done..]) && PacketSize(data[done..]) == 0
    ensures Rounds(data, done, fuel) == Running(done)
  {
    if fuel > 0 { ZeroNeverStops(data, done, fuel - 1); }
  }

  /** `OnRecv` returns exactly when no packet of its data has size 0. */
  lemma ReturnsIffAdvances(data: seq<Byte>)
    ensures (exists fuel :: Rounds(data, 0, fuel).Stopped?) <==> Advances(data)
  {
    assert data[0..] == data;
    if Advances(data) {
      AdvancingStops(data, 0);
    }
    if fuel :| Rounds(data, 0, fuel).Stopped? {
      StoppingAdvances(data, 0, fuel);
    }
  }

  /** Four zero bytes are such data. */
  lemma ZerosNeverReturn(fuel: nat)
    ensures !Advances([0, 0, 0, 0]) && Rounds([0, 0, 0, 0], 0, fuel) == Running(0)
  {
    var data: seq<Byte> := [0, 0, 0, 0];
    assert data[0..] == data;
    ZeroNeverStops(data, 0, fuel);
  }
}
