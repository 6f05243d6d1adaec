/** The receiving side of a client session: a buffer that the network writes behind the
    unread bytes, the loop that dispatches the packets that are complete, and the
    compaction that makes room again. */
module PacketSession {
  import opened Options
  import opened PacketFraming

  const BUFFER_COUNT := 10
  const BUFFER_SIZE := 0x10000

  class RecvBuffer {
    const bufferSize: nat
    const capacity: nat
    var readPos: nat
    var writePos: nat
    const buffer: array<Byte>

    ghost predicate Valid()
      reads this
    {
      bufferSize == BUFFER_SIZE && capacity == buffer.Length == bufferSize * BUFFER_COUNT &&
          readPos <= writePos <= capacity
    }

    ghost function Data(): seq<Byte>
      requires Valid()
      reads this, buffer
    { buffer[readPos..writePos] }

    constructor ()
      ensures Valid() && Data() == [] && FreeSize() == capacity && fresh(buffer)
    {
      bufferSize, capacity := BUFFER_SIZE, BUFFER_SIZE * BUFFER_COUNT;
      readPos, writePos := 0, 0;
      buffer := new Byte[BUFFER_SIZE * BUFFER_COUNT];
    }

    function DataSize(): int
      reads this
    { writePos - readPos }

    function FreeSize(): int
      reads this
    { capacity - writePos }

    method OnRead(n: nat) returns (ok: bool)
      requires Valid()
      modifies this`readPos
      ensures Valid() && ok == (n <= old(|Data()|))
      ensures Data() == if ok then old(Data())[n..] else old(Data())
    {
      if n > DataSize() {
        return false;
      }
      readPos := readPos + n;
      return true;
    }

    method OnWrite(n: nat) returns (ok: bool)
      requires Valid()
      modifies this`writePos
      ensures Valid() && ok == (n <= old(FreeSize()))
      ensures writePos == if ok then old(writePos) + n else old(writePos)
    {
      if n > FreeSize() {
        return false;
      }
      writePos := writePos + n;
      return true;
    }

    /** When less than one buffer size is free, the unread bytes are moved to the front. The
        copy asks for regions that do not overlap, which fewer unread bytes than one buffer
        size never do. */
    method Clear()
      requires Valid() && (0 < |Data()| && FreeSize() < bufferSize ==> |Data()| <= readPos)
      modifies this`readPos, this`writePos, buffer
      ensures Valid() && Data() == old(Data())
      ensures FreeSize() >= if bufferSize <= capacity - |Data()| then bufferSize else capacity - |Data()|
    {
      var dataSize := DataSize();
      if dataSize == 0 {
        readPos, writePos := 0, 0;
      } else if FreeSize() < bufferSize {
        assert dataSize <= readPos;
        forall i | 0 <= i < dataSize {
          buffer[i] := buffer[readPos + i];
        }
        readPos, writePos := 0, dataSize;
      }
    }

    /** Fewer unread bytes than one buffer size: the regions are disjoint. */
    lemma RegionsDisjoint()
      requires Valid() && |Data()| < bufferSize
      ensures FreeSize() < bufferSize ==> |Data()| <= readPos
    {}
  }

  class PacketSession {
    const recv: RecvBuffer
    var connected: bool
    var events: seq<Event>

    constructor ()
      ensures connected && events == [] && fresh(recv) && fresh(recv.buffer)
      ensures recv.Valid() && recv.Data() == [] && recv.FreeSize() >= BUFFER_SIZE
    {
      recv := new RecvBuffer();
      connected, events := true, [];
    }

    /** The packet at `done` in the bytes from `start`: its size, and what is done with it;
        None if it is not there in full. */
    method Frame(start: nat, len: nat, done: nat) returns (size: nat, event: Option<Event>)
      requires start + len <= recv.buffer.Length && done <= len
      ensures var rest := recv.buffer[start..start + len][done..];
              if HasPacket(rest) then event == Some(EventOf(rest)) && size == PacketSize(rest) else event == None
    {
      ghost var rest := recv.buffer[start..start + len][done..];
      var at := start + done;
      size, event := 0, None;
      if len - done < HEADER_SIZE {
        return;
      }
      size := recv.buffer[at] as int + 256 * recv.buffer[at + 1] as int;
      var id := recv.buffer[at + 2] as int + 256 * recv.buffer[at + 3] as int;
      assert size == Word(rest, 0) && id == Word(rest, 2);
      if len - done < size {
        return;
      }
      assert rest[..size] == recv.buffer[at..at + size];
      event := Some(if id == HEART_BEAT_ID then HeartBeat else Dispatch(id, recv.buffer[at..at + size]));
    }

    /** The framing loop over the bytes from `start`, at most `rounds` rounds of it. */
    method OnRecv(start: nat, len: nat, rounds: nat) returns (stopped: bool, processLen: nat)
      requires start + len <= recv.buffer.Length
      modifies this`events
      ensures var data := recv.buffer[start..start + len];
              && Rounds(data, 0, rounds) == (if stopped then Stopped(processLen) else Running(processLen))
              && events == old(events) + Dispatched(data, 0, rounds)
    {
      ghost var data := recv.buffer[start..start + len];
      hide *;
      processLen := 0;
      var left := rounds;
      LoopStarts(data, rounds, events);
      while true
        invariant processLen <= len && recv.buffer[start..start + len] == data
        invariant Looping(data, processLen, left, rounds, old(events), events)
        decreases left
      {
        var size, event := Frame(start, len, processLen);
        LoopGoesOn(data, processLen, left, rounds, old(events), events);
        if event.None? {
          return true, processLen;
        }
        if left == 0 {
          return false, processLen;
        }
        events := events + [event.value];
        processLen := processLen + size;
        left := left - 1;
      }
    }

    /** The network has written `chunk` behind the unread bytes, as far as there is room. */
    method Arrive(chunk: seq<Byte>) returns (ok: bool)
      requires recv.Valid() && |chunk| <= recv.FreeSize()
      modifies recv, recv.buffer
      ensures recv.Valid() && ok && recv.Data() == old(recv.Data()) + chunk
    {
      var at := recv.writePos;
      forall i | 0 <= i < |chunk| {
        recv.buffer[at + i] := chunk[i];
      }
      ok := recv.OnWrite(|chunk|);
    }

    /** One receive; whether it returns within the given number of rounds of the loop. It
        does, given enough, if and only if no packet has size 0, and then the session has
        parsed what it has. */
    method ProcessRecv(chunk: seq<Byte>, rounds: nat) returns (returned: bool)
      requires connected && recv.Valid() && |chunk| <= recv.FreeSize() && |recv.Data()| < BUFFER_SIZE
      modifies this`connected, this`events, recv, recv.buffer
      ensures recv.Valid() && (connected <==> chunk != []) && (chunk == [] ==> returned)
      ensures connected && returned ==>
                && Advances(old(recv.Data()) + chunk)
                && Stream(recv.Data(), events) == Receive(Stream(old(recv.Data()), old(events)), chunk)
                && |recv.Data()| < BUFFER_SIZE && recv.FreeSize() >= BUFFER_SIZE
      ensures connected && Advances(old(recv.Data()) + chunk) && rounds >= |old(recv.Data()) + chunk| ==> returned
      ensures forall packets, tail | ReadsAs(old(recv.Data()) + chunk, packets, tail) && chunk != [] ::
                && (rounds >= |old(recv.Data()) + chunk| ==> returned)
                && (returned ==> connected && events == old(events) + Handled(packets) && recv.Data() == tail)
    {
      hide Advances, Events, Rest, HasPacket, PacketSize, EventOf, Rounds, Dispatched;
      if |chunk| == 0 {
        connected := false;
        return true;
      }
      ghost var data := recv.Data() + chunk;
      var ok := Arrive(chunk);
      var dataSize := recv.DataSize();
      ReadsBack(data);
      hide ReadsAs, Handled;
      var stopped, processLen := OnRecv(recv.readPos, dataSize, rounds);
      if !stopped {
        if Advances(data) && rounds >= |data| { LoopParses(data, rounds); }
        return false;
      }
      StoppedParses(data, rounds);
      RestIsShort(data);
      RestIsSuffix(data);
      var read := recv.OnRead(processLen);
      connected := ok && processLen <= dataSize && read;
      if connected {
        recv.RegionsDisjoint();
        recv.Clear();
      }
      return true;
    }
  }

  /** The bytes are packets as they are written to the wire, and part of one more. */
  ghost predicate ReadsAs(data: seq<Byte>, packets: seq<Packet>, tail: seq<Byte>) {
    AllSendable(packets) && Unfinished(tail) && data == Wire(packets) + tail
  }

  lemma ReadsBack(data: seq<Byte>)
    ensures forall packets, tail | ReadsAs(data, packets, tail) ::
              Advances(data) && Events(data) == Handled(packets) && Rest(data) == tail
  {
    forall packets, tail | ReadsAs(data, packets, tail)
      ensures Advances(data) && Events(data) == Handled(packets) && Rest(data) == tail
    {
      WireParses(packets, tail);
    }
  }

  /** The loop is at `done` with `left` rounds to go. */
  ghost predicate Looping(data: seq<Byte>, done: nat, left: nat, rounds: nat, before: seq<Event>, events: seq<Event>) {
    && done <= |data|
    && Rounds(data, done, left) == Rounds(data, 0, rounds)
    && events + Dispatched(data, done, left) == before + Dispatched(data, 0, rounds)
  }

  lemma LoopStarts(data: seq<Byte>, rounds: nat, events: seq<Event>)
    ensures Looping(data, 0, rounds, rounds, events, events)
  {}

  lemma LoopGoesOn(data: seq<Byte>, done: nat, left: nat, rounds: nat, before: seq<Event>, events: seq<Event>)
    requires done <= |data| && Looping(data, done, left, rounds, before, events)
    ensures !HasPacket(data[done..]) ==>
              Rounds(data, 0, rounds) == Stopped(done) && events == before + Dispatched(data, 0, rounds)
    ensures HasPacket(data[done..]) && left == 0 ==>
              Rounds(data, 0, rounds) == Running(done) && events == before + Dispatched(data, 0, rounds)
    ensures HasPacket(data[done..]) && left > 0 ==>
              var size, event := PacketSize(data[done..]), EventOf(data[done..]);
              done + size <= |data| && Looping(data, done + size, left - 1, rounds, before, events + [event])
  {
    if HasPacket(data[done..]) && left > 0 {
      var size, event := PacketSize(data[done..]), EventOf(data[done..]);
      var more := Dispatched(data, done + size, left - 1);
      assert Dispatched(data, done, left) == [event] + more;
      assert events + ([event] + more) == events + [event] + more;
    } else {
      assert events + [] == events;
    }
  }
}
