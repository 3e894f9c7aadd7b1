/** The ADXL345 driver's observable behaviour as functions on values: its
    fields, the transactions it has put on the bus, the events it has given
    its listener and the replies the channel still holds. The class in module
    Driver is proved to change its state exactly as these functions say. */
module DriverSpec {
  import opened Registers
  import opened Codec
  import opened Bus

  /** Why the driver reported an error to its listener. */
  datatype ErrorReason =
    | UnsupportedRange(range: int)
    | InvalidDeviceId(expected: bv8, got: bv8)

  /** A call the driver makes on its listener. */
  datatype Event =
    | DeviceId(id: bv8)
    | Data(x: int, y: int, z: int)
    | Error(reason: ErrorReason)

  /** The driver's fields, its bus and event history, and the replies its
      channel has left. */
  datatype State = State(
    hasListener: bool,
    deviceId: bv8,
    multiplier: real,
    x: int, y: int, z: int,
    bus: seq<Transaction>,
    events: seq<Event>,
    replies: seq<Reply>)

  /** The state after one operation, whether the connection held (false is a
      ConnectionLostException) and the bytes the operation read. */
  datatype Step = Step(state: State, ok: bool, data: seq<bv8>)

  /** The initial state: no listener, device id 0 and the +-2 g multiplier. */
  const INITIAL: State := State(false, 0, DEFAULT_MULTIPLIER, 0, 0, 0, [], [], [])

  /** The first `k` replies exist and deliver bytes. */
  predicate Delivered(replies: seq<Reply>, k: nat)
    ensures Delivered(replies, k) ==> k <= |replies|
    decreases k
  {
    k == 0 || (replies != [] && replies[0].Bytes? && Delivered(replies[1..], k - 1))
  }

  /** A transaction that set the device's DATA_FORMAT register. */
  predicate IsRangeWrite(t: Transaction)
  {
    t.completed && t.readSize == 0 && |t.written| >= 2 && t.written[0] == DATA_FORMAT
  }

  /** The g-range the device was last configured to over the bus: the range
      bits of the last completed DATA_FORMAT write, or +-2 g, the range of the
      register's reset value, if there was none. */
  function ConfiguredRange(bus: seq<Transaction>): (range: int)
    ensures range == 2 || range == 4 || range == 8 || range == 16
    decreases |bus|
  {
    if bus == [] then RangeOfCode(DEFAULT_RESET_VALUE)
    else if IsRangeWrite(bus[|bus| - 1]) then RangeOfCode(bus[|bus| - 1].written[1])
    else ConfiguredRange(bus[..|bus| - 1])
  }

  /** A new transaction changes the configured range exactly when it is a
      completed DATA_FORMAT write. */
  lemma {:induction false} ConfiguredRangeAppend(bus: seq<Transaction>, t: Transaction)
    ensures ConfiguredRange(bus + [t]) ==
      if IsRangeWrite(t) then RangeOfCode(t.written[1]) else ConfiguredRange(bus)
  {
    assert (bus + [t])[..|bus|] == bus;
  }

  /** The scale factor agrees with the range configured into the device. */
  predicate InSync(s: State)
  {
    s.multiplier == Multiplier(ConfiguredRange(s.bus))
  }

  /** The initial multiplier agrees with the reset range of the device. */
  lemma InitialInSync()
    ensures InSync(INITIAL)
  {
  }

  /** Delivers an event when a listener is set. */
  function Emit(s: State, e: Event): (r: State)
    ensures r.events == if s.hasListener then s.events + [e] else s.events
    ensures r == s.(events := r.events)
  {
    if s.hasListener then s.(events := s.events + [e]) else s
  }

  /** One bus transaction sending `written` in a frame of `totalSize` bytes
      and keeping the last `readSize` bytes clocked in. */
  function Transfer(s: State, written: seq<bv8>, totalSize: nat, readSize: nat): (r: Step)
    ensures r.ok == Next(s.replies).Bytes?
    ensures r.state == s.(bus := s.bus + [Transaction(written, |written|, totalSize, readSize, r.ok)],
                          replies := Rest(s.replies))
    ensures r.ok ==> |r.data| == readSize
  {
    var reply := Next(s.replies);
    var ok := reply.Bytes?;
    var t := Transaction(written, |written|, totalSize, readSize, ok);
    Step(s.(bus := s.bus + [t], replies := Rest(s.replies)), ok, if ok then Fit(reply.data, readSize) else [])
  }

  /** A read of `length` bytes from `register`: a single command byte with
      the read bit (and, for more than one byte, the multi-byte bit), then
      `length` bytes clocked in. */
  function ReadSpec(s: State, register: bv8, length: nat): (r: Step)
    ensures r.state.bus == s.bus + [Transaction([ReadCommand(register, length)], 1, 1 + length, length, r.ok)]
    ensures r.ok <==> Next(s.replies).Bytes?
    ensures r.ok ==> r.data == Fit(Next(s.replies).data, length)
    ensures r.state == s.(bus := r.state.bus, replies := Rest(s.replies))
    ensures InSync(s) ==> InSync(r.state)
  {
    ConfiguredRangeAppend(s.bus, Transaction([ReadCommand(register, length)], 1, 1 + length, length, Next(s.replies).Bytes?));
    Transfer(s, [ReadCommand(register, length)], 1 + length, length)
  }

  /** A write of `values` starting at `register`: the register address (read
      bit clear) followed by the values, all of it written, nothing read. */
  function WriteSpec(s: State, register: bv8, values: seq<bv8>): (r: Step)
    ensures r.state.bus == s.bus + [Transaction([register] + values, 1 + |values|, 1 + |values|, 0, r.ok)]
    ensures r.ok <==> Next(s.replies).Bytes?
    ensures r.state == s.(bus := r.state.bus, replies := Rest(s.replies))
    ensures register != DATA_FORMAT && InSync(s) ==> InSync(r.state)
  {
    ConfiguredRangeAppend(s.bus, Transaction([register] + values, 1 + |values|, 1 + |values|, 0, Next(s.replies).Bytes?));
    Transfer(s, [register] + values, 1 + |values|, 0)
  }

  /** setRange: a supported range is written into DATA_FORMAT and, once the
      write went through, its multiplier is taken; any other value is
      reported to the listener and changes nothing else. */
  function SetRangeSpec(s: State, range: int): (r: Step)
    ensures RangeCode(range).None? ==>
      r.ok && r.state == s.(events := r.state.events) &&
      r.state.events == if s.hasListener then s.events + [Error(UnsupportedRange(range))] else s.events
    ensures RangeCode(range).Some? ==>
      (r.ok <==> Next(s.replies).Bytes?) &&
      r.state.bus == s.bus + [Transaction([DATA_FORMAT, RangeCode(range).value], 2, 2, 0, r.ok)] &&
      RangeOfCode(RangeCode(range).value) == range &&
      r.state.replies == Rest(s.replies) && r.state.events == s.events &&
      r.state.multiplier == (if r.ok then Multiplier(range) else s.multiplier)
    ensures r.state.deviceId == s.deviceId && r.state.hasListener == s.hasListener
    ensures (r.state.x, r.state.y, r.state.z) == (s.x, s.y, s.z)
    ensures InSync(s) ==> InSync(r.state)
  {
    match RangeCode(range)
    case None => Step(Emit(s, Error(UnsupportedRange(range))), true, [])
    case Some(code) =>
      var w := WriteSpec(s, DATA_FORMAT, [code]);
      ConfiguredRangeAppend(s.bus, w.state.bus[|s.bus|]);
      assert [DATA_FORMAT] + [code] == [DATA_FORMAT, code];
      if w.ok then Step(w.state.(multiplier := Multiplier(range)), true, []) else w
  }

  /** The transactions of setupDevice, each as it is when it completes: the
      DEVID read (command 0x80), the DATA_FORMAT write of the +-16 g code and
      the POWER_CTL write of the Measure bit. */
  const SETUP_FRAMES: seq<Transaction> := [
    Transaction([0x80], 1, 2, 1, true),
    Transaction([0x31, 0x03], 2, 2, 0, true),
    Transaction([0x2D, 0x08], 2, 2, 0, true)
  ]

  /** The number of setupDevice transactions that reach the bus: up to and
      including the first one whose connection is lost. */
  function SetupLength(replies: seq<Reply>): (n: nat)
    ensures 1 <= n <= 3
    ensures Delivered(replies, n - 1)
    ensures n < 3 ==> !Delivered(replies, n)
  {
    if !Delivered(replies, 1) then 1 else if !Delivered(replies, 2) then 2 else 3
  }

  /** The byte a reply gives to a one-byte read. */
  function FirstByte(reply: Reply): bv8
    requires reply.Bytes?
  {
    Fit(reply.data, 1)[0]
  }

  /** setupDevice: read DEVID; keep it as the device id only if it is 0xE5,
      else report the mismatch and go on; hand the stored device id to the
      listener; set the +-16 g range; switch POWER_CTL to Measure. A lost
      connection ends the sequence. */
  function SetupDeviceSpec(s: State): (r: Step)
    ensures r.state.hasListener == s.hasListener && (r.state.x, r.state.y, r.state.z) == (s.x, s.y, s.z)
    ensures InSync(s) ==> InSync(r.state)
  {
    var read := ReadSpec(s, DEVID, 1);
    if !read.ok then read
    else
      var s2 := Identify(read.state, read.data[0]);
      var ranged := SetRangeSpec(s2, 16);
      if !ranged.ok then ranged
      else WriteSpec(ranged.state, POWER_CTL, [POWER_CTL_MEASURE])
  }

  /** The part of setupDevice between the DEVID read and the first write:
      the id read is stored only if it is 0xE5, a mismatch is reported, and
      the listener is given the stored id. */
  function Identify(s: State, id: bv8): (r: State)
    ensures r.deviceId == if id == DEVID_RESET_VALUE then id else s.deviceId
    ensures r.events == s.events +
      if !s.hasListener then []
      else if id == DEVID_RESET_VALUE then [DeviceId(id)]
      else [Error(InvalidDeviceId(DEVID_RESET_VALUE, id)), DeviceId(s.deviceId)]
    ensures r == s.(deviceId := r.deviceId, events := r.events)
  {
    var s1 := if id == DEVID_RESET_VALUE then s.(deviceId := id)
              else Emit(s, Error(InvalidDeviceId(DEVID_RESET_VALUE, id)));
    Emit(s1, DeviceId(s1.deviceId))
  }

  /** setupDevice puts its transactions on the bus in the fixed order DEVID
      read, DATA_FORMAT write (+-16 g), POWER_CTL write (Measure), stopping
      after the first one whose connection is lost; a device id other than
      0xE5 does not stop it. */
  lemma SetupBusOrder(s: State)
    ensures var r := SetupDeviceSpec(s); var n := SetupLength(s.replies);
      r.state.bus == s.bus + SETUP_FRAMES[..n - 1] + [SETUP_FRAMES[n - 1].(completed := r.ok)]
  {
    DriverCommandBytes();
    var read := ReadSpec(s, DEVID, 1);
    if read.ok {
      var s2 := Identify(read.state, read.data[0]);
      var ranged := SetRangeSpec(s2, 16);
      assert s2.bus == s.bus + [SETUP_FRAMES[0]] && s2.replies == s.replies[1..];
      if ranged.ok {
        assert s.replies[0].Bytes? && s.replies[1].Bytes?;
        assert Delivered(s.replies, 2);
        assert ranged.state.bus == s.bus + SETUP_FRAMES[..2];
        assert [POWER_CTL] + [POWER_CTL_MEASURE] == [0x2D, 0x08];
      }
    }
  }

  /** setupDevice succeeds exactly when all three transactions go through,
      and consumes one reply per transaction it makes. */
  lemma SetupReplies(s: State)
    ensures var r := SetupDeviceSpec(s); var n := SetupLength(s.replies);
      (r.ok <==> Delivered(s.replies, 3)) &&
      r.state.replies == if n <= |s.replies| then s.replies[n..] else []
  {
    var read := ReadSpec(s, DEVID, 1);
    if read.ok {
      var s2 := Identify(read.state, read.data[0]);
      var ranged := SetRangeSpec(s2, 16);
      assert s2.replies == s.replies[1..];
      if ranged.ok {
        assert ranged.state.replies == s.replies[2..];
        assert Rest(s.replies[2..]) == if 3 <= |s.replies| then s.replies[3..] else [];
      } else {
        assert Rest(s.replies[1..]) == if 2 <= |s.replies| then s.replies[2..] else [];
      }
    }
  }

  /** setupDevice's identity check: the stored device id becomes the id
      read only when that is 0xE5; the listener gets a mismatch error first
      when it is not, and is then handed the stored id, not the id read. */
  lemma SetupIdentity(s: State)
    ensures var r := SetupDeviceSpec(s);
      if Delivered(s.replies, 1) then
        var id := FirstByte(s.replies[0]);
        r.state.deviceId == (if id == DEVID_RESET_VALUE then id else s.deviceId) &&
        r.state.events == s.events +
          if !s.hasListener then []
          else if id == DEVID_RESET_VALUE then [DeviceId(id)]
          else [Error(InvalidDeviceId(DEVID_RESET_VALUE, id)), DeviceId(s.deviceId)]
      else r.state.deviceId == s.deviceId && r.state.events == s.events
  {
    var read := ReadSpec(s, DEVID, 1);
    if read.ok {
      var s2 := Identify(read.state, read.data[0]);
      var ranged := SetRangeSpec(s2, 16);
      assert ranged.state.events == s2.events && ranged.state.deviceId == s2.deviceId;
    }
  }

  /** After setupDevice the multiplier is the +-16 g one exactly when the
      DATA_FORMAT write went through. */
  lemma SetupMultiplier(s: State)
    ensures SetupDeviceSpec(s).state.multiplier ==
      if Delivered(s.replies, 2) then Multiplier(16) else s.multiplier
  {
    var read := ReadSpec(s, DEVID, 1);
    if read.ok {
      var s2 := Identify(read.state, read.data[0]);
      assert s2.replies == s.replies[1..];
    }
  }

  /** The listener's view of one sample: the three axes as the driver
      decodes them from the six bytes DATAX0..DATAZ1. */
  function SampleEvent(raw: seq<bv8>): (e: Event)
    requires |raw| == 6
    ensures e.Data?
    ensures -32768 <= e.x <= 32767 && -32768 <= e.y <= 32767 && -32768 <= e.z <= 32767
    ensures raw[0] < 0x80 ==> e.x == Sext(raw[1]) * 256 + raw[0] as int
    ensures raw[0] >= 0x80 ==> e.x == raw[0] as int - 256
    ensures raw[2] < 0x80 ==> e.y == Sext(raw[3]) * 256 + raw[2] as int
    ensures raw[2] >= 0x80 ==> e.y == raw[2] as int - 256
    ensures raw[4] < 0x80 ==> e.z == Sext(raw[5]) * 256 + raw[4] as int
    ensures raw[4] >= 0x80 ==> e.z == raw[4] as int - 256
  {
    Data(AxisAsWritten(raw[0], raw[1]), AxisAsWritten(raw[2], raw[3]), AxisAsWritten(raw[4], raw[5]))
  }

  /** loop: with no listener nothing happens; with one, a single burst read
      of the six data registers from DATAX0 (command 0xF2, 7 bytes in all)
      whose decoded axes become x, y, z and are handed to the listener. */
  function LoopSpec(s: State): (r: Step)
    ensures !s.hasListener ==> r.ok && r.state == s
    ensures s.hasListener ==>
      (r.ok <==> Next(s.replies).Bytes?) &&
      r.state.bus == s.bus + [Transaction([0xF2], 1, 7, 6, r.ok)] &&
      r.state.replies == Rest(s.replies)
    ensures s.hasListener && r.ok ==>
      var e := SampleEvent(Fit(Next(s.replies).data, 6));
      r.state.events == s.events + [e] && (r.state.x, r.state.y, r.state.z) == (e.x, e.y, e.z)
    ensures !r.ok ==> r.state.events == s.events && (r.state.x, r.state.y, r.state.z) == (s.x, s.y, s.z)
    ensures r.state.hasListener == s.hasListener && r.state.deviceId == s.deviceId
    ensures r.state.multiplier == s.multiplier
    ensures InSync(s) ==> InSync(r.state)
  {
    if !s.hasListener then Step(s, true, [])
    else
      var read := ReadSpec(s, DATAX0, 6);
      DriverCommandBytes();
      if !read.ok then read
      else
        var e := SampleEvent(read.data);
        Step(read.state.(x := e.x, y := e.y, z := e.z, events := read.state.events + [e]), true, read.data)
  }

  /** `n` calls of loop, as the IOIO looper makes them, stopping at the first
      lost connection. */
  function Loops(s: State, n: nat): (r: Step)
    ensures r.state.hasListener == s.hasListener && r.state.deviceId == s.deviceId
    ensures r.state.multiplier == s.multiplier
    ensures InSync(s) ==> InSync(r.state)
    decreases n
  {
    if n == 0 then Step(s, true, [])
    else
      var first := LoopSpec(s);
      if !first.ok then first else Loops(first.state, n - 1)
  }

  /** The Data event a burst-read reply gives. */
  function ReplyEvent(reply: Reply): Event
  {
    SampleEvent(Fit(if reply.Bytes? then reply.data else [], 6))
  }

  /** The Data events of one sample per reply. */
  function SampleEvents(replies: seq<Reply>): (es: seq<Event>)
    ensures |es| == |replies|
    ensures forall i :: 0 <= i < |replies| ==> es[i] == ReplyEvent(replies[i])
  {
    if replies == [] then [] else [ReplyEvent(replies[0])] + SampleEvents(replies[1..])
  }

  /** A completed burst read of the six data registers. */
  const BURST_READ: Transaction := Transaction([0xF2], 1, 7, 6, true)

  /** `n` burst reads of the six data registers, all completed. */
  function BurstReads(n: nat): seq<Transaction>
  {
    seq(n, i => BURST_READ)
  }

  /** The first of `n` loop calls with a listener whose burst read goes
      through, and the calls that follow it. */
  lemma LoopsFirst(s: State, n: nat)
    requires 0 < n && s.hasListener && Delivered(s.replies, 1)
    ensures var r := LoopSpec(s);
      r.ok && r.state.hasListener && r.state.replies == s.replies[1..] &&
      r.state.events == s.events + [ReplyEvent(s.replies[0])] &&
      r.state.bus == s.bus + [BURST_READ] &&
      Loops(s, n) == Loops(r.state, n - 1)
  {
  }

  /** With a listener and a connection that holds, `n` loop calls give one
      Data event per reply, each decoded from its own reply alone: nothing
      carries over from one sample to the next. */
  lemma {:induction false} LoopsSampleEachReply(s: State, n: nat)
    requires s.hasListener && Delivered(s.replies, n)
    ensures var r := Loops(s, n);
      r.ok && r.state.events == s.events + SampleEvents(s.replies[..n]) &&
      r.state.replies == s.replies[n..]
    decreases n
  {
    if n > 0 {
      var first := LoopSpec(s);
      LoopsFirst(s, n);
      LoopsSampleEachReply(first.state, n - 1);
      SampleEventsFirst(s.replies, n);
      Regroup(s.events, first.state.events, ReplyEvent(s.replies[0]), SampleEvents(s.replies[1..][..n - 1]),
              SampleEvents(s.replies[..n]), Loops(s, n).state.events);
    }
  }

  /** (a + [e]) + later == a + ([e] + later), with each part named. */
  lemma Regroup<T>(a: seq<T>, b: seq<T>, e: T, later: seq<T>, whole: seq<T>, total: seq<T>)
    requires total == b + later && b == a + [e] && whole == [e] + later
    ensures total == a + whole
  {
  }

  /** The events of the first `n` replies: those of the first reply, then
      those of the next `n - 1`. */
  lemma SampleEventsFirst(replies: seq<Reply>, n: nat)
    requires 0 < n && Delivered(replies, n)
    ensures SampleEvents(replies[..n]) ==
      [ReplyEvent(replies[0])] + SampleEvents(replies[1..][..n - 1])
    ensures replies[1..][n - 1..] == replies[n..]
  {
    assert replies[..n][1..] == replies[1..][..n - 1];
  }

  /** With a listener and a connection that holds, `n` loop calls make
      exactly `n` burst reads of 7 bytes, one per call. */
  lemma {:induction false} LoopsBurstReads(s: State, n: nat)
    requires s.hasListener && Delivered(s.replies, n)
    ensures Loops(s, n).state.bus == s.bus + BurstReads(n)
    decreases n
  {
    if n > 0 {
      var first := LoopSpec(s);
      LoopsFirst(s, n);
      LoopsBurstReads(first.state, n - 1);
      BurstReadsFirst(n);
      Regroup(s.bus, first.state.bus, BURST_READ, BurstReads(n - 1), BurstReads(n), Loops(s, n).state.bus);
    }
  }

  lemma BurstReadsFirst(n: nat)
    requires n > 0
    ensures BurstReads(n) == [BURST_READ] + BurstReads(n - 1)
  {
  }
}
