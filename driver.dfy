/** The ADXL345 SPI driver: a fixed 10-byte write buffer and read buffer
    reused by every transaction, the fields the driver keeps, and the
    operations that update them in place. Each operation is proved to change
    the driver's state as the matching function of module DriverSpec says. */
module Driver {
  import opened Registers
  import opened Codec
  import opened Bus
  import opened DriverSpec

  class Adxl345 {
    const writeBuffer: array<bv8>
    const readBuffer: array<bv8>
    /** The SPI channel; bound by Setup. */
    var spi: Spi?
    var hasListener: bool
    var deviceId: bv8
    var multiplier: real
    var x: int
    var y: int
    var z: int
    /** Every transaction the driver has put on the bus, across channels. */
    ghost var bus: seq<Transaction>
    /** Every call the driver has made on its listener. */
    ghost var events: seq<Event>

    ghost predicate Buffers()
      reads this
    {
      writeBuffer.Length == WRITE_BUFFER_SIZE && readBuffer.Length == READ_BUFFER_SIZE &&
      writeBuffer != readBuffer
    }

    ghost function State(): State
      reads this, spi
    {
      DriverSpec.State(hasListener, deviceId, multiplier, x, y, z, bus, events,
            if spi == null then [] else spi.replies)
    }

    /** The driver's invariant: the buffers have their sizes and the
        multiplier agrees with the range configured into the device. */
    ghost predicate Valid()
      reads this, spi
    {
      Buffers() && InSync(State())
    }

    /** A driver with no channel and no listener, set for the +-2 g range,
        with both buffers zeroed. The SPI pins and clock rate are not part of
        this model. */
    constructor ()
      ensures Valid() && fresh(writeBuffer) && fresh(readBuffer)
      ensures spi == null && State() == INITIAL
      ensures writeBuffer[..] == seq(WRITE_BUFFER_SIZE, _ => 0)
      ensures readBuffer[..] == seq(READ_BUFFER_SIZE, _ => 0)
    {
      writeBuffer := new bv8[WRITE_BUFFER_SIZE](_ => 0);
      readBuffer := new bv8[READ_BUFFER_SIZE](_ => 0);
      spi := null;
      hasListener := false;
      deviceId := 0;
      multiplier := DEFAULT_MULTIPLIER;
      x, y, z := 0, 0, 0;
      bus, events := [], [];
    }

    method SetListener(present: bool)
      requires Valid()
      modifies this`hasListener
      ensures Valid() && State() == old(State()).(hasListener := present)
    {
      hasListener := present;
    }

    /** The factor that converts a raw count to g: the one of the range last
        configured over the bus, as long as no operation was interrupted
        between its DATA_FORMAT write and its multiplier update. */
    method GetMultiplier() returns (m: real)
      requires Valid()
      ensures m == Multiplier(ConfiguredRange(bus))
    {
      m := multiplier;
    }

    /** Sends the first `length` bytes of the write buffer, reading nothing. */
    method Flush(length: nat) returns (ok: bool)
      requires Buffers() && spi != null && length <= writeBuffer.Length
      modifies this`bus, spi, readBuffer
      ensures var r := Transfer(old(State()), writeBuffer[..length], length, 0);
        State() == r.state && ok == r.ok
      ensures readBuffer[..] == old(readBuffer[..])
    {
      ok := spi.WriteRead(writeBuffer, length, length, readBuffer, 0);
      bus := bus + [Transaction(writeBuffer[..length], length, length, 0, ok)];
    }

    /** Writes `value` into `register`. */
    method Write(register: bv8, value: bv8) returns (ok: bool)
      requires Buffers() && spi != null
      modifies this`bus, spi, writeBuffer, readBuffer
      ensures var r := WriteSpec(old(State()), register, [value]);
        State() == r.state && ok == r.ok
      ensures writeBuffer[..2] == [register, value] && writeBuffer[2..] == old(writeBuffer[2..])
      ensures readBuffer[..] == old(readBuffer[..])
    {
      writeBuffer[0] := register;
      writeBuffer[1] := value;
      assert writeBuffer[..2] == [register] + [value];
      ok := Flush(2);
    }

    /** Writes `values` into the registers from `register` on: the register
        and the values are copied into the write buffer, which must hold
        them all. */
    method WriteValues(register: bv8, values: seq<bv8>) returns (ok: bool)
      requires Buffers() && spi != null && |values| <= WRITE_BUFFER_SIZE - 1
      modifies this`bus, spi, writeBuffer, readBuffer
      ensures var r := WriteSpec(old(State()), register, values);
        State() == r.state && ok == r.ok
      ensures writeBuffer[..1 + |values|] == [register] + values
      ensures writeBuffer[1 + |values|..] == old(writeBuffer[1 + |values|..])
      ensures readBuffer[..] == old(readBuffer[..])
    {
      writeBuffer[0] := register;
      var i := 0;
      while i < |values|
        modifies writeBuffer
        invariant 0 <= i <= |values|
        invariant writeBuffer[..1 + i] == [register] + values[..i]
        invariant writeBuffer[1 + |values|..] == old(writeBuffer[1 + |values|..])
      {
        writeBuffer[1 + i] := values[i];
        i := i + 1;
      }
      assert values[..i] == values;
      ok := Flush(1 + |values|);
    }

    /** Reads `length` bytes from `register` into the read buffer: one
        command byte is sent from the write buffer. */
    method Read(register: bv8, length: nat) returns (ok: bool)
      requires Buffers() && spi != null && length <= readBuffer.Length
      modifies this`bus, spi, writeBuffer, readBuffer
      ensures var r := ReadSpec(old(State()), register, length);
        State() == r.state && ok == r.ok && (ok ==> readBuffer[..length] == r.data)
      ensures writeBuffer[0] == ReadCommand(register, length) && writeBuffer[1..] == old(writeBuffer[1..])
      ensures ok ==> readBuffer[length..] == old(readBuffer[length..])
      ensures !ok ==> readBuffer[..] == old(readBuffer[..])
    {
      var tx := register | SPI_READ;
      if length > 1 {
        tx := tx | MULTI_BYTE;
      }
      writeBuffer[0] := tx;
      assert tx == ReadCommand(register, length);
      assert writeBuffer[..1] == [tx];
      ok := spi.WriteRead(writeBuffer, 1, 1 + length, readBuffer, length);
      bus := bus + [Transaction(writeBuffer[..1], 1, 1 + length, length, ok)];
    }

    /** Hands an error to the listener, if there is one. */
    method OnError(reason: ErrorReason)
      modifies this`events
      ensures State() == Emit(old(State()), Error(reason))
    {
      if hasListener {
        events := events + [Error(reason)];
      }
    }

    /** Sets the g-range: 2, 4, 8 or 16 is written into DATA_FORMAT and then
        taken for the multiplier; any other value is reported as an error. */
    method SetRange(range: int) returns (ok: bool)
      requires Valid() && (spi != null || RangeCode(range).None?)
      modifies this, spi, writeBuffer, readBuffer
      ensures Valid() && spi == old(spi)
      ensures var r := SetRangeSpec(old(State()), range);
        State() == r.state && ok == r.ok
    {
      var value: bv8;
      if range == 2 {
        value := RANGE_2G;
      } else if range == 4 {
        value := RANGE_4G;
      } else if range == 8 {
        value := RANGE_8G;
      } else if range == 16 {
        value := RANGE_16G;
      } else {
        OnError(UnsupportedRange(range));
        return true;
      }
      ok := Write(DATA_FORMAT, value);
      if !ok {
        return;
      }
      multiplier := range as real * 2.0 / 1024.0;
    }

    /** Reads the DEVID register. */
    method GetDeviceId() returns (ok: bool, id: bv8)
      requires Valid() && spi != null
      modifies this`bus, spi, writeBuffer, readBuffer
      ensures Valid()
      ensures var r := ReadSpec(old(State()), DEVID, 1);
        State() == r.state && ok == r.ok && (ok ==> id == r.data[0])
      ensures ok ==> id == readBuffer[0]
    {
      ok := Read(DEVID, 1);
      id := readBuffer[0];
    }

    /** Checks the device id, then sets the +-16 g range and measurement
        mode. */
    method SetupDevice() returns (ok: bool)
      requires Valid() && spi != null
      modifies this, spi, writeBuffer, readBuffer
      ensures Valid() && spi == old(spi)
      ensures var r := SetupDeviceSpec(old(State()));
        State() == r.state && ok == r.ok
    {
      ghost var read := ReadSpec(State(), DEVID, 1);
      var id;
      ok, id := GetDeviceId();
      if !ok {
        return;
      }
      ghost var identified := Identify(read.state, read.data[0]);
      if id == DEVID_RESET_VALUE {
        deviceId := id;
      } else {
        OnError(InvalidDeviceId(DEVID_RESET_VALUE, id));
      }
      if hasListener {
        events := events + [DeviceId(deviceId)];
      }
      assert State() == identified;
      ghost var ranged := SetRangeSpec(identified, 16);
      ok := SetRange(16);
      if !ok {
        return;
      }
      assert State() == ranged.state;
      ok := Write(POWER_CTL, POWER_CTL_MEASURE);
    }

    /** Binds the driver to an opened SPI channel and sets the device up. */
    method Setup(channel: Spi) returns (ok: bool)
      requires Valid()
      modifies this, channel, writeBuffer, readBuffer
      ensures Valid() && spi == channel
      ensures var r := SetupDeviceSpec(old(State()).(replies := old(channel.replies)));
        State() == r.state && ok == r.ok
    {
      spi := channel;
      ok := SetupDevice();
    }

    /** One sampling step: with a listener, a burst read of the six data
        registers, decoded into x, y and z and handed to the listener. */
    method Loop() returns (ok: bool)
      requires Valid() && (spi != null || !hasListener)
      modifies this`bus, this`events, this`x, this`y, this`z, spi, writeBuffer, readBuffer
      ensures Valid()
      ensures var r := LoopSpec(old(State()));
        State() == r.state && ok == r.ok
    {
      ok := true;
      if hasListener {
        ghost var read := ReadSpec(State(), DATAX0, 6);
        ok := Read(DATAX0, 6);
        if !ok {
          return;
        }
        ghost var e := SampleEvent(read.data);
        assert readBuffer[..6] == read.data;
        x := AxisAsWritten(readBuffer[0], readBuffer[1]);
        y := AxisAsWritten(readBuffer[2], readBuffer[3]);
        z := AxisAsWritten(readBuffer[4], readBuffer[5]);
        assert Data(x, y, z) == e;
        events := events + [Data(x, y, z)];
        assert State() == read.state.(x := e.x, y := e.y, z := e.z, events := read.state.events + [e]);
      }
    }
  }
}
