/**
 * The serial transport of MacroPadApp/logic/SerialManager.py.
 *
 * pyserial is replaced by an abstract port: an object with an `isOpen` flag, the
 * lines waiting in its input buffer, the data written to it, and two oracles that
 * say whether its I/O or its `close` raises `SerialException`. The system's list of
 * serial ports is a sequence of `Endpoint` records, each saying whether opening it
 * succeeds and what noise it had buffered before the open.
 */
module Serial {
  import opened Wrappers
  import opened Text

  /** One entry of the port enumeration, with the outcome of trying to open it. */
  datatype Endpoint = Endpoint(device: string, opens: bool, buffered: seq<string>)

  /** An open pyserial handle. */
  class Port {
    const device: string
    var isOpen: bool
    var waiting: seq<string>      // raw lines in the input buffer, oldest first
    var written: seq<seq<byte>>   // every `write` the handle accepted, in order
    var ioFails: bool             // `readline` and `write` raise SerialException
    var closeFails: bool          // `close` raises SerialException

    /** `serial.Serial(port, ...)` for an endpoint that opens. */
    constructor Open(device: string, buffered: seq<string>)
      ensures this.device == device && isOpen && waiting == buffered
      ensures written == [] && !ioFails && !closeFails
    {
      this.device := device;
      isOpen := true;
      waiting := buffered;
      written := [];
      ioFails := false;
      closeFails := false;
    }

    /** `flushInput()`: discards whatever is buffered. */
    method FlushInput()
      modifies this
      ensures waiting == [] && isOpen == old(isOpen) && written == old(written)
      ensures ioFails == old(ioFails) && closeFails == old(closeFails)
    {
      waiting := [];
    }

    /** The device sends one line (environment step, not part of the program). */
    method Arrive(line: string)
      modifies this
      ensures waiting == old(waiting) + [line] && isOpen == old(isOpen) && written == old(written)
      ensures ioFails == old(ioFails) && closeFails == old(closeFails)
    {
      waiting := waiting + [line];
    }

    /** The link breaks, so later reads and writes raise (environment step). */
    method Break()
      modifies this
      ensures ioFails && waiting == old(waiting) && isOpen == old(isOpen) && written == old(written)
      ensures closeFails == old(closeFails)
    {
      ioFails := true;
    }

    /** `readline()`: the oldest buffered line, `raised` when the handle's I/O fails. */
    method ReadLine() returns (raised: bool, line: string)
      modifies this
      ensures raised == old(ioFails)
      ensures raised ==> waiting == old(waiting) && line == []
      ensures !raised && old(waiting) != [] ==> line == old(waiting)[0] && waiting == old(waiting)[1..]
      ensures !raised && old(waiting) == [] ==> line == [] && waiting == []
      ensures isOpen == old(isOpen) && written == old(written)
      ensures ioFails == old(ioFails) && closeFails == old(closeFails)
    {
      raised := ioFails;
      line := [];
      if !raised && waiting != [] {
        line := waiting[0];
        waiting := waiting[1..];
      }
    }

    /** `write(data)`: appends `data` to what the device received, unless the I/O fails. */
    method Write(data: seq<byte>) returns (raised: bool)
      modifies this
      ensures raised == old(ioFails)
      ensures written == if raised then old(written) else old(written) + [data]
      ensures isOpen == old(isOpen) && waiting == old(waiting)
      ensures ioFails == old(ioFails) && closeFails == old(closeFails)
    {
      raised := ioFails;
      if !raised {
        written := written + [data];
      }
    }

    /** `close()`: the handle is no longer open, unless closing raises. */
    method Close() returns (raised: bool)
      modifies this
      ensures raised == old(closeFails)
      ensures isOpen == (old(isOpen) && raised)
      ensures waiting == old(waiting) && written == old(written)
      ensures ioFails == old(ioFails) && closeFails == old(closeFails)
    {
      raised := closeFails;
      if !raised {
        isOpen := false;
      }
    }
  }

  /** The index of the first endpoint that opens, scanning in list order. */
  function FirstOpening(ports: seq<Endpoint>): (r: Option<nat>)
    ensures r.Some? ==> r.value < |ports| && ports[r.value].opens
    ensures r.Some? ==> forall j :: 0 <= j < r.value ==> !ports[j].opens
    ensures r.None? ==> forall j :: 0 <= j < |ports| ==> !ports[j].opens
  {
    if ports == [] then None
    else if ports[0].opens then Some(0)
    else match FirstOpening(ports[1..])
      case None => None
      case Some(i) => Some(i + 1)
  }

  /** Owner of the serial connection: the handle, its port name and the connected flag. */
  class SerialManager {
    const baudrate: int
    var ser: Port?
    var serialPort: Option<string>
    var connected: bool

    constructor ()
      ensures baudrate == 9600 && ser == null && serialPort == None && !connected
      ensures !IsConnected() && GetPort() == None
    {
      baudrate := 9600;
      ser := null;
      serialPort := None;
      connected := false;
    }

    /** A handle is held, it reports itself open, and the connected flag is set. */
    predicate IsConnected()
      reads this, ser
    {
      ser != null && ser.isOpen && connected
    }

    function GetPort(): Option<string>
      reads this
    {
      serialPort
    }

    /** What `readLine` yields from this state: the oldest waiting line, stripped, when
        connected with input waiting and the read does not raise; None otherwise. */
    function NextLine(): Option<string>
      reads this, ser
    {
      if IsConnected() && ser.waiting != [] && !ser.ioFails then Some(Strip(ser.waiting[0])) else None
    }

    /** Tries the endpoints in order and keeps the first that opens, its buffered noise flushed.
        When none opens (or there are none) nothing changes. */
    method AutoConnect(ports: seq<Endpoint>) returns (ok: bool)
      modifies this
      ensures ok <==> FirstOpening(ports).Some?
      ensures ok ==> var i := FirstOpening(ports).value;
        && ser != null && fresh(ser)
        && ser.device == ports[i].device && ser.isOpen && ser.waiting == [] && ser.written == []
        && !ser.ioFails && !ser.closeFails
        && serialPort == Some(ports[i].device) && connected
        && IsConnected() && GetPort() == Some(ports[i].device)
      ensures !ok ==> ser == old(ser) && serialPort == old(serialPort) && connected == old(connected)
    {
      var i := 0;
      while i < |ports|
        invariant 0 <= i <= |ports|
        invariant forall j :: 0 <= j < i ==> !ports[j].opens
        invariant ser == old(ser) && serialPort == old(serialPort) && connected == old(connected)
      {
        if ports[i].opens {
          var handle := new Port.Open(ports[i].device, ports[i].buffered);
          handle.FlushInput();
          ser := handle;
          serialPort := Some(ports[i].device);
          connected := true;
          return true;
        }
        i := i + 1;
      }
      return false;
    }

    /** `write(data)`, with a failing write closing the connection. */
    method Write(data: seq<byte>)
      modifies this, ser
      ensures !old(IsConnected()) ==> ser == old(ser) && serialPort == old(serialPort) && connected == old(connected)
      ensures !old(IsConnected()) && ser != null ==> unchanged(ser)
      ensures old(IsConnected()) && !old(ser.ioFails) ==>
        ser == old(ser) && serialPort == old(serialPort) && connected
        && ser.written == old(ser.written) + [data] && ser.isOpen && ser.waiting == old(ser.waiting)
      ensures old(IsConnected()) && old(ser.ioFails) ==> ClosedAfter(old(ser), old(serialPort))
    {
      if IsConnected() {
        var raised := ser.Write(data);
        if raised {
          Close();
        }
      }
    }

    /** The `write` of the source: a failing write calls the undefined `self.disconnect()`,
        so `crashed` reports the AttributeError escaping to the caller, and the
        connection is left as it was. */
    method WriteAsWritten(data: seq<byte>) returns (crashed: bool)
      modifies ser
      ensures crashed <==> old(IsConnected()) && old(ser.ioFails)
      ensures ser == old(ser) && serialPort == old(serialPort) && connected == old(connected)
      ensures ser != null && !crashed && old(IsConnected()) ==> ser.written == old(ser.written) + [data]
      ensures ser != null && (crashed || !old(IsConnected())) ==> ser.written == old(ser.written)
      ensures ser != null ==> ser.isOpen == old(ser.isOpen) && ser.waiting == old(ser.waiting)
    {
      crashed := false;
      if IsConnected() {
        var raised := ser.Write(data);
        crashed := raised;
      }
    }

    /** `readLine()`: None unless connected with input waiting; otherwise the oldest line,
        stripped. A failing read closes the connection and yields None. */
    method ReadLine() returns (line: Option<string>)
      modifies this, ser
      ensures line == old(NextLine())
      ensures !old(IsConnected()) || old(ser.waiting) == [] ==>
        line == None && ser == old(ser) && serialPort == old(serialPort) && connected == old(connected)
        && (ser != null ==> unchanged(ser))
      ensures old(IsConnected()) && old(ser.waiting) != [] && !old(ser.ioFails) ==>
        line == Some(Strip(old(ser.waiting)[0]))
        && ser == old(ser) && serialPort == old(serialPort) && connected
        && ser.waiting == old(ser.waiting)[1..] && ser.isOpen && ser.written == old(ser.written)
      ensures old(IsConnected()) && old(ser.waiting) != [] && old(ser.ioFails) ==>
        line == None && ClosedAfter(old(ser), old(serialPort))
    {
      line := None;
      if IsConnected() && ser.waiting != [] {
        var raised, raw := ser.ReadLine();
        if raised {
          Close();
        } else {
          line := Some(Strip(raw));
        }
      }
    }

    /** The `readLine` of the source: a failing read calls the undefined `self.disconnect()`,
        so `crashed` reports the AttributeError escaping to the listener, and the
        connection is left as it was. */
    method ReadLineAsWritten() returns (line: Option<string>, crashed: bool)
      modifies ser
      ensures crashed <==> old(IsConnected()) && old(ser.waiting) != [] && old(ser.ioFails)
      ensures ser == old(ser) && serialPort == old(serialPort) && connected == old(connected)
      ensures !crashed && old(IsConnected()) && old(ser.waiting) != [] ==>
        line == Some(Strip(old(ser.waiting)[0])) && ser.waiting == old(ser.waiting)[1..]
      ensures crashed || !old(IsConnected()) || old(ser.waiting) == [] ==>
        line == None && (ser != null ==> ser.waiting == old(ser.waiting))
      ensures ser != null ==> ser.isOpen == old(ser.isOpen) && ser.written == old(ser.written)
    {
      line, crashed := None, false;
      if IsConnected() && ser.waiting != [] {
        var raised, raw := ser.ReadLine();
        if raised {
          crashed := true;
        } else {
          line := Some(Strip(raw));
        }
      }
    }

    /** After `close()` on a handle `h` that held port `port`: either the handle closed and all
        three fields are cleared, or closing raised and all three are as they were. */
    ghost predicate ClosedAfter(h: Port, port: Option<string>)
      reads this, h
    {
      if h.closeFails then ser == h && serialPort == port && connected
      else ser == null && serialPort == None && !connected && !h.isOpen
    }

    /** `close()`: a no-op without a handle; otherwise closes the handle and clears the
        handle, the port and the connected flag, unless closing raises. */
    method Close()
      modifies this, ser
      ensures old(ser) == null ==> ser == null && serialPort == old(serialPort) && connected == old(connected)
      ensures old(ser) != null && !old(ser.closeFails) ==>
        ser == null && serialPort == None && !connected && !old(ser).isOpen
      ensures old(ser) != null && old(ser.closeFails) ==>
        ser == old(ser) && serialPort == old(serialPort) && connected == old(connected)
      ensures old(ser) != null ==> old(ser).waiting == old(ser.waiting) && old(ser).written == old(ser.written)
      ensures old(ser) != null ==> old(ser).ioFails == old(ser.ioFails) && old(ser).closeFails == old(ser.closeFails)
      ensures old(ser) != null && old(ser.closeFails) ==> old(ser).isOpen == old(ser.isOpen)
      ensures old(ser) == null || !old(ser.closeFails) ==> !IsConnected() && (old(ser) != null ==> GetPort() == None)
    {
      if ser != null {
        var raised := ser.Close();
        if !raised {
          ser := null;
          serialPort := None;
          connected := false;
        }
      }
    }
  }
}
