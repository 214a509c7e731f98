/**
 * The MIDI client's device connection and its lifecycle: `Midi.openPort`,
 * `Midi.close`, the `Midi` constructor, and the settings hooks
 * `script_update` / `script_unload` that keep a single client instance.
 *
 * Device calls are returned as `PortCall` values in the order they are made;
 * whether opening a port succeeds is an input.
 */
module MidiConnection {
  import opened Wrappers
  import opened MidiHandlers

  /** The `midiin` attribute: `None`, or a MIDI input object. `close_port`
      closes the object but `openPort` keeps the closed object in `midiin`. */
  datatype Handle = NoHandle | PortHandle(isOpen: bool)

  /** The connection part of a `Midi` instance. */
  datatype Connection = Connection(currentMidiPort: string, midiin: Handle)

  /** A call into the MIDI device library; an open records whether it succeeded. */
  datatype PortCall = CallClosePort | CallOpenInput(name: string, ok: bool)

  /** A new connection state and the device calls that produced it. */
  datatype ConnStep = ConnStep(conn: Connection, calls: seq<PortCall>)

  /** The state of a freshly constructed `Midi` before it opens anything. */
  const Disconnected := Connection("", NoHandle)

  predicate Connected(c: Connection) {
    c.midiin == PortHandle(true)
  }

  /** The port name is recorded exactly when a port is open. Every state
      reachable by construction and `openPort` satisfies this. */
  predicate Consistent(c: Connection) {
    c.currentMidiPort != "" <==> Connected(c)
  }

  /** No device call closes a port after one opens a port. */
  predicate ClosesBeforeOpens(calls: seq<PortCall>) {
    forall i, j :: 0 <= i < j < |calls| && calls[i].CallOpenInput? ==> !calls[j].CallClosePort?
  }

  /** `Midi.openPort(askedPort)`; `openOk` says whether `open_midiinput` succeeds. */
  function OpenPort(c: Connection, askedPort: string, openOk: bool): (r: ConnStep)
    // asking for the current name changes nothing and calls nothing
    ensures askedPort == c.currentMidiPort ==> r == ConnStep(c, [])
    // a different name closes an existing handle first, and resets the name
    ensures askedPort != c.currentMidiPort && c.midiin.PortHandle? ==>
              |r.calls| >= 1 && r.calls[0] == CallClosePort
              && (askedPort == "" || !openOk ==> r.conn.currentMidiPort == "")
    // without a handle nothing is closed, and an empty name or a failed open changes nothing
    ensures c.midiin.NoHandle? ==> forall k :: 0 <= k < |r.calls| ==> !r.calls[k].CallClosePort?
    ensures askedPort != c.currentMidiPort && c.midiin.NoHandle? && (askedPort == "" || !openOk) ==>
              r.conn == c
    // with a handle, an empty name or a failed open keeps the closed object and no name
    ensures askedPort != c.currentMidiPort && c.midiin.PortHandle? && (askedPort == "" || !openOk) ==>
              r.conn == Connection("", PortHandle(false))
    // an open is attempted exactly for a different, non-empty name, as the last call
    ensures askedPort != c.currentMidiPort && askedPort != "" ==>
              |r.calls| >= 1 && r.calls[|r.calls| - 1] == CallOpenInput(askedPort, openOk)
    // so a different name makes at most one close and at most one open
    ensures askedPort != c.currentMidiPort ==>
              |r.calls| == (if c.midiin.PortHandle? then 1 else 0) + (if askedPort != "" then 1 else 0)
    // a failed open never leaves a connection
    ensures askedPort != c.currentMidiPort && !openOk ==> !Connected(r.conn)
    ensures askedPort == "" ==> forall k :: 0 <= k < |r.calls| ==> r.calls[k] == CallClosePort
    ensures ClosesBeforeOpens(r.calls)
    // a successful open records the asked name
    ensures askedPort != c.currentMidiPort && askedPort != "" && openOk ==>
              r.conn == Connection(askedPort, PortHandle(true))
    // from a consistent state, an empty name or a failed open leaves no connection
    ensures Consistent(c) && askedPort != c.currentMidiPort && (askedPort == "" || !openOk) ==>
              r.conn.currentMidiPort == "" && !Connected(r.conn)
    ensures Consistent(c) && askedPort == "" ==> !Connected(r.conn)
    ensures Consistent(c) ==> Consistent(r.conn)
  {
    if c.currentMidiPort == askedPort then ConnStep(c, [])
    else
      var closed :=
        if c.midiin.PortHandle? then ConnStep(Connection("", PortHandle(false)), [CallClosePort])
        else ConnStep(c, []);
      if askedPort == "" then closed
      else if openOk then ConnStep(Connection(askedPort, PortHandle(true)), closed.calls + [CallOpenInput(askedPort, true)])
      else ConnStep(closed.conn, closed.calls + [CallOpenInput(askedPort, false)])
  }

  /** `Midi.close`: closes and drops the handle, if any. The port name is left
      as it was. */
  function Close(c: Connection): (r: ConnStep)
    ensures r.conn.midiin == NoHandle && !Connected(r.conn)
    ensures r.conn.currentMidiPort == c.currentMidiPort
    ensures r.calls == [CallClosePort] <==> c.midiin.PortHandle?
    ensures r.calls == [] <==> c.midiin.NoHandle?
  {
    if c.midiin.NoHandle? then ConnStep(c, [])
    else ConnStep(c.(midiin := NoHandle), [CallClosePort])
  }

  /** A second `close` does nothing. */
  lemma CloseIdempotent(c: Connection)
    ensures Close(Close(c).conn) == ConnStep(Close(c).conn, [])
  {
  }

  /** `close` keeps the port name, so asking a closed instance for the same
      port again is taken as "already open" and stays disconnected. The
      settings hook never does this: it discards the instance after closing. */
  lemma ReopenAfterCloseStaysClosed(c: Connection, openOk: bool)
    ensures var closed := Close(c).conn;
            OpenPort(closed, c.currentMidiPort, openOk) == ConnStep(closed, [])
            && !Connected(closed)
  {
  }

  /** A run of `openPort` requests from a consistent state stays consistent,
      and the last request decides the port name. */
  function OpenPorts(c: Connection, asked: seq<string>, outcomes: seq<bool>): (r: ConnStep)
    requires |asked| == |outcomes|
    decreases |asked|
  {
    if asked == [] then ConnStep(c, [])
    else
      var first := OpenPort(c, asked[0], outcomes[0]);
      var rest := OpenPorts(first.conn, asked[1..], outcomes[1..]);
      ConnStep(rest.conn, first.calls + rest.calls)
  }

  lemma {:induction false} OpenPortsConsistent(c: Connection, asked: seq<string>, outcomes: seq<bool>)
    requires |asked| == |outcomes|
    requires Consistent(c)
    ensures Consistent(OpenPorts(c, asked, outcomes).conn)
    ensures |asked| > 0 ==>
              var last := OpenPorts(c, asked, outcomes).conn.currentMidiPort;
              last == asked[|asked| - 1] || last == ""
    decreases |asked|
  {
    if asked != [] {
      var first := OpenPort(c, asked[0], outcomes[0]);
      OpenPortsConsistent(first.conn, asked[1..], outcomes[1..]);
    }
  }

  // ---------------------------------------------------------------------------
  // The client instance and the settings hooks
  // ---------------------------------------------------------------------------

  /** A `Midi` instance: its connection, the logging switch and its handlers. */
  datatype MidiInstance = MidiInstance(conn: Connection, logMidiInput: bool, handlers: seq<Handler>)

  /** The settings read by the client's `script_update`. */
  datatype MidiSettings = MidiSettings(
    midiDevice: string,
    logMidiInput: bool,
    transitionType: string,
    transitionAddress: int,
    transitionTime: int,
    recordingType: string,
    startAddress: int,
    endAddress: int,
    pauseAddress: int,
    unpauseAddress: int)

  /** The handler list `script_update` builds: the transition handler first,
      then the recording handler. */
  function BuildHandlers(s: MidiSettings): (r: seq<Handler>)
    ensures |r| == 2 && r[0].TransitionHandler? && r[1].RecordingHandler?
    ensures r[0].cmdType == s.transitionType && r[0].transitionFirst == s.transitionAddress
            && r[0].duration == s.transitionTime
    ensures r[1].cmdType == s.recordingType && r[1].startChannel == s.startAddress
            && r[1].endChannel == s.endAddress && r[1].pauseChannel == s.pauseAddress
            && r[1].unpauseChannel == s.unpauseAddress
  {
    [ TransitionHandler(s.transitionType, s.transitionAddress, s.transitionTime),
      RecordingHandler(s.recordingType, s.startAddress, s.endAddress, s.pauseAddress, s.unpauseAddress) ]
  }

  // ---------------------------------------------------------------------------
  // Open inputs along a trace of device calls
  // ---------------------------------------------------------------------------

  /** The number of open MIDI inputs after one device call: a successful open
      adds one; a close shuts the instance's input when one is open. */
  function CallEffect(call: PortCall, live: nat): nat {
    match call
    case CallClosePort => if live > 0 then live - 1 else 0
    case CallOpenInput(_, ok) => if ok then live + 1 else live
  }

  /** The number of open MIDI inputs after `calls`, starting with `live`. */
  function LiveAfter(calls: seq<PortCall>, live: nat): nat
    decreases |calls|
  {
    if calls == [] then live else LiveAfter(calls[1..], CallEffect(calls[0], live))
  }

  function Max(a: nat, b: nat): nat {
    if a >= b then a else b
  }

  /** The most MIDI inputs open at once while `calls` are carried out,
      starting with `live`. */
  function PeakLive(calls: seq<PortCall>, live: nat): (r: nat)
    ensures r >= live
    decreases |calls|
  {
    if calls == [] then live else Max(live, PeakLive(calls[1..], CallEffect(calls[0], live)))
  }

  /** A single call moves the count by its own effect. */
  lemma LiveOne(call: PortCall, live: nat)
    ensures LiveAfter([call], live) == CallEffect(call, live)
    ensures PeakLive([call], live) == Max(live, CallEffect(call, live))
  {
  }

  /** Carrying out `a` then `b` is carrying out `b` from where `a` left off. */
  lemma {:induction false} LiveAppend(a: seq<PortCall>, b: seq<PortCall>, live: nat)
    ensures LiveAfter(a + b, live) == LiveAfter(b, LiveAfter(a, live))
    ensures PeakLive(a + b, live) == Max(PeakLive(a, live), PeakLive(b, LiveAfter(a, live)))
    decreases |a|
  {
    if a == [] {
      assert a + b == b;
    } else {
      assert (a + b)[0] == a[0] && (a + b)[1..] == a[1..] + b;
      LiveAppend(a[1..], b, CallEffect(a[0], live));
    }
  }

  /** The result of a settings hook: the client instance (at most one) and the
      device calls made, in order. */
  datatype Lifecycle = Lifecycle(instance: Option<MidiInstance>, calls: seq<PortCall>)

  /** `Midi(port, logMidiInput, handlers)`: starts disconnected, then opens
      the port. */
  function NewMidi(port: string, logMidiInput: bool, handlers: seq<Handler>, openOk: bool): (r: MidiInstance)
    ensures Consistent(r.conn)
    ensures Connected(r.conn) <==> port != "" && openOk
    ensures Connected(r.conn) ==> r.conn.currentMidiPort == port
    // an instance that did not connect holds no handle, so nothing is closed later
    ensures !Connected(r.conn) ==> r.conn == Disconnected
    ensures r.handlers == handlers && r.logMidiInput == logMidiInput
  {
    MidiInstance(OpenPort(Disconnected, port, openOk).conn, logMidiInput, handlers)
  }

  /** The device calls the constructor makes. */
  function NewMidiCalls(port: string, openOk: bool): (r: seq<PortCall>)
    ensures r == (if port == "" then [] else [CallOpenInput(port, openOk)])
  {
    OpenPort(Disconnected, port, openOk).calls
  }

  /** `script_update`: close and drop any previous instance, then build the
      new one. The old port is closed before the new one is opened. */
  function ScriptUpdate(current: Option<MidiInstance>, s: MidiSettings, openOk: bool): (r: Lifecycle)
    ensures r.instance.Some?
    ensures r.instance.value.handlers == BuildHandlers(s)
    ensures r.instance.value.logMidiInput == s.logMidiInput
    ensures Consistent(r.instance.value.conn)
    ensures Connected(r.instance.value.conn) <==> s.midiDevice != "" && openOk
    ensures Connected(r.instance.value.conn) ==> r.instance.value.conn.currentMidiPort == s.midiDevice
    ensures current.Some? && current.value.conn.midiin.PortHandle? ==>
              |r.calls| >= 1 && r.calls[0] == CallClosePort
    ensures ClosesBeforeOpens(r.calls)
    ensures forall k :: 0 <= k < |r.calls| && r.calls[k].CallOpenInput? ==>
              k == |r.calls| - 1 && r.calls[k].name == s.midiDevice
    // one close exactly for an old handle, one open exactly for a non-empty device
    ensures |r.calls| == (if current.Some? && current.value.conn.midiin.PortHandle? then 1 else 0)
                         + (if s.midiDevice != "" then 1 else 0)
    // at most one MIDI input is open at any point, and afterwards only the new instance's
    ensures PeakLive(r.calls, LiveOf(current)) <= 1
    ensures LiveAfter(r.calls, LiveOf(current)) == LiveOf(r.instance)
  {
    var teardown := if current.Some? then Close(current.value.conn).calls else [];
    var construct := NewMidiCalls(s.midiDevice, openOk);
    var hadHandle := current.Some? && current.value.conn.midiin.PortHandle?;
    CloseThenOpenCalls(teardown, construct, hadHandle, s.midiDevice, openOk);
    CloseThenOpenLive(teardown, construct, hadHandle, s.midiDevice, openOk, LiveOf(current));
    Lifecycle(Some(NewMidi(s.midiDevice, s.logMidiInput, BuildHandlers(s), openOk)), teardown + construct)
  }

  /** A close for an old handle followed by an open for a non-empty device:
      the close comes first, no close follows an open, the open is the last
      call and names the device, and nothing else is called. */
  lemma CloseThenOpenCalls(teardown: seq<PortCall>, construct: seq<PortCall>, hadHandle: bool,
                           device: string, openOk: bool)
    requires teardown == if hadHandle then [CallClosePort] else []
    requires construct == if device == "" then [] else [CallOpenInput(device, openOk)]
    ensures var calls := teardown + construct;
            && (hadHandle ==> |calls| >= 1 && calls[0] == CallClosePort)
            && ClosesBeforeOpens(calls)
            && (forall k :: 0 <= k < |calls| && calls[k].CallOpenInput? ==>
                  k == |calls| - 1 && calls[k].name == device)
            && |calls| == (if hadHandle then 1 else 0) + (if device != "" then 1 else 0)
  {
    var calls := teardown + construct;
    if hadHandle {
      if device != "" {
        assert calls == [CallClosePort, CallOpenInput(device, openOk)];
      } else {
        assert calls == [CallClosePort];
      }
    } else {
      assert calls == construct;
    }
  }

  /** The same calls, starting with at most the old handle's input open:
      two inputs are never open at once, and afterwards one is open exactly
      when the open succeeded. */
  lemma CloseThenOpenLive(teardown: seq<PortCall>, construct: seq<PortCall>, hadHandle: bool,
                          device: string, openOk: bool, live: nat)
    requires teardown == if hadHandle then [CallClosePort] else []
    requires construct == if device == "" then [] else [CallOpenInput(device, openOk)]
    requires live <= if hadHandle then 1 else 0
    ensures PeakLive(teardown + construct, live) <= 1
    ensures LiveAfter(teardown + construct, live) == if device != "" && openOk then 1 else 0
  {
    LiveAppend(teardown, construct, live);
    if hadHandle {
      LiveOne(CallClosePort, live);
    }
    assert LiveAfter(teardown, live) == 0 && PeakLive(teardown, live) <= 1;
    if device != "" {
      LiveOne(CallOpenInput(device, openOk), 0);
    }
  }

  /** The number of MIDI inputs the instance holds open. */
  function LiveOf(current: Option<MidiInstance>): nat {
    if current.Some? && Connected(current.value.conn) then 1 else 0
  }

  /** `script_update` is `script_unload` followed by the constructor. */
  lemma UpdateIsUnloadThenConstruct(current: Option<MidiInstance>, s: MidiSettings, openOk: bool)
    ensures ScriptUpdate(current, s, openOk)
            == Lifecycle(Some(NewMidi(s.midiDevice, s.logMidiInput, BuildHandlers(s), openOk)),
                         ScriptUnload(current).calls + NewMidiCalls(s.midiDevice, openOk))
  {
  }

  /** `script_unload`: close and drop the instance. */
  function ScriptUnload(current: Option<MidiInstance>): (r: Lifecycle)
    ensures r.instance.None?
    ensures forall k :: 0 <= k < |r.calls| ==> r.calls[k] == CallClosePort
    ensures r.calls == [CallClosePort] <==> current.Some? && current.value.conn.midiin.PortHandle?
    ensures LiveAfter(r.calls, LiveOf(current)) == 0
  {
    if current.Some? then Lifecycle(None, Close(current.value.conn).calls) else Lifecycle(None, [])
  }

  /** A call of one of the client's settings hooks. */
  datatype Hook = Update(settings: MidiSettings, openOk: bool) | Unload

  /** One settings hook: its resulting instance and device calls. Neither
      hook ever has two inputs open, and afterwards only the resulting
      instance's input is open. */
  function HookStep(current: Option<MidiInstance>, hook: Hook): (r: Lifecycle)
    ensures PeakLive(r.calls, LiveOf(current)) <= 1
    ensures LiveAfter(r.calls, LiveOf(current)) == LiveOf(r.instance)
    ensures hook.Unload? ==> r.instance.None?
    ensures hook.Update? ==> r.instance.Some? && r.instance.value.handlers == BuildHandlers(hook.settings)
  {
    match hook
    case Update(s, ok) => ScriptUpdate(current, s, ok)
    case Unload =>
      var r := ScriptUnload(current);
      assert r.calls == [] || r.calls == [CallClosePort];
      r
  }

  /** Any run of settings hooks: the final instance and every device call. */
  function RunHooks(current: Option<MidiInstance>, hooks: seq<Hook>): (r: Lifecycle)
    decreases |hooks|
  {
    if hooks == [] then Lifecycle(current, [])
    else
      var first := HookStep(current, hooks[0]);
      var rest := RunHooks(first.instance, hooks[1..]);
      Lifecycle(rest.instance, first.calls + rest.calls)
  }

  /** However the settings hooks are called, at most one MIDI input is open
      at any point, and the inputs left open are exactly the final instance's. */
  lemma {:induction false} RunHooksSingleInput(current: Option<MidiInstance>, hooks: seq<Hook>)
    ensures PeakLive(RunHooks(current, hooks).calls, LiveOf(current)) <= 1
    ensures LiveAfter(RunHooks(current, hooks).calls, LiveOf(current)) == LiveOf(RunHooks(current, hooks).instance)
    decreases |hooks|
  {
    if hooks != [] {
      var first := HookStep(current, hooks[0]);
      var rest := RunHooks(first.instance, hooks[1..]);
      RunHooksSingleInput(first.instance, hooks[1..]);
      LiveAppend(first.calls, rest.calls, LiveOf(current));
    }
  }
}
