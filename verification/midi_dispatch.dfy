/**
 * The MIDI client's input path: `Midi.onMidi` classifies a raw message by its
 * status byte and `Midi.testInput` hands the event to every handler in turn.
 */
module MidiDispatch {
  import opened Wrappers
  import opened MidiHandlers

  /** Status byte of a Note On on the first MIDI channel. */
  const NoteOnStatus := 144
  /** Status byte of a Control Change on the first MIDI channel. */
  const ControlChangeStatus := 176

  /** A classified event: type tag ("Note" or "CC"), channel byte, value byte. */
  datatype MidiEvent = MidiEvent(cmdType: string, channel: int, value: int)

  /** The message indexing in `onMidi` succeeds: the status byte is always
      read, the two data bytes only for the two recognised statuses. */
  predicate WellFormed(message: seq<int>) {
    |message| >= 1
    && (message[0] == NoteOnStatus || message[0] == ControlChangeStatus ==> |message| >= 3)
  }

  /** The status test of `onMidi`: exact equality with 144 or 176. The channel
      nibble is not masked off, so 145 or 177 (a note or controller on another
      MIDI channel) yields no event. */
  function Classify(message: seq<int>): (r: Option<MidiEvent>)
    requires WellFormed(message)
    ensures r.Some? <==> message[0] == NoteOnStatus || message[0] == ControlChangeStatus
    ensures r.Some? ==> r.value.channel == message[1] && r.value.value == message[2]
    ensures r.Some? ==> (r.value.cmdType == "Note" <==> message[0] == NoteOnStatus)
    ensures r.Some? ==> (r.value.cmdType == "CC" <==> message[0] == ControlChangeStatus)
  {
    if message[0] == NoteOnStatus then Some(MidiEvent("Note", message[1], message[2]))
    else if message[0] == ControlChangeStatus then Some(MidiEvent("CC", message[1], message[2]))
    else None
  }

  /** The reading that masks off the channel nibble: high nibble 0x9 is a
      Note On and 0xB a Control Change, whatever the MIDI channel. */
  function MaskedCmdType(status: int): Option<string> {
    if status / 16 == 9 then Some("Note")
    else if status / 16 == 11 then Some("CC")
    else None
  }

  /** Against the masking reading, `onMidi` accepts exactly the first-channel
      statuses of the same two kinds, with the same type tag. */
  lemma ClassifyIsFirstChannelOnly(message: seq<int>)
    requires WellFormed(message) && 0 <= message[0] < 256
    ensures Classify(message).Some? <==> MaskedCmdType(message[0]).Some? && message[0] % 16 == 0
    ensures Classify(message).Some? ==> MaskedCmdType(message[0]) == Some(Classify(message).value.cmdType)
  {
  }

  /** Note On and Control Change on any channel but the first are dropped. */
  lemma OtherChannelsDropped(channel: int, value: int)
    ensures Classify([145, channel, value]) == None
    ensures Classify([177, channel, value]) == None
    ensures Classify([144, channel, value]) == Some(MidiEvent("Note", channel, value))
    ensures Classify([176, channel, value]) == Some(MidiEvent("CC", channel, value))
  {
  }

  /** `Midi.testInput`: every handler is called exactly once, in list order,
      with the event's type and channel; the value byte reaches no handler.
      Each handler sees the paused flag as the earlier handlers' actions left it. */
  method TestInput(handlers: seq<Handler>, cmdType: string, channel: int, value: int,
                   paused: bool, sceneCount: nat)
    returns (actions: seq<Action>, pausedAfter: bool)
    ensures |actions| == |handlers|
    ensures forall i :: 0 <= i < |handlers| ==>
              actions[i] == HandleMidi(handlers[i], cmdType, channel,
                                       PausedAfterAll(actions[..i], paused), sceneCount)
    ensures pausedAfter == PausedAfterAll(actions, paused)
  {
    actions := [];
    pausedAfter := paused;
    var k := 0;
    while k < |handlers|
      invariant 0 <= k <= |handlers|
      invariant |actions| == k
      invariant forall i :: 0 <= i < k ==>
                  actions[i] == HandleMidi(handlers[i], cmdType, channel,
                                           PausedAfterAll(actions[..i], paused), sceneCount)
      invariant pausedAfter == PausedAfterAll(actions, paused)
    {
      var a := HandleMidi(handlers[k], cmdType, channel, pausedAfter, sceneCount);
      var next := actions + [a];
      assert next[..k] == actions;
      assert forall i :: 0 <= i < k ==> next[..i] == actions[..i];
      actions := next;
      pausedAfter := PausedAfter(a, pausedAfter);
      k := k + 1;
    }
  }

  /** The result of `testInput` as written: the actions of the handlers that
      ran, and whether a handler raised and ended the loop early. */
  datatype FanOutResult = FanOutResult(actions: seq<Action>, raised: bool)

  /** `Midi.testInput` with the transition guard as written: an IndexError
      from a handler leaves the `for` loop, so the handlers after it never run. */
  function TestInputAsWritten(handlers: seq<Handler>, cmdType: string, channel: int,
                              paused: bool, sceneCount: nat): (r: FanOutResult)
    ensures |r.actions| <= |handlers|
    // the loop is cut short exactly when a handler raises ...
    ensures r.raised <==> |r.actions| < |handlers|
    // ... and the handler it stopped at is a transition handler one past the last scene
    ensures r.raised ==>
              var h := handlers[|r.actions|];
              h.TransitionHandler? && h.cmdType == cmdType && channel == h.transitionFirst + sceneCount
    decreases |handlers|
  {
    if handlers == [] then FanOutResult([], false)
    else
      match HandleMidiAsWritten(handlers[0], cmdType, channel, paused, sceneCount)
      case IndexError => FanOutResult([], true)
      case Completed(a) =>
        var rest := TestInputAsWritten(handlers[1..], cmdType, channel, PausedAfter(a, paused), sceneCount);
        FanOutResult([a] + rest.actions, rest.raised)
  }

  /** Each of `actions` is what the handler at its index does, as `TestInput`
      runs it, with the paused flag the earlier actions left; and that
      handler completed without raising. */
  predicate RunsAsCorrected(handlers: seq<Handler>, actions: seq<Action>, cmdType: string, channel: int,
                            paused: bool, sceneCount: nat)
    requires |actions| <= |handlers|
  {
    forall i :: 0 <= i < |actions| ==>
      && actions[i] == HandleMidi(handlers[i], cmdType, channel, PausedAfterAll(actions[..i], paused), sceneCount)
      && HandleMidiAsWritten(handlers[i], cmdType, channel, PausedAfterAll(actions[..i], paused), sceneCount).Completed?
  }

  /** A handler that completes with `a`, followed by a run that holds from the
      flag `a` leaves, is a run that holds from the starting flag. */
  lemma {:induction false} RunsAsCorrectedCons(handlers: seq<Handler>, a: Action, rest: seq<Action>,
                                               cmdType: string, channel: int, paused: bool, sceneCount: nat)
    requires 1 <= |handlers| && |rest| < |handlers|
    requires HandleMidiAsWritten(handlers[0], cmdType, channel, paused, sceneCount) == Completed(a)
    requires RunsAsCorrected(handlers[1..], rest, cmdType, channel, PausedAfter(a, paused), sceneCount)
    ensures RunsAsCorrected(handlers, [a] + rest, cmdType, channel, paused, sceneCount)
  {
    var r := [a] + rest;
    forall i | 0 <= i < |r|
      ensures && r[i] == HandleMidi(handlers[i], cmdType, channel, PausedAfterAll(r[..i], paused), sceneCount)
              && HandleMidiAsWritten(handlers[i], cmdType, channel, PausedAfterAll(r[..i], paused), sceneCount).Completed?
    {
      if i == 0 {
        assert r[..0] == [];
      } else {
        var q := PausedAfterAll(rest[..i - 1], PausedAfter(a, paused));
        assert r[..i] == [a] + rest[..i - 1];
        PausedAfterAllCons(a, rest[..i - 1], paused);
        assert PausedAfterAll(r[..i], paused) == q;
        assert r[i] == rest[i - 1] && handlers[i] == handlers[1..][i - 1];
        assert rest[i - 1] == HandleMidi(handlers[1..][i - 1], cmdType, channel, q, sceneCount);
      }
    }
  }

  /** As written, every handler that ran did so as `TestInput` would run it,
      with the paused flag the earlier actions left, and completed. With the
      contract of `TestInputAsWritten`, the run is `TestInput`'s up to the
      first handler that raises, and nothing after it. */
  lemma {:induction false} TestInputAsWrittenRunsAsCorrected(handlers: seq<Handler>, cmdType: string, channel: int,
                                                             paused: bool, sceneCount: nat)
    ensures RunsAsCorrected(handlers, TestInputAsWritten(handlers, cmdType, channel, paused, sceneCount).actions,
                            cmdType, channel, paused, sceneCount)
    decreases |handlers|
  {
    if handlers != [] {
      var o := HandleMidiAsWritten(handlers[0], cmdType, channel, paused, sceneCount);
      if o.Completed? {
        var p := PausedAfter(o.action, paused);
        var rest := TestInputAsWritten(handlers[1..], cmdType, channel, p, sceneCount);
        TestInputAsWrittenRunsAsCorrected(handlers[1..], cmdType, channel, p, sceneCount);
        RunsAsCorrectedCons(handlers, o.action, rest.actions, cmdType, channel, paused, sceneCount);
      }
    }
  }

  /** Example with the handler list the settings hook builds: first address
      0, three scenes, start recording on channel 3. A CC on channel 3 raises
      in the transition handler as written, so recording never starts; with
      the corrected guard the scene is reported invalid and recording starts. */
  lemma RecordingSkippedAfterRaise()
    ensures var hs := [TransitionHandler("CC", 0, 300), RecordingHandler("CC", 3, 4, 5, 6)];
            TestInputAsWritten(hs, "CC", 3, false, 3) == FanOutResult([], true)
            && HandleMidi(hs[0], "CC", 3, false, 3) == InvalidScene(3)
            && HandleMidi(hs[1], "CC", 3, PausedAfter(InvalidScene(3), false), 3) == StartRecording
  {
  }

  /** `Midi.onMidi`: classify the message and, for Note On or Control Change
      on the first channel, fan the event out to the handlers; any other
      status calls no handler and leaves the paused flag alone. */
  method OnMidi(handlers: seq<Handler>, message: seq<int>, paused: bool, sceneCount: nat)
    returns (actions: seq<Action>, pausedAfter: bool)
    requires WellFormed(message)
    ensures message[0] != NoteOnStatus && message[0] != ControlChangeStatus ==>
              actions == [] && pausedAfter == paused
    ensures message[0] == NoteOnStatus || message[0] == ControlChangeStatus ==>
              |actions| == |handlers|
              && pausedAfter == PausedAfterAll(actions, paused)
              && forall i :: 0 <= i < |handlers| ==>
                   actions[i] == HandleMidi(handlers[i], if message[0] == NoteOnStatus then "Note" else "CC",
                                            message[1], PausedAfterAll(actions[..i], paused), sceneCount)
  {
    var event := Classify(message);
    if event.None? {
      actions, pausedAfter := [], paused;
    } else {
      actions, pausedAfter := TestInput(handlers, event.value.cmdType, event.value.channel,
                                        event.value.value, paused, sceneCount);
    }
  }
}
