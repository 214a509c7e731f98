/**
 * The two MIDI handlers of the OBS MIDI client: the transition handler, which
 * maps a channel to a scene and starts a transition, and the recording handler,
 * which maps four configured channels to start/stop/pause/unpause.
 *
 * Calls into the host are modelled as returned `Action` values; what the
 * handlers read from the host (whether recording is paused, how many scenes
 * exist) is passed in.
 */
module MidiHandlers {

  /** What one handler asks of the host, or reports, in answer to one event. */
  datatype Action =
    | NoOp                                    // the event is not for this handler
    | StartRecording
    | StopRecording
    | PauseRecording
    | UnpauseRecording
    | AlreadyPaused                           // pause requested while paused: reported only
    | NotPaused                               // unpause requested while not paused: reported only
    | StartTransition(scene: nat, duration: int)
    | InvalidScene(num: nat)                  // scene number out of range: reported only

  /** The handler kinds registered by the client's settings hook. */
  datatype Handler =
    | TransitionHandler(cmdType: string, transitionFirst: int, duration: int)
    | RecordingHandler(cmdType: string, startChannel: int, endChannel: int,
                       pauseChannel: int, unpauseChannel: int)

  /** The host's paused flag once it has carried out `a`: pausing sets it,
      unpausing or stopping the recording clears it, and everything else
      leaves it as it was. */
  function PausedAfter(a: Action, paused: bool): bool {
    match a
    case PauseRecording => true
    case UnpauseRecording => false
    case StopRecording => false
    case _ => paused
  }

  /** The paused flag after the host has carried out `actions` in order. */
  function PausedAfterAll(actions: seq<Action>, paused: bool): bool
    decreases |actions|
  {
    if actions == [] then paused
    else PausedAfter(actions[|actions| - 1], PausedAfterAll(actions[..|actions| - 1], paused))
  }

  /** Carrying out `a` first and then `s` is the same as starting `s` from
      the flag `a` left. */
  lemma {:induction false} PausedAfterAllCons(a: Action, s: seq<Action>, paused: bool)
    ensures PausedAfterAll([a] + s, paused) == PausedAfterAll(s, PausedAfter(a, paused))
    decreases |s|
  {
    if s != [] {
      var n := |s|;
      assert ([a] + s)[..n] == [a] + s[..n - 1];
      PausedAfterAllCons(a, s[..n - 1], paused);
    }
  }

  /** True when `a` is one of the actions a recording handler can produce. */
  predicate IsRecordingAction(a: Action) {
    a.NoOp? || a.StartRecording? || a.StopRecording? || a.PauseRecording?
    || a.UnpauseRecording? || a.AlreadyPaused? || a.NotPaused?
  }

  /** True when `a` is one of the actions a transition handler can produce. */
  predicate IsTransitionAction(a: Action) {
    a.NoOp? || a.StartTransition? || a.InvalidScene?
  }

  // ---------------------------------------------------------------------------
  // Recording handler
  // ---------------------------------------------------------------------------

  /** `RecordingHandler.handleMidi`: an if/elif chain over the start, end, pause
      and unpause channels, in that order, so the first configured role that
      matches the channel wins. */
  function HandleRecording(h: Handler, cmdType: string, channel: int, paused: bool): (r: Action)
    requires h.RecordingHandler?
    ensures IsRecordingAction(r)
    ensures r.NoOp? <==>
              h.cmdType != cmdType
              || (channel != h.startChannel && channel != h.endChannel
                  && channel != h.pauseChannel && channel != h.unpauseChannel)
    ensures r.StartRecording? <==> h.cmdType == cmdType && channel == h.startChannel
    ensures r.StopRecording? <==>
              h.cmdType == cmdType && channel == h.endChannel && channel != h.startChannel
    ensures r.PauseRecording? || r.AlreadyPaused? <==>
              h.cmdType == cmdType && channel == h.pauseChannel
              && channel != h.startChannel && channel != h.endChannel
    ensures r.UnpauseRecording? || r.NotPaused? <==>
              h.cmdType == cmdType && channel == h.unpauseChannel && channel != h.startChannel
              && channel != h.endChannel && channel != h.pauseChannel
    ensures r.PauseRecording? || r.NotPaused? ==> !paused
    ensures r.UnpauseRecording? || r.AlreadyPaused? ==> paused
  {
    if h.cmdType != cmdType then NoOp
    else if channel == h.startChannel then StartRecording
    else if channel == h.endChannel then StopRecording
    else if channel == h.pauseChannel then (if paused then AlreadyPaused else PauseRecording)
    else if channel == h.unpauseChannel then (if paused then UnpauseRecording else NotPaused)
    else NoOp
  }

  /** Handling the same event twice leaves the paused flag where handling it
      once left it: in particular two pauses in a row equal one pause, and two
      unpauses equal one. */
  lemma RecordingEventIdempotent(h: Handler, cmdType: string, channel: int, paused: bool)
    requires h.RecordingHandler?
    ensures var p1 := PausedAfter(HandleRecording(h, cmdType, channel, paused), paused);
            var p2 := PausedAfter(HandleRecording(h, cmdType, channel, p1), p1);
            p2 == p1
  {
  }

  /** A pause request while already paused is reported and changes nothing;
      an unpause request while not paused likewise. */
  lemma RedundantRequestsAreNoOps(h: Handler, cmdType: string)
    requires h.RecordingHandler? && h.cmdType == cmdType
    ensures var ch := h.pauseChannel;
            ch != h.startChannel && ch != h.endChannel ==>
              HandleRecording(h, cmdType, ch, true) == AlreadyPaused
              && PausedAfter(HandleRecording(h, cmdType, ch, true), true)
    ensures var ch := h.unpauseChannel;
            ch != h.startChannel && ch != h.endChannel && ch != h.pauseChannel ==>
              HandleRecording(h, cmdType, ch, false) == NotPaused
              && !PausedAfter(HandleRecording(h, cmdType, ch, false), false)
  {
  }

  /** Feeds a sequence of channels of one type to a recording handler,
      threading the paused flag from one event to the next. */
  function RunRecording(h: Handler, cmdType: string, channels: seq<int>, paused: bool): (r: seq<Action>)
    requires h.RecordingHandler?
    ensures |r| == |channels|
    ensures forall i :: 0 <= i < |r| ==> IsRecordingAction(r[i])
    ensures forall i :: 0 <= i < |r| ==>
              (r[i] == NoOp <==>
                 (|| cmdType != h.cmdType
                  || (channels[i] != h.startChannel && channels[i] != h.endChannel
                      && channels[i] != h.pauseChannel && channels[i] != h.unpauseChannel)))
    decreases |channels|
  {
    if channels == [] then []
    else
      var a := HandleRecording(h, cmdType, channels[0], paused);
      [a] + RunRecording(h, cmdType, channels[1..], PausedAfter(a, paused))
  }

  /** Over a run of events, each event sees the paused flag as the earlier
      actions left it, so the handler never asks an already paused host to
      pause, nor an unpaused one to unpause. */
  lemma {:induction false} RunRecordingThreadsFlag(h: Handler, cmdType: string, channels: seq<int>, paused: bool)
    requires h.RecordingHandler?
    ensures var r := RunRecording(h, cmdType, channels, paused);
            forall i :: 0 <= i < |r| ==>
              r[i] == HandleRecording(h, cmdType, channels[i], PausedAfterAll(r[..i], paused))
    ensures var r := RunRecording(h, cmdType, channels, paused);
            forall i :: 0 <= i < |r| ==>
              (r[i].PauseRecording? ==> !PausedAfterAll(r[..i], paused))
              && (r[i].UnpauseRecording? ==> PausedAfterAll(r[..i], paused))
    decreases |channels|
  {
    var r := RunRecording(h, cmdType, channels, paused);
    if channels != [] {
      var a := HandleRecording(h, cmdType, channels[0], paused);
      var p := PausedAfter(a, paused);
      var rest := RunRecording(h, cmdType, channels[1..], p);
      assert r == [a] + rest;
      RunRecordingThreadsFlag(h, cmdType, channels[1..], p);
      forall i | 0 < i < |r|
        ensures r[i] == HandleRecording(h, cmdType, channels[i], PausedAfterAll(r[..i], paused))
      {
        assert r[..i] == [a] + rest[..i - 1];
        PausedAfterAllCons(a, rest[..i - 1], paused);
      }
    }
  }

  /** Example: with start=1, stop=2, pause=3, unpause=4, the note
      sequence 1, 3, 3, 4, 4 starts, pauses, is told it is already paused,
      unpauses, and is told it is not paused. */
  lemma RecordingExample()
    ensures RunRecording(RecordingHandler("Note", 1, 2, 3, 4), "Note", [1, 3, 3, 4, 4], false)
            == [StartRecording, PauseRecording, AlreadyPaused, UnpauseRecording, NotPaused]
  {
  }

  /** Example: a paused recording that is stopped and started again is not
      paused, so the next pause note issues a pause request. */
  lemma RestartedRecordingPauses()
    ensures RunRecording(RecordingHandler("Note", 1, 2, 3, 4), "Note", [1, 3, 2, 1, 3], false)
            == [StartRecording, PauseRecording, StopRecording, StartRecording, PauseRecording]
  {
  }

  // ---------------------------------------------------------------------------
  // Transition handler
  // ---------------------------------------------------------------------------

  /** The outcome of a handler call that may raise: in Python, indexing the
      scene list one past its end raises IndexError out of the handler. */
  datatype Outcome = Completed(action: Action) | IndexError

  /** `TransitionHandler.transition` exactly as written: the guard rejects only
      `num > len(scenes)`, so `num == len(scenes)` reaches `scenes[num]` and
      raises. */
  function TransitionAsWritten(num: nat, sceneCount: nat, duration: int): (r: Outcome)
    ensures r.IndexError? <==> num == sceneCount
    ensures r == Completed(InvalidScene(num)) <==> num > sceneCount
    ensures r == Completed(StartTransition(num, duration)) <==> num < sceneCount
  {
    if num > sceneCount then Completed(InvalidScene(num))
    else if num < sceneCount then Completed(StartTransition(num, duration))
    else IndexError
  }

  /** `transition` with the guard the code evidently intends
      (`num >= len(scenes)`): it never indexes out of bounds. */
  function Transition(num: nat, sceneCount: nat, duration: int): (r: Action)
    ensures r.StartTransition? <==> num < sceneCount
    ensures r.StartTransition? ==> r.scene < sceneCount && r.scene == num && r.duration == duration
    ensures !r.StartTransition? ==> r == InvalidScene(num)
  {
    if num >= sceneCount then InvalidScene(num) else StartTransition(num, duration)
  }

  /** The guard as written lets the one-past-the-end scene number through, and
      the scene lookup then raises; the corrected guard reports it as invalid. */
  lemma TransitionOffByOne(sceneCount: nat, duration: int)
    ensures TransitionAsWritten(sceneCount, sceneCount, duration) == IndexError
    ensures Transition(sceneCount, sceneCount, duration) == InvalidScene(sceneCount)
  {
  }

  /** Everywhere else the written and the corrected guard agree. */
  lemma TransitionGuardsAgree(num: nat, sceneCount: nat, duration: int)
    ensures num != sceneCount <==>
            TransitionAsWritten(num, sceneCount, duration) == Completed(Transition(num, sceneCount, duration))
  {
  }

  /** `TransitionHandler.handleMidi` with the corrected scene guard: ignores
      other event types and channels below the first configured address;
      otherwise transitions to scene `channel - transitionFirst` with the
      configured duration, unchanged, or reports an out-of-range scene. */
  function HandleTransition(h: Handler, cmdType: string, channel: int, sceneCount: nat): (r: Action)
    requires h.TransitionHandler?
    ensures IsTransitionAction(r)
    ensures r.NoOp? <==> cmdType != h.cmdType || channel < h.transitionFirst
    ensures r.StartTransition? <==>
              cmdType == h.cmdType && h.transitionFirst <= channel < h.transitionFirst + sceneCount
    ensures r.StartTransition? ==>
              r.scene == channel - h.transitionFirst && r.scene < sceneCount && r.duration == h.duration
    ensures r.InvalidScene? ==> r.num == channel - h.transitionFirst && r.num >= sceneCount
  {
    if cmdType != h.cmdType then NoOp
    else
      var sceneNumber := channel - h.transitionFirst;
      if sceneNumber >= 0 then Transition(sceneNumber, sceneCount, h.duration) else NoOp
  }

  /** `TransitionHandler.handleMidi` exactly as written: the one channel
      just past the last scene raises IndexError; every other event is
      handled as with the corrected guard. */
  function HandleTransitionAsWritten(h: Handler, cmdType: string, channel: int, sceneCount: nat): (r: Outcome)
    requires h.TransitionHandler?
    ensures r.IndexError? <==> cmdType == h.cmdType && channel == h.transitionFirst + sceneCount
    ensures r.Completed? ==> r.action == HandleTransition(h, cmdType, channel, sceneCount)
  {
    if cmdType != h.cmdType then Completed(NoOp)
    else
      var sceneNumber := channel - h.transitionFirst;
      if sceneNumber >= 0 then TransitionAsWritten(sceneNumber, sceneCount, h.duration) else Completed(NoOp)
  }

  /** Example: with first address 10, an event on channel 12 starts a
      transition to scene 2; channel 9 is ignored. */
  lemma TransitionExample()
    ensures HandleTransition(TransitionHandler("CC", 10, 1000), "CC", 12, 5) == StartTransition(2, 1000)
    ensures HandleTransition(TransitionHandler("CC", 10, 1000), "CC", 9, 5) == NoOp
  {
  }

  // ---------------------------------------------------------------------------
  // Either handler
  // ---------------------------------------------------------------------------

  /** `handler.handleMidi(cmdType, channel)` for either kind. Each handler does
      its own filtering by event type, and only a recording handler can move
      the paused flag. */
  function HandleMidi(h: Handler, cmdType: string, channel: int, paused: bool, sceneCount: nat): (r: Action)
    ensures h.cmdType != cmdType ==> r == NoOp
    ensures h.TransitionHandler? ==> IsTransitionAction(r) && PausedAfter(r, paused) == paused
    ensures h.RecordingHandler? ==> IsRecordingAction(r)
    ensures h.TransitionHandler? ==> r == HandleTransition(h, cmdType, channel, sceneCount)
    ensures h.RecordingHandler? ==> r == HandleRecording(h, cmdType, channel, paused)
  {
    match h
    case TransitionHandler(_, _, _) => HandleTransition(h, cmdType, channel, sceneCount)
    case RecordingHandler(_, _, _, _, _) => HandleRecording(h, cmdType, channel, paused)
  }

  /** `handler.handleMidi(cmdType, channel)` for either kind, with the
      transition guard as written: only a transition handler can raise, and
      an event that does not raise is handled as by `HandleMidi`. */
  function HandleMidiAsWritten(h: Handler, cmdType: string, channel: int, paused: bool, sceneCount: nat): (r: Outcome)
    ensures r.IndexError? <==>
              h.TransitionHandler? && cmdType == h.cmdType && channel == h.transitionFirst + sceneCount
    ensures r.Completed? ==> r.action == HandleMidi(h, cmdType, channel, paused, sceneCount)
  {
    match h
    case TransitionHandler(_, _, _) => HandleTransitionAsWritten(h, cmdType, channel, sceneCount)
    case RecordingHandler(_, _, _, _, _) => Completed(HandleRecording(h, cmdType, channel, paused))
  }
}
