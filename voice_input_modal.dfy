/**
 * The recording timer of the VoiceInputModal component
 * (src/components/VoiceInputModal.tsx). Each method is one event together
 * with the effects React runs after it: the `[open]` effect when the `open`
 * prop changes and the `[isRecording]` effect when the recording flag
 * changes. The one-second interval is the Tick event.
 */
module VoiceInputModal {
  import opened Wrappers
  import opened MediaUtils

  /** `formatTime`, the same `m:ss` rendering as `formatDuration`. */
  function FormatTime(seconds: nat): (r: string)
    ensures ParseDuration(r) == Some(seconds)
  {
    DurationRoundTrip(seconds);
    FormatDuration(seconds)
  }

  class Recorder {
    var open: bool
    var isRecording: bool
    var recordingTime: nat

    /** The `[isRecording]` effect resets the time whenever recording is off. */
    ghost predicate Valid()
      reads this
    {
      !isRecording ==> recordingTime == 0
    }

    /** The first render: not recording, at 0, then the `[open]` effect for the initial prop. */
    constructor (open: bool)
      ensures Valid()
      ensures this.open == open && isRecording == open && recordingTime == 0
    {
      this.open := open;
      isRecording := open;
      recordingTime := 0;
    }

    /** A new `open` prop: opening starts recording, closing stops it and resets the time. */
    method SetOpen(nowOpen: bool)
      requires Valid()
      modifies this
      ensures Valid()
      ensures open == nowOpen
      ensures nowOpen != old(open) && nowOpen ==> isRecording && recordingTime == old(recordingTime)
      ensures nowOpen != old(open) && !nowOpen ==> !isRecording && recordingTime == 0
      ensures nowOpen == old(open) ==> isRecording == old(isRecording) && recordingTime == old(recordingTime)
    {
      if nowOpen == open {
        return;
      }
      open := nowOpen;
      if nowOpen {
        isRecording := true;
      } else {
        isRecording := false;
        recordingTime := 0;
      }
    }

    /** One second of the interval, which only runs while recording. */
    method Tick()
      requires Valid()
      modifies this
      ensures Valid()
      ensures recordingTime == (if isRecording then old(recordingTime) + 1 else 0)
      ensures isRecording == old(isRecording) && open == old(open)
    {
      if isRecording {
        recordingTime := recordingTime + 1;
      }
    }

    /** `handleRetry`: the time restarts from 0 and recording is on. */
    method HandleRetry()
      requires Valid()
      modifies this
      ensures Valid()
      ensures recordingTime == 0 && isRecording && open == old(open)
    {
      recordingTime := 0;
      isRecording := true;
    }

    /**
     * `handleSend`: recording stops (so the effect resets the time) and the
     * modal asks its parent to close.
     */
    method HandleSend() returns (closeRequested: bool)
      requires Valid()
      modifies this
      ensures Valid()
      ensures !isRecording && recordingTime == 0 && closeRequested && open == old(open)
    {
      isRecording := false;
      recordingTime := 0;
      closeRequested := true;
    }

    /** The time on screen. */
    function Display(): (r: string)
      reads this
      ensures ParseDuration(r) == Some(recordingTime)
    {
      FormatTime(recordingTime)
    }
  }
}
