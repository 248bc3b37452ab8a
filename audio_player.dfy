/**
 * The play state and the speed control of the AudioPlayer component
 * (src/components/AudioPlayer.tsx). Playback rates are written in hundredths
 * (80 for 0.8); the component only compares them for equality. Whether the
 * `<audio>` element is mounted is fixed when the player is made; the times the
 * element reports are whole seconds, already rounded.
 */
module AudioPlayer {
  import opened Wrappers

  /** `speedOptions`, slowest first. */
  const SpeedOptions: seq<int> := [80, 100, 120]

  /** The rate a player starts with: the first option. */
  const InitialRate: int := 80

  /** `speedLabels` */
  function SpeedLabel(rate: int): Option<string> {
    if rate == 80 then Some("느리게")
    else if rate == 100 then Some("보통")
    else if rate == 120 then Some("빠르게")
    else None
  }

  /** `xs.indexOf(x)`: the first position of x, or -1. */
  function IndexOf(xs: seq<int>, x: int): (r: int)
    ensures -1 <= r < |xs|
    ensures r == -1 <==> x !in xs
    ensures r >= 0 ==> xs[r] == x && forall k :: 0 <= k < r ==> xs[k] != x
  {
    if xs == [] then -1
    else if xs[0] == x then 0
    else
      var i := IndexOf(xs[1..], x);
      if i == -1 then -1 else i + 1
  }

  /** `handleSpeedChange(increment)` as a function of the current rate. */
  function StepRate(rate: int, increment: bool): (r: int)
    ensures r == rate || r in SpeedOptions
  {
    var i := IndexOf(SpeedOptions, rate);
    if increment && i < |SpeedOptions| - 1 then SpeedOptions[i + 1]
    else if !increment && i > 0 then SpeedOptions[i - 1]
    else rate
  }

  /** Every option has a label, and the labels tell the options apart. */
  lemma LabelsCoverOptions(k: nat, j: nat)
    requires k < |SpeedOptions| && j < |SpeedOptions|
    ensures SpeedLabel(SpeedOptions[k]).Some?
    ensures SpeedLabel(SpeedOptions[k]) == SpeedLabel(SpeedOptions[j]) ==> k == j
  {
  }

  /** The options are pairwise different, so a listed rate is found at its own position. */
  lemma IndexOfOption(k: nat)
    requires k < |SpeedOptions|
    ensures IndexOf(SpeedOptions, SpeedOptions[k]) == k
  {
  }

  /** From a listed rate, a step moves one position, unless it is already at that end of the list. */
  lemma StepMovesOnePosition(k: nat, increment: bool)
    requires k < |SpeedOptions|
    ensures increment && k < |SpeedOptions| - 1 ==> StepRate(SpeedOptions[k], increment) == SpeedOptions[k + 1]
    ensures !increment && k > 0 ==> StepRate(SpeedOptions[k], increment) == SpeedOptions[k - 1]
    ensures increment && k == |SpeedOptions| - 1 ==> StepRate(SpeedOptions[k], increment) == SpeedOptions[k]
    ensures !increment && k == 0 ==> StepRate(SpeedOptions[k], increment) == SpeedOptions[k]
  {
    IndexOfOption(k);
  }

  /** A listed rate stays listed, whichever way it is stepped. */
  lemma StepKeepsListed(rate: int, increment: bool)
    requires rate in SpeedOptions
    ensures StepRate(rate, increment) in SpeedOptions
  {
  }

  /**
   * A rate that is not listed (`indexOf` gives -1) becomes the first option
   * when sped up and is kept when slowed down.
   */
  lemma StepFromUnlisted(rate: int)
    requires rate !in SpeedOptions
    ensures StepRate(rate, true) == SpeedOptions[0]
    ensures StepRate(rate, false) == rate
  {
  }

  /** Speeding up and then slowing down comes back, unless the first step was blocked at the fast end. */
  lemma StepInverse(k: nat)
    requires k < |SpeedOptions|
    ensures k < |SpeedOptions| - 1 ==> StepRate(StepRate(SpeedOptions[k], true), false) == SpeedOptions[k]
    ensures k > 0 ==> StepRate(StepRate(SpeedOptions[k], false), true) == SpeedOptions[k]
  {
    StepMovesOnePosition(k, true);
    StepMovesOnePosition(k, false);
    if k < |SpeedOptions| - 1 {
      StepMovesOnePosition(k + 1, false);
    }
    if k > 0 {
      StepMovesOnePosition(k - 1, true);
    }
  }

  class Player {
    /** Whether `audioRef.current` is set. */
    const hasAudio: bool
    var isPlaying: bool
    var currentTime: int
    var audioDuration: int
    var isLoading: bool
    var playbackRate: int

    ghost predicate Valid()
      reads this
    {
      playbackRate in SpeedOptions
    }

    /** The initial state: paused at 0, loading, `duration || 0`, the first speed. */
    constructor (hasAudio: bool, duration: Option<int>)
      ensures Valid()
      ensures this.hasAudio == hasAudio && !isPlaying && currentTime == 0 && isLoading
      ensures audioDuration == (if duration.Some? then duration.value else 0)
      ensures playbackRate == InitialRate
    {
      this.hasAudio := hasAudio;
      isPlaying := false;
      currentTime := 0;
      audioDuration := if duration.Some? then duration.value else 0;
      isLoading := true;
      playbackRate := 80;
    }

    /** `handleSpeedChange(increment)` */
    method HandleSpeedChange(increment: bool)
      requires Valid()
      modifies this
      ensures Valid()
      ensures playbackRate == StepRate(old(playbackRate), increment)
      ensures isPlaying == old(isPlaying) && currentTime == old(currentTime)
      ensures audioDuration == old(audioDuration) && isLoading == old(isLoading)
    {
      var currentIndex := IndexOf(SpeedOptions, playbackRate);
      if increment && currentIndex < |SpeedOptions| - 1 {
        playbackRate := SpeedOptions[currentIndex + 1];
      } else if !increment && currentIndex > 0 {
        playbackRate := SpeedOptions[currentIndex - 1];
      }
    }

    /** The speed dropdown: one of the listed options is chosen. */
    method SelectSpeed(k: nat)
      requires Valid() && k < |SpeedOptions|
      modifies this
      ensures Valid()
      ensures playbackRate == SpeedOptions[k]
      ensures isPlaying == old(isPlaying) && currentTime == old(currentTime)
      ensures audioDuration == old(audioDuration) && isLoading == old(isLoading)
    {
      playbackRate := SpeedOptions[k];
    }

    /** `togglePlay`: flips the play state when the element is there, else nothing. */
    method TogglePlay()
      requires Valid()
      modifies this
      ensures Valid()
      ensures isPlaying == (if hasAudio then !old(isPlaying) else old(isPlaying))
      ensures currentTime == old(currentTime) && audioDuration == old(audioDuration)
      ensures isLoading == old(isLoading) && playbackRate == old(playbackRate)
    {
      if !hasAudio {
        return;
      }
      isPlaying := !isPlaying;
    }

    /** `handleSeek`: the requested second becomes the current time when the element is there. */
    method HandleSeek(newTime: int)
      requires Valid()
      modifies this
      ensures Valid()
      ensures currentTime == (if hasAudio then newTime else old(currentTime))
      ensures isPlaying == old(isPlaying) && audioDuration == old(audioDuration)
      ensures isLoading == old(isLoading) && playbackRate == old(playbackRate)
    {
      if !hasAudio {
        return;
      }
      currentTime := newTime;
    }

    /** The `ended` event: playback stops and rewinds to 0. */
    method HandleEnded()
      requires Valid()
      modifies this
      ensures Valid()
      ensures !isPlaying && currentTime == 0
      ensures audioDuration == old(audioDuration) && isLoading == old(isLoading) && playbackRate == old(playbackRate)
    {
      isPlaying := false;
      currentTime := 0;
    }

    /** The `timeupdate` event, with the element's time rounded to a whole second. */
    method HandleTimeUpdate(time: int)
      requires Valid()
      modifies this
      ensures Valid()
      ensures currentTime == time
      ensures isPlaying == old(isPlaying) && audioDuration == old(audioDuration)
      ensures isLoading == old(isLoading) && playbackRate == old(playbackRate)
    {
      currentTime := time;
    }

    /** The `loadedmetadata` event, with the element's duration rounded to a whole second. */
    method HandleLoadedMetadata(duration: int)
      requires Valid()
      modifies this
      ensures Valid()
      ensures audioDuration == duration && !isLoading
      ensures isPlaying == old(isPlaying) && currentTime == old(currentTime) && playbackRate == old(playbackRate)
    {
      audioDuration := duration;
      isLoading := false;
    }

    /** The `error` event: loading ends, nothing else changes. */
    method HandleError()
      requires Valid()
      modifies this
      ensures Valid()
      ensures !isLoading
      ensures isPlaying == old(isPlaying) && currentTime == old(currentTime)
      ensures audioDuration == old(audioDuration) && playbackRate == old(playbackRate)
    {
      isLoading := false;
    }
  }
}
