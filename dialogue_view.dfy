/** The dialogue view (Components/DialogueView.tsx): the time labels, the side
    each speaker's bubble is drawn on, and the audio player's state machine.
    The player is a class whose fields are the component's state; the
    browser's audio element is a second class whose fields the handlers
    write through the component's reference to it. */
module DialogueView {
  import opened Wrappers
  import opened Strings
  import opened Types

  // ----- time labels -----

  /** The label built from whole minutes and whole seconds: the minutes, a
      colon, and the seconds with a leading zero below ten. */
  function Label(mins: nat, secs: nat): string {
    DecimalString(mins) + ":" + (if secs < 10 then "0" else "") + DecimalString(secs)
  }

  /** `formatTime` on a whole number of seconds: "0:00" for zero, otherwise
      the quotient and remainder by sixty. Every label ends in a colon and
      two digits, after at least one digit of minutes. */
  function FormatTime(seconds: nat): (r: string)
    ensures |r| >= 4 && r[|r| - 3] == ':' && AllDigits(r[|r| - 2..])
    ensures AllDigits(r[..|r| - 3])
  {
    if seconds == 0 then "0:00"
    else
      var mins, secs := seconds / 60, seconds % 60;
      PaddedSeconds(secs);
      var head, tail := DecimalString(mins) + ":", TwoDigits(secs);
      assert Label(mins, secs) == head + tail;
      assert (head + tail)[|head| - 1] == head[|head| - 1] == ':';
      assert (head + tail)[|head|..] == tail;
      assert (head + tail)[..|head| - 1] == DecimalString(mins);
      Label(mins, secs)
  }

  /** `formatTime` on the non-negative number of seconds the audio element
      reports: both fields are floored, and `%` on a positive operand is the
      difference to the truncated multiple of sixty. */
  function FormatSeconds(seconds: real): (r: string)
    requires seconds >= 0.0
    ensures r == FormatTime(seconds.Floor)
  {
    if seconds == 0.0 then "0:00"
    else
      var mins := (seconds / 60.0).Floor;
      var secs := (seconds - 60.0 * (mins as real)).Floor;
      var n: nat := seconds.Floor;
      assert mins == n / 60 by {
        assert ((n / 60) as real) * 60.0 <= seconds < ((n / 60) as real) * 60.0 + 60.0;
      }
      assert secs == n % 60 by {
        assert ((n % 60) as real) <= seconds - 60.0 * (mins as real) < ((n % 60) as real) + 1.0;
      }
      assert n == 0 ==> Label(mins, secs) == FormatTime(n) by { ZeroLabel(); }
      Label(mins, secs)
  }

  /** Exactly two decimal digits, with a leading zero below ten. */
  function TwoDigits(n: nat): (r: string)
    requires n < 100
    ensures |r| == 2 && AllDigits(r)
    ensures ParseDecimal(r) == n
  {
    var r := [DigitChar(n / 10), DigitChar(n % 10)];
    assert r[..1] == [DigitChar(n / 10)];
    assert r[..1][..0] == "";
    assert DigitValue(r[0]) == n / 10 && DigitValue(r[1]) == n % 10;
    assert ParseDecimal(r[..1]) == n / 10;
    assert ParseDecimal(r) == ParseDecimal(r[..1]) * 10 + DigitValue(r[1]);
    r
  }

  /** Below a minute, the padded seconds field is exactly two digits. */
  lemma PaddedSeconds(secs: nat)
    requires secs < 60
    ensures (if secs < 10 then "0" else "") + DecimalString(secs) == TwoDigits(secs)
  {
    if secs >= 10 {
      assert DecimalString(secs) == DecimalString(secs / 10) + [DigitChar(secs % 10)];
    }
  }

  /** The zero shortcut agrees with the general formula. */
  lemma ZeroLabel()
    ensures Label(0, 0) == FormatTime(0)
  {
    assert DecimalString(0) == "0";
  }

  /** For every whole number of seconds, including zero, the label is the
      minutes, a colon, and the remainder below sixty as exactly two digits. */
  lemma FormatTimeShape(seconds: nat)
    ensures FormatTime(seconds) == DecimalString(seconds / 60) + ":" + TwoDigits(seconds % 60)
  {
    if seconds == 0 {
      ZeroLabel();
    }
    PaddedSeconds(seconds % 60);
  }

  /** Reading a label back: minutes, a colon, and two digits below sixty. */
  function ParseTime(shown: string): Option<nat> {
    var parts := Split(shown, ':');
    if |parts| == 2 && |parts[0]| > 0 && AllDigits(parts[0])
       && |parts[1]| == 2 && AllDigits(parts[1]) && ParseDecimal(parts[1]) < 60
    then Some(ParseDecimal(parts[0]) * 60 + ParseDecimal(parts[1]))
    else None
  }

  /** The label determines the seconds: reading it back as minutes times
      sixty plus seconds gives the input. */
  lemma FormatTimeRoundTrip(seconds: nat)
    ensures ParseTime(FormatTime(seconds)) == Some(seconds)
  {
    FormatTimeShape(seconds);
    var mins := DecimalString(seconds / 60);
    var secs := TwoDigits(seconds % 60);
    assert ':' !in mins by {
      forall i | 0 <= i < |mins| ensures mins[i] != ':' {
        assert IsDigit(mins[i]);
      }
    }
    assert ':' !in secs by {
      assert IsDigit(secs[0]) && IsDigit(secs[1]);
    }
    SplitAtFirstSeparator(mins, ':', secs);
    SplitWithoutSeparator(secs, ':');
    var shown := FormatTime(seconds);
    assert shown == mins + [':'] + secs;
    assert Split(shown, ':') == [mins, secs];
    ParseDecimalString(seconds / 60);
  }

  // ----- speaker sides -----

  /** The view's test for the first speaker. */
  predicate IsSpeakerA(line: DialogueLine) {
    line.speaker.Label() == "Speaker A"
  }

  /** Which edge of the view a line's bubble is aligned to. */
  function Alignment(line: DialogueLine): string {
    if IsSpeakerA(line) then "justify-start" else "justify-end"
  }

  /** The letter in the speaker's round badge. */
  function Badge(line: DialogueLine): string {
    if IsSpeakerA(line) then "A" else "B"
  }

  /** The first speaker's lines sit at the start edge, the second's at the
      end edge, and the badge is the letter that ends the speaker's label. */
  lemma SpeakerSide(line: DialogueLine)
    ensures IsSpeakerA(line) <==> line.speaker == SpeakerA
    ensures Alignment(line) == "justify-start" <==> line.speaker == SpeakerA
    ensures Alignment(line) == "justify-end" <==> line.speaker == SpeakerB
    ensures line.speaker.Label() == "Speaker " + Badge(line)
  {
    assert "Speaker B"[8] != "Speaker A"[8];
  }

  // ----- the player -----

  /** The playback rates offered by the speed buttons, in display order. */
  const SpeedOptions: seq<real> := [0.75, 1.0, 1.25, 1.5]

  /** Four distinct rates in increasing order; the normal rate is one of them. */
  lemma SpeedOptionsShape()
    ensures |SpeedOptions| == 4
    ensures forall i, j :: 0 <= i < j < |SpeedOptions| ==> SpeedOptions[i] < SpeedOptions[j]
    ensures (set r | r in SpeedOptions) == {0.75, 1.0, 1.25, 1.5}
    ensures 1.0 in SpeedOptions
  {
  }

  /** The browser's audio element, as far as the player touches it. */
  class AudioElement {
    var src: string
    var volume: real
    var playbackRate: real
    var currentTime: real
    var duration: real
    var paused: bool

    /** A newly mounted element for a source: paused at the start, at full
        volume and normal speed, with no duration known yet. */
    constructor (src: string)
      ensures this.src == src && paused
      ensures volume == 1.0 && playbackRate == 1.0
      ensures currentTime == 0.0 && duration == 0.0
    {
      this.src := src;
      volume := 1.0;
      playbackRate := 1.0;
      currentTime := 0.0;
      duration := 0.0;
      paused := true;
    }

    /** A new source on the same element: playback stops and starts over at
        the default rate (1, which the application never changes); the
        volume survives. */
    method Load(src: string)
      modifies this
      ensures this.src == src && paused && currentTime == 0.0
      ensures volume == old(volume) && playbackRate == 1.0
      ensures duration == old(duration)
    {
      this.src := src;
      paused := true;
      currentTime := 0.0;
      playbackRate := 1.0;
    }

    /** `play()`: an element already playing stays playing; a paused one
        starts only when the browser allows it. The result says whether the
        returned promise resolves. */
    method Play(allowed: bool) returns (started: bool)
      modifies this
      ensures paused == (old(paused) && !allowed)
      ensures started == !paused
      ensures src == old(src) && volume == old(volume) && playbackRate == old(playbackRate)
      ensures currentTime == old(currentTime) && duration == old(duration)
    {
      paused := paused && !allowed;
      started := !paused;
    }

    method Pause()
      modifies this
      ensures paused
      ensures src == old(src) && volume == old(volume) && playbackRate == old(playbackRate)
      ensures currentTime == old(currentTime) && duration == old(duration)
    {
      paused := true;
    }
  }

  /** The player part of the view: the component's state, the audio source
      it was given ("" when there is none) and the element the audio tag
      mounts while there is a source. */
  class Player {
    var audioUrl: string
    var audio: AudioElement?
    var isPlaying: bool
    var currentTime: real
    var duration: real
    var volume: real
    var isMuted: bool
    var playbackRate: real

    /** The state the handlers keep: volume and times in range, a rate the
        buttons offer, and an element exactly while there is a source, playing
        that source at the rate the state shows. */
    ghost predicate Valid()
      reads this, audio
    {
      && 0.0 <= volume <= 1.0
      && playbackRate in SpeedOptions
      && currentTime >= 0.0 && duration >= 0.0
      && (audio != null <==> audioUrl != "")
      && (audio != null ==>
            && audio.src == audioUrl
            && audio.playbackRate == playbackRate
            && 0.0 <= audio.volume <= 1.0
            && audio.currentTime >= 0.0 && audio.duration >= 0.0)
    }

    /** The volume the element should play at: silent when muted, otherwise
        the stored volume, or one half when that is zero (the fallback the
        unmute button uses). */
    function AudibleVolume(): (v: real)
      reads this
      requires 0.0 <= volume <= 1.0
      ensures 0.0 <= v <= 1.0
      ensures v == 0.0 <==> isMuted
    {
      if isMuted then 0.0 else if volume == 0.0 then 0.5 else volume
    }

    /** The element plays at the audible volume. */
    ghost predicate VolumeInSync()
      reads this, audio
      requires 0.0 <= volume <= 1.0
    {
      audio != null ==> audio.volume == AudibleVolume()
    }

    /** The position shown by the volume slider. */
    function SliderVolume(): real
      reads this
    {
      if isMuted then 0.0 else volume
    }

    /** Whether the volume button shows the muted icon. */
    predicate ShowsMutedIcon()
      reads this
    {
      isMuted || volume == 0.0
    }

    /** The muted icon is shown exactly when the slider sits at zero. */
    lemma MutedIconIffSliderAtZero()
      ensures ShowsMutedIcon() <==> SliderVolume() == 0.0
    {
    }

    /** The view as first mounted: nothing playing, full volume, normal speed,
        and no audio yet (the application clears the source whenever it
        replaces the lines the view shows). */
    constructor ()
      ensures Valid() && VolumeInSync()
      ensures audioUrl == "" && audio == null
      ensures !isPlaying && currentTime == 0.0 && duration == 0.0
      ensures volume == 1.0 && !isMuted && playbackRate == 1.0
    {
      audioUrl := "";
      audio := null;
      isPlaying := false;
      currentTime := 0.0;
      duration := 0.0;
      volume := 1.0;
      isMuted := false;
      playbackRate := 1.0;
    }

    /** `togglePlay`: without an element nothing happens; otherwise the
        element is paused or asked to play, and `isPlaying` flips whether or
        not the browser lets playback start. */
    method TogglePlay(playAllowed: bool)
      requires Valid()
      modifies this, audio
      ensures Valid()
      ensures audio == old(audio) && audioUrl == old(audioUrl)
      ensures audio != null ==> audio.src == old(audio.src) && audio.duration == old(audio.duration)
      ensures old(audio) == null ==> unchanged(this)
      ensures old(audio) != null ==> isPlaying == !old(isPlaying)
      ensures old(audio) != null && old(isPlaying) ==> audio.paused
      ensures old(audio) != null && !old(isPlaying) ==> audio.paused == (old(audio.paused) && !playAllowed)
      ensures currentTime == old(currentTime) && duration == old(duration)
      ensures volume == old(volume) && isMuted == old(isMuted) && playbackRate == old(playbackRate)
      ensures audio != null ==> audio.volume == old(audio.volume) && audio.currentTime == old(audio.currentTime)
      ensures old(VolumeInSync()) ==> VolumeInSync()
    {
      if audio == null {
        return;
      }
      if isPlaying {
        audio.Pause();
      } else {
        var _ := audio.Play(playAllowed);
      }
      isPlaying := !isPlaying;
    }

    /** Pressing the play button twice restores the playing flag. */
    method TogglePlayTwice(firstAllowed: bool, secondAllowed: bool)
      requires Valid()
      modifies this, audio
      ensures Valid()
      ensures isPlaying == old(isPlaying)
    {
      TogglePlay(firstAllowed);
      TogglePlay(secondAllowed);
    }

    /** `handleSeek`: with an element, both the element's position and the
        state's move to the chosen time; without one nothing changes. */
    method HandleSeek(time: real)
      requires Valid() && 0.0 <= time
      modifies this, audio
      ensures Valid()
      ensures audio == old(audio) && audioUrl == old(audioUrl)
      ensures audio != null ==> audio.src == old(audio.src) && audio.duration == old(audio.duration)
      ensures old(audio) == null ==> unchanged(this)
      ensures old(audio) != null ==> currentTime == time && audio.currentTime == time
      ensures isPlaying == old(isPlaying) && duration == old(duration)
      ensures volume == old(volume) && isMuted == old(isMuted) && playbackRate == old(playbackRate)
      ensures audio != null ==> audio.volume == old(audio.volume) && audio.paused == old(audio.paused)
      ensures old(VolumeInSync()) ==> VolumeInSync()
    {
      if audio != null {
        audio.currentTime := time;
        currentTime := time;
      }
    }

    /** `handleVolumeChange`: the stored volume becomes the slider's value,
        the element follows when there is one, and the player is muted exactly
        when the new volume is zero. */
    method HandleVolumeChange(v: real)
      requires Valid() && 0.0 <= v <= 1.0
      modifies this, audio
      ensures Valid() && VolumeInSync()
      ensures audio == old(audio) && audioUrl == old(audioUrl)
      ensures audio != null ==> audio.src == old(audio.src) && audio.duration == old(audio.duration)
      ensures volume == v && isMuted == (v == 0.0)
      ensures audio != null ==> audio.volume == v
      ensures isPlaying == old(isPlaying) && currentTime == old(currentTime)
      ensures duration == old(duration) && playbackRate == old(playbackRate)
      ensures audio != null ==> audio.paused == old(audio.paused) && audio.currentTime == old(audio.currentTime)
    {
      volume := v;
      if audio != null {
        audio.volume := v;
      }
      isMuted := v == 0.0;
    }

    /** `toggleMute`: without an element nothing happens; otherwise the
        muted flag flips, the stored volume is kept, and the element goes
        silent or back to the stored volume (one half when that is zero). */
    method ToggleMute()
      requires Valid()
      modifies this, audio
      ensures Valid()
      ensures audio == old(audio) && audioUrl == old(audioUrl)
      ensures audio != null ==> audio.src == old(audio.src) && audio.duration == old(audio.duration)
      ensures old(audio) == null ==> unchanged(this)
      ensures old(audio) != null ==> isMuted == !old(isMuted) && VolumeInSync()
      ensures old(audio) != null && old(isMuted) ==> audio.volume == (if volume == 0.0 then 0.5 else volume)
      ensures old(audio) != null && !old(isMuted) ==> audio.volume == 0.0
      ensures volume == old(volume)
      ensures isPlaying == old(isPlaying) && currentTime == old(currentTime)
      ensures duration == old(duration) && playbackRate == old(playbackRate)
      ensures audio != null ==> audio.paused == old(audio.paused) && audio.currentTime == old(audio.currentTime)
      ensures old(VolumeInSync()) ==> VolumeInSync()
    {
      if audio == null {
        return;
      }
      if isMuted {
        audio.volume := if volume == 0.0 then 0.5 else volume;
        isMuted := false;
      } else {
        audio.volume := 0.0;
        isMuted := true;
      }
    }

    /** Muting and unmuting again restores the muted flag and keeps the
        stored volume; the element is left at the audible volume. */
    method ToggleMuteTwice()
      requires Valid()
      modifies this, audio
      ensures Valid()
      ensures isMuted == old(isMuted) && volume == old(volume)
      ensures old(audio) != null ==> VolumeInSync()
    {
      ToggleMute();
      ToggleMute();
    }

    /** `handleSpeedChange`: the state's rate becomes the chosen one and the
        element follows when there is one. */
    method HandleSpeedChange(rate: real)
      requires Valid() && rate in SpeedOptions
      modifies this, audio
      ensures Valid()
      ensures audio == old(audio) && audioUrl == old(audioUrl)
      ensures audio != null ==> audio.src == old(audio.src) && audio.duration == old(audio.duration)
      ensures playbackRate == rate
      ensures audio != null ==> audio.playbackRate == rate
      ensures isPlaying == old(isPlaying) && currentTime == old(currentTime) && duration == old(duration)
      ensures volume == old(volume) && isMuted == old(isMuted)
      ensures audio != null ==> audio.volume == old(audio.volume) && audio.paused == old(audio.paused)
      ensures audio != null ==> audio.currentTime == old(audio.currentTime)
      ensures old(VolumeInSync()) ==> VolumeInSync()
    {
      playbackRate := rate;
      if audio != null {
        audio.playbackRate := rate;
      }
    }

    /** `onEnded`: the player stops showing playback; nothing else changes. */
    method OnEnded()
      requires Valid()
      modifies this
      ensures Valid()
      ensures audio == old(audio) && audioUrl == old(audioUrl)
      ensures !isPlaying
      ensures currentTime == old(currentTime) && duration == old(duration)
      ensures volume == old(volume) && isMuted == old(isMuted) && playbackRate == old(playbackRate)
      ensures old(VolumeInSync()) ==> VolumeInSync()
    {
      isPlaying := false;
    }

    /** `onTimeUpdate`, fired after the browser moved the element to
        `position`: the state's time follows the element's. */
    method OnTimeUpdate(position: real)
      requires Valid() && position >= 0.0
      modifies this, audio
      ensures Valid()
      ensures audio == old(audio) && audioUrl == old(audioUrl)
      ensures audio != null ==> audio.src == old(audio.src) && audio.duration == old(audio.duration)
      ensures old(audio) == null ==> unchanged(this)
      ensures old(audio) != null ==> currentTime == position && audio.currentTime == position
      ensures isPlaying == old(isPlaying) && duration == old(duration)
      ensures volume == old(volume) && isMuted == old(isMuted) && playbackRate == old(playbackRate)
      ensures audio != null ==> audio.volume == old(audio.volume) && audio.paused == old(audio.paused)
      ensures old(VolumeInSync()) ==> VolumeInSync()
    {
      if audio != null {
        audio.currentTime := position;
        currentTime := audio.currentTime;
      }
    }

    /** `onLoadedMetadata`, fired after the browser learned the duration:
        the state takes the element's duration and playback is started;
        `isPlaying` ends up saying whether the browser let it start. */
    method OnLoadedMetadata(reported: real, playAllowed: bool)
      requires Valid() && reported >= 0.0
      modifies this, audio
      ensures Valid()
      ensures audio == old(audio) && audioUrl == old(audioUrl)
      ensures audio != null ==> audio.src == old(audio.src) && audio.currentTime == old(audio.currentTime)
      ensures old(audio) == null ==> unchanged(this)
      ensures old(audio) != null ==> duration == reported && audio.duration == reported
      ensures old(audio) != null ==> isPlaying == !audio.paused
      ensures old(audio) != null ==> audio.paused == (old(audio.paused) && !playAllowed)
      ensures currentTime == old(currentTime)
      ensures volume == old(volume) && isMuted == old(isMuted) && playbackRate == old(playbackRate)
      ensures audio != null ==> audio.volume == old(audio.volume)
      ensures old(VolumeInSync()) ==> VolumeInSync()
    {
      if audio != null {
        audio.duration := reported;
        duration := audio.duration;
        isPlaying := true;
        var started := audio.Play(playAllowed);
        if !started {
          isPlaying := false;
        }
      }
    }

    /** The reset effect, run when the source given to the view changes (an
        unchanged source does not run it). Without a source the audio tag is
        unmounted and the state is kept. With one, the element is mounted or
        reloaded; playback restarts from zero at normal speed, the element
        takes the stored volume, and `isPlaying` ends up saying whether the
        browser let playback start. */
    method ChangeAudioUrl(url: string, playAllowed: bool)
      requires Valid()
      modifies this, audio
      ensures Valid()
      ensures url == old(audioUrl) ==> unchanged(this)
      ensures url == old(audioUrl) && audio != null ==> unchanged(audio)
      ensures audioUrl == url
      ensures audio != null && audio != old(audio) ==> fresh(audio)
      ensures url == "" ==> audio == null
      ensures url == "" ==> isPlaying == old(isPlaying) && currentTime == old(currentTime)
      ensures url == "" ==> playbackRate == old(playbackRate)
      ensures url != "" && url != old(audioUrl) ==>
        && audio != null
        && currentTime == 0.0 && playbackRate == 1.0
        && audio.volume == volume && audio.playbackRate == 1.0 && audio.currentTime == 0.0
        && isPlaying == playAllowed && audio.paused == !playAllowed
      ensures duration == old(duration) && volume == old(volume) && isMuted == old(isMuted)
    {
      if url == audioUrl {
        return;
      }
      audioUrl := url;
      if url == "" {
        audio := null;
        return;
      }
      if audio == null {
        audio := new AudioElement(url);
      } else {
        audio.Load(url);
      }
      isPlaying := true;
      currentTime := 0.0;
      playbackRate := 1.0;
      audio.volume := volume;
      audio.playbackRate := 1.0;
      var started := audio.Play(playAllowed);
      if !started {
        isPlaying := false;
      }
    }

    /** The reset effect with the element set to the audible volume instead
        of the stored one, so that a muted player stays silent on new audio. */
    method ChangeAudioUrlKeepingMute(url: string, playAllowed: bool)
      requires Valid()
      modifies this, audio
      ensures Valid()
      ensures url == old(audioUrl) ==> unchanged(this)
      ensures url == old(audioUrl) && audio != null ==> unchanged(audio)
      ensures audioUrl == url
      ensures audio != null && audio != old(audio) ==> fresh(audio)
      ensures url == "" ==> audio == null
      ensures url == "" ==> isPlaying == old(isPlaying) && currentTime == old(currentTime)
      ensures url == "" ==> playbackRate == old(playbackRate)
      ensures url != "" && url != old(audioUrl) ==>
        && audio != null
        && currentTime == 0.0 && playbackRate == 1.0
        && audio.playbackRate == 1.0 && audio.currentTime == 0.0
        && isPlaying == playAllowed && audio.paused == !playAllowed
      ensures duration == old(duration) && volume == old(volume) && isMuted == old(isMuted)
      ensures old(VolumeInSync()) ==> VolumeInSync()
      ensures url != old(audioUrl) ==> VolumeInSync()
    {
      if url == audioUrl {
        return;
      }
      audioUrl := url;
      if url == "" {
        audio := null;
        return;
      }
      if audio == null {
        audio := new AudioElement(url);
      } else {
        audio.Load(url);
      }
      isPlaying := true;
      currentTime := 0.0;
      playbackRate := 1.0;
      audio.volume := AudibleVolume();
      audio.playbackRate := 1.0;
      var started := audio.Play(playAllowed);
      if !started {
        isPlaying := false;
      }
    }
  }

  /** A parent that swaps one audio source for another while the player stays
      mounted and muted: the effect as written leaves the player showing
      itself muted while the element plays at full volume. (The application's
      own screen never does this: new audio only follows new lines, which
      unmount the player first.) */
  method MutedResetAsWritten() returns (p: Player)
    ensures p.Valid()
    ensures p.isMuted && p.audio != null && p.audio.volume == 1.0
    ensures !p.VolumeInSync()
  {
    p := new Player();
    p.ChangeAudioUrl("blob:first", true);
    p.ToggleMute();
    p.ChangeAudioUrl("blob:second", true);
  }

  /** The same steps with the corrected effect keep the muted player silent. */
  method MutedResetKeepingMute() returns (p: Player)
    ensures p.Valid() && p.VolumeInSync()
    ensures p.isMuted && p.audio != null && p.audio.volume == 0.0
  {
    p := new Player();
    p.ChangeAudioUrlKeepingMute("blob:first", true);
    p.ToggleMute();
    p.ChangeAudioUrlKeepingMute("blob:second", true);
  }
}
