/**
 * The teleprompter screen (components/Teleprompter.tsx). The word list is
 * derived once from the script; the controller's state is the index of the
 * current word, whether the word timer runs and the scroll speed; the
 * audio recorder hook is owned by the screen. The start and stop handlers
 * and the word timer's tick are atomic methods of a class holding this
 * state, specified by pure transitions on the (index, scrolling) pair; what
 * the screen shows is a set of pure derivations from that state.
 */
module Teleprompter {
  import opened Wrappers
  import opened Text
  import opened AudioRecorder

  // ---------------------------------------------------------------------
  // The word-advance state machine

  /** `currentIndex` and `isScrolling`. */
  datatype Playback = Playback(index: int, scrolling: bool)

  /** Before the first start no word is current and the timer is off. */
  const Idle := Playback(-1, false)

  /** `handleStart` moves to the first word and starts the timer, whatever
      becomes of the recording. */
  const Running := Playback(0, true)

  /** `handleStop` stops the timer and keeps the current word. */
  function Halt(p: Playback): Playback {
    p.(scrolling := false)
  }

  /** One firing of the word timer: nothing while the timer is off; at or
      past the last word, stop; otherwise move to the next word. */
  function Advance(p: Playback, wordCount: nat): Playback {
    if !p.scrolling then p
    else if p.index >= wordCount - 1 then Halt(p)
    else p.(index := p.index + 1)
  }

  /** The state after `k` firings of the word timer. */
  function AdvanceTimes(p: Playback, wordCount: nat, k: nat): Playback {
    if k == 0 then p else Advance(AdvanceTimes(p, wordCount, k - 1), wordCount)
  }

  function Min(a: int, b: int): int {
    if a <= b then a else b
  }

  function Max(a: int, b: int): int {
    if a <= b then b else a
  }

  /** The states the handlers can reach: the index is -1 or a position
      below the word count (position 0 also for an empty word list, where
      start puts it), and the timer runs only once a word position is
      set. */
  predicate Reachable(p: Playback, wordCount: nat) {
    && -1 <= p.index < Max(wordCount, 1)
    && (p.scrolling ==> p.index >= 0)
  }

  /** A tick with the timer off changes nothing; with the timer on it adds
      exactly one to the index before the last word, and at or past the
      last word it keeps the index and stops. */
  lemma AdvanceStep(p: Playback, wordCount: nat)
    ensures !p.scrolling ==> Advance(p, wordCount) == p
    ensures p.scrolling && p.index < wordCount - 1 <==>
      Advance(p, wordCount) == Playback(p.index + 1, true)
    ensures p.scrolling && p.index >= wordCount - 1 <==>
      p.scrolling && Advance(p, wordCount) == Playback(p.index, false)
  {
  }

  /** Every handler keeps the state reachable; a tick never decreases the
      index. */
  lemma HandlersKeepReachable(p: Playback, wordCount: nat)
    requires Reachable(p, wordCount)
    ensures Reachable(Running, wordCount)
    ensures Reachable(Halt(p), wordCount)
    ensures Reachable(Advance(p, wordCount), wordCount)
    ensures Advance(p, wordCount).index >= p.index
  {
  }

  /** After start and `k` ticks, a script with words is at word
      min(k, wordCount - 1) and still scrolling exactly while k is below
      the word count; an empty script stays at position 0 (past its last
      word) and stops at the first tick. */
  lemma {:induction false} RunFromStart(wordCount: nat, k: nat)
    ensures AdvanceTimes(Running, wordCount, k) ==
      if wordCount == 0 then Playback(0, k == 0)
      else Playback(Min(k, wordCount - 1), k < wordCount)
  {
    if k > 0 {
      RunFromStart(wordCount, k - 1);
    }
  }

  /** Along a run from start the index never decreases and never passes
      the last word of a non-empty script. */
  lemma RunIsMonotone(wordCount: nat, j: nat, k: nat)
    requires j <= k
    ensures AdvanceTimes(Running, wordCount, j).index <= AdvanceTimes(Running, wordCount, k).index
    ensures wordCount > 0 ==> AdvanceTimes(Running, wordCount, k).index <= wordCount - 1
  {
    RunFromStart(wordCount, j);
    RunFromStart(wordCount, k);
  }

  // ---------------------------------------------------------------------
  // What the screen shows

  /** One word as rendered, and whether it is highlighted as active. */
  datatype WordView = WordView(text: string, active: bool)

  /** The rendered word list: the word whose position equals the current
      index is the active one. */
  function RenderWords(words: seq<string>, current: int): (views: seq<WordView>)
    ensures |views| == |words|
    ensures forall i :: 0 <= i < |views| ==> views[i].text == words[i]
  {
    seq(|words|, i requires 0 <= i < |words| => WordView(words[i], i == current))
  }

  function CountActive(views: seq<WordView>): nat {
    if views == [] then 0 else (if views[0].active then 1 else 0) + CountActive(views[1..])
  }

  lemma {:induction false} CountActiveAt(views: seq<WordView>, current: int)
    requires forall i :: 0 <= i < |views| ==> (views[i].active <==> i == current)
    ensures CountActive(views) == if 0 <= current < |views| then 1 else 0
  {
    if views != [] {
      CountActiveAt(views[1..], current - 1);
    }
  }

  /** Exactly one word is active when the index is a word position, and
      none otherwise (in particular none before the first start). */
  lemma ActiveWordCount(words: seq<string>, current: int)
    ensures CountActive(RenderWords(words, current)) == if 0 <= current < |words| then 1 else 0
    ensures 0 <= current < |words| ==> RenderWords(words, current)[current].active
  {
    CountActiveAt(RenderWords(words, current), current);
  }

  /** The word list replaces the placeholder once a run has started. */
  predicate ShowsWords(p: Playback) {
    p.scrolling || p.index != -1
  }

  /** Stopping keeps the words on screen: in a reachable state the words
      are shown exactly when a word position is set, and stop keeps it. */
  lemma StopKeepsWords(p: Playback, wordCount: nat)
    requires Reachable(p, wordCount)
    ensures ShowsWords(p) <==> p.index != -1
    ensures ShowsWords(Halt(p)) == ShowsWords(p)
    ensures !ShowsWords(Idle) && ShowsWords(Running)
  {
  }

  /** `canRecord`. */
  predicate CanRecord(status: RecordingStatus) {
    status == Inactive || status == Stopped
  }

  datatype Button = StartButton | StopButton

  /** The record/stop button. */
  function ControlButton(status: RecordingStatus): Button {
    if CanRecord(status) then StartButton else StopButton
  }

  /** The speed slider's `disabled` flag. */
  predicate SpeedSliderDisabled(status: RecordingStatus) {
    status == Recording
  }

  /** The download link is rendered when the audio URL is truthy: not
      null and not the empty string. */
  predicate ShowsDownload(audioUrl: Option<string>) {
    audioUrl.Some? && audioUrl.value != ""
  }

  /** The button follows the recorder: a consistent hook never offers
      start while its media recorder is running; after a start the stop
      button is shown exactly when recording was already on or has just
      begun; the stop event and the initial state offer start. */
  lemma ButtonFollowsRecorder(s: Snapshot, outcome: StartOutcome, url: string)
    ensures Consistent(s) && s.recorder.IsRecording() ==> ControlButton(s.status) == StopButton
    ensures ControlButton(AfterStart(s, outcome).status) == StopButton <==>
      (s.status == Recording || outcome == Started)
    ensures ControlButton(AfterStopEvent(s, url).status) == StartButton
    ensures ControlButton(InitialSnapshot.status) == StartButton
  {
  }

  /** The speed slider is locked exactly while the stop button is shown. */
  lemma SliderLockedWithStopButton(status: RecordingStatus)
    ensures SpeedSliderDisabled(status) <==> ControlButton(status) == StopButton
  {
  }

  /** The download link over the recorder's lifecycle: absent at first,
      shown once the stop event has published an object URL, and hidden
      again by every start that gets past the device request; a start
      that is ignored or fails at the device request leaves it as it
      was. */
  lemma DownloadFollowsRecording(s: Snapshot, outcome: StartOutcome, url: string)
    requires url != []
    ensures !ShowsDownload(InitialSnapshot.audioUrl)
    ensures ShowsDownload(AfterStopEvent(s, url).audioUrl)
    ensures s.status != Recording && outcome != DeviceUnavailable ==>
      !ShowsDownload(AfterStart(s, outcome).audioUrl)
    ensures s.status == Recording || outcome == DeviceUnavailable ==>
      ShowsDownload(AfterStart(s, outcome).audioUrl) == ShowsDownload(s.audioUrl)
  {
  }

  // ---------------------------------------------------------------------
  // The controller

  class TeleprompterScreen {
    const words: seq<string>
    const recorder: AudioRecorderHook
    var scrollSpeed: real
    var currentIndex: int
    var isScrolling: bool

    function State(): Playback
      reads this
    {
      Playback(currentIndex, isScrolling)
    }

    ghost predicate Valid()
      reads this, recorder
    {
      Reachable(State(), |words|) && recorder.Valid()
    }

    /** A freshly mounted screen: the script's words, no current word, the
        timer off, 2 words per second, and a fresh recorder hook. */
    constructor (script: string)
      ensures Valid() && fresh(recorder)
      ensures words == Tokenize(script)
      ensures State() == Idle && scrollSpeed == 2.0
      ensures recorder.State() == InitialSnapshot
    {
      words := Tokenize(script);
      scrollSpeed := 2.0;
      currentIndex := -1;
      isScrolling := false;
      recorder := new AudioRecorderHook();
    }

    /** `handleStop`: tell the recorder to stop and stop the timer. */
    method HandleStop()
      requires Valid()
      modifies this, recorder
      ensures Valid()
      ensures State() == Halt(old(State())) && scrollSpeed == old(scrollSpeed)
      ensures recorder.State() == old(recorder.State()).(recorder := StopCommand(old(recorder.recorder)))
    {
      var _ := recorder.StopRecording();
      isScrolling := false;
    }

    /** `handleStart`: ask the recorder to start, then move to the first
        word and start the timer without waiting for the recording. */
    method HandleStart(outcome: StartOutcome)
      requires Valid()
      modifies this, recorder
      ensures Valid()
      ensures State() == Running && scrollSpeed == old(scrollSpeed)
      ensures recorder.State() == AfterStart(old(recorder.State()), outcome)
    {
      recorder.StartRecording(outcome);
      currentIndex := 0;
      isScrolling := true;
    }

    /** One firing of the word timer; at the last word it runs
        `handleStop`. */
    method Tick()
      requires Valid()
      modifies this, recorder
      ensures Valid()
      ensures State() == Advance(old(State()), |words|) && scrollSpeed == old(scrollSpeed)
      ensures recorder.State() ==
        if old(isScrolling) && old(currentIndex) >= |words| - 1
        then old(recorder.State()).(recorder := StopCommand(old(recorder.recorder)))
        else old(recorder.State())
    {
      if !isScrolling {
        return;
      }
      if currentIndex >= |words| - 1 {
        HandleStop();
      } else {
        currentIndex := currentIndex + 1;
      }
    }

    /** The speed slider's change event, which the browser delivers only
        while the slider is enabled. */
    method ChangeSpeed(value: real)
      requires Valid()
      modifies this`scrollSpeed
      ensures Valid()
      ensures scrollSpeed == if SpeedSliderDisabled(recorder.status) then old(scrollSpeed) else value
    {
      if !SpeedSliderDisabled(recorder.status) {
        scrollSpeed := value;
      }
    }
  }
}
