/**
 The slideshow's state machine. The page's module-level variables
 (`imageEntries`, `currentIndex`, `isRunning`, `slideshowTimeout`,
 `slideshowRaf`), the DOM state the core writes (the stage image, the start
 button, the drop-zone message, the two delay controls) and the browser's
 live object URLs and outstanding callbacks form one immutable record; every
 handler is a pure function from record to record.
 */
module Slideshow {
  import opened Wrappers
  import opened Host
  import Delay
  import Loader

  /** The drop-zone message: the page's default text, or "n images ready". */
  datatype Message = DefaultText | Ready(count: nat)

  datatype State = State(
    entries: seq<Loader.Entry>,      // imageEntries
    currentIndex: nat,               // index of the entry the next step shows
    isRunning: bool,
    pendingTimeout: Option<Id>,      // slideshowTimeout
    pendingRaf: Option<Id>,          // slideshowRaf
    displayed: Option<Url>,          // the stage image's src; None once removed
    startEnabled: bool,              // !startBtn.disabled
    message: Message,
    delay: Delay.Controls,
    live: set<Url>,                  // object URLs created and not yet revoked
    queue: seq<Callback>,            // callbacks registered and not yet fired or cancelled
    nextId: Id)                      // the next id the browser hands out

  /** The page as loaded: no entries, start disabled, the delay controls
      holding the values the markup gives them. */
  function Init(range: int): (s: State)
    ensures !s.isRunning && s.entries == [] && s.queue == [] && s.live == {}
    ensures !s.startEnabled && s.displayed == None
    ensures s.currentIndex == 0 && s.pendingTimeout.None? && s.pendingRaf.None?
  {
    State([], 0, false, None, None, None, false, DefaultText,
          Delay.Controls(range, range), {}, [], 1)
  }

  /** The message shown after a non-empty batch leaves `n` entries. */
  function MessageFor(n: nat): (m: Message)
    ensures m.DefaultText? <==> n == 0
    ensures m.Ready? ==> m.count == n
  {
    if n == 0 then DefaultText else Ready(n)
  }

  /** `c` is remembered in the handle variable of its kind, so stopping can cancel it. */
  predicate Tracked(s: State, c: Callback) {
    match c
    case Frame(id) => s.pendingRaf == Some(id)
    case Timeout(id, _) => s.pendingTimeout == Some(id)
  }

  /** `c` is the kind of callback the delay `ms` asks for: a frame request when
      it is not positive, otherwise a timeout of exactly that many milliseconds. */
  predicate ScheduledFor(ms: int, c: Callback) {
    && (c.Frame? <==> ms <= 0)
    && (c.Timeout? ==> c.ms == ms)
  }

  /** `scheduleNextFrame`: register exactly one further step, chosen by the
      slider's current value. */
  function ScheduleNextFrame(s: State): (r: State)
    ensures |r.queue| == |s.queue| + 1 && r.queue[..|s.queue|] == s.queue
    ensures var c := r.queue[|s.queue|];
      && c.id == s.nextId
      && ScheduledFor(s.delay.range, c)
      && Tracked(r, c)
      && (c.Frame? ==> r.pendingTimeout == s.pendingTimeout)
      && (c.Timeout? ==> r.pendingRaf == s.pendingRaf)
    ensures s.nextId < r.nextId
    ensures r.(queue := s.queue, nextId := s.nextId, pendingTimeout := s.pendingTimeout,
               pendingRaf := s.pendingRaf) == s
  {
    var ms := s.delay.range;
    var id := s.nextId;
    if ms <= 0 then
      s.(pendingRaf := Some(id), queue := s.queue + [Frame(id)], nextId := id + 1)
    else
      s.(pendingTimeout := Some(id), queue := s.queue + [Timeout(id, ms)], nextId := id + 1)
  }

  /** `stopSlideshow`: when running, stop, cancel whatever each handle names,
      clear the stage and re-enable start iff there is something to show.
      Leaving fullscreen is left to the browser and not modelled. */
  function StopSlideshow(s: State): (r: State)
    ensures !s.isRunning ==> r == s
    ensures s.isRunning ==>
      && !r.isRunning
      && r.displayed.None?
      && r.pendingTimeout.None? && r.pendingRaf.None?
      && (r.startEnabled <==> |s.entries| > 0)
    ensures s.isRunning ==> forall c :: c in r.queue <==>
      && c in s.queue
      && !(s.pendingTimeout.Some? && Cancels(false, s.pendingTimeout.value, c))
      && !(s.pendingRaf.Some? && Cancels(true, s.pendingRaf.value, c))
    ensures r.entries == s.entries && r.currentIndex == s.currentIndex && r.live == s.live
    ensures r.delay == s.delay && r.message == s.message && r.nextId == s.nextId
  {
    if !s.isRunning then s
    else
      var q1 := if s.pendingTimeout.Some? then Cancel(s.queue, false, s.pendingTimeout.value) else s.queue;
      var q2 := if s.pendingRaf.Some? then Cancel(q1, true, s.pendingRaf.value) else q1;
      s.(isRunning := false, startEnabled := |s.entries| > 0, displayed := None,
         pendingTimeout := None, pendingRaf := None, queue := q2)
  }

  /** `showNextImage`. When idle it does nothing; with no entries it stops.
      Otherwise it shows `entries[currentIndex]`, advances the index modulo
      the list length and schedules exactly one next step. An index past the
      end makes `imageEntries[currentIndex].url` throw, which aborts the
      handler before it changes anything. */
  function ShowNextImage(s: State): (r: State)
    ensures !s.isRunning ==> r == s
    ensures s.isRunning && |s.entries| == 0 ==> r == StopSlideshow(s)
    ensures s.isRunning && 0 < |s.entries| <= s.currentIndex ==> r == s
    ensures s.isRunning && s.currentIndex < |s.entries| ==>
      && r.isRunning
      && r.displayed == Some(s.entries[s.currentIndex].url)
      && r.currentIndex == (s.currentIndex + 1) % |s.entries|
      && r.currentIndex < |s.entries|
      && |r.queue| == |s.queue| + 1 && r.queue[..|s.queue|] == s.queue
      && ScheduledFor(s.delay.range, r.queue[|s.queue|])
      && r.queue[|s.queue|].id == s.nextId
      && Tracked(r, r.queue[|s.queue|])
      && (r.queue[|s.queue|].Frame? ==> r.pendingTimeout == s.pendingTimeout)
      && (r.queue[|s.queue|].Timeout? ==> r.pendingRaf == s.pendingRaf)
      && r.(displayed := s.displayed, currentIndex := s.currentIndex, queue := s.queue,
            nextId := s.nextId, pendingTimeout := s.pendingTimeout, pendingRaf := s.pendingRaf) == s
    ensures r.entries == s.entries && r.live == s.live && r.delay == s.delay && r.message == s.message
  {
    if !s.isRunning then s
    else if |s.entries| == 0 then StopSlideshow(s)
    else if |s.entries| <= s.currentIndex then s
    else
      var shown := s.(displayed := Some(s.entries[s.currentIndex].url),
                      currentIndex := (s.currentIndex + 1) % |s.entries|);
      ScheduleNextFrame(shown)
  }

  /** `startSlideshow`, with the fullscreen request taken to settle at once.
      A no-op when already running or when there is nothing to show; otherwise
      it disables start, shows entry 0 and leaves the index at 1 mod n. */
  function StartSlideshow(s: State): (r: State)
    ensures s.isRunning || |s.entries| == 0 ==> r == s
    ensures !s.isRunning && |s.entries| > 0 ==>
      && r.isRunning
      && !r.startEnabled
      && r.displayed == Some(s.entries[0].url)
      && r.currentIndex == 1 % |s.entries|
      && |r.queue| == |s.queue| + 1 && r.queue[..|s.queue|] == s.queue
      && ScheduledFor(s.delay.range, r.queue[|s.queue|])
      && r.queue[|s.queue|].id == s.nextId
      && Tracked(r, r.queue[|s.queue|])
      && (r.queue[|s.queue|].Frame? ==> r.pendingTimeout == s.pendingTimeout)
      && (r.queue[|s.queue|].Timeout? ==> r.pendingRaf == s.pendingRaf)
      && r.(isRunning := s.isRunning, startEnabled := s.startEnabled, displayed := s.displayed,
            currentIndex := s.currentIndex, queue := s.queue, nextId := s.nextId,
            pendingTimeout := s.pendingTimeout, pendingRaf := s.pendingRaf) == s
    ensures r.entries == s.entries && r.live == s.live && r.delay == s.delay && r.message == s.message
  {
    if s.isRunning || |s.entries| == 0 then s
    else ShowNextImage(s.(isRunning := true, currentIndex := 0, startEnabled := false))
  }

  /** `revokeAll`: every entry's object URL is revoked; the entry list itself
      is left alone. Also run when the page unloads. */
  function RevokeAll(s: State): (r: State)
    ensures r.live == s.live - Loader.UrlsOf(s.entries)
    ensures forall e :: e in s.entries ==> e.url !in r.live
    ensures r.(live := s.live) == s
  {
    s.(live := s.live - Loader.UrlsOf(s.entries))
  }

  /** `handleFiles`. A missing or empty batch changes nothing. Otherwise every
      current object URL is revoked and the entry list is replaced (not
      extended) by the batch's image files in order, each under a fresh URL;
      start is enabled exactly when the new list is non-empty. The playback
      variables are left as they are, even while the slideshow runs. */
  function HandleFiles(s: State, files: Option<seq<Loader.File>>): (r: State)
    ensures files.None? || |files.value| == 0 ==> r == s
    ensures files.Some? && |files.value| > 0 ==>
      var images := Loader.ImageFiles(files.value);
      && |r.entries| == |images|
      && (forall i :: 0 <= i < |images| ==> r.entries[i].file == images[i])
      && (forall e :: e in r.entries ==> s.nextId <= e.url.id < r.nextId)
      && Loader.DistinctUrls(r.entries)
      && r.live == (s.live - Loader.UrlsOf(s.entries)) + Loader.UrlsOf(r.entries)
      && (r.startEnabled <==> |images| > 0)
      && r.message == MessageFor(|images|)
    ensures r.isRunning == s.isRunning && r.currentIndex == s.currentIndex
    ensures r.queue == s.queue && r.displayed == s.displayed && r.delay == s.delay
    ensures r.pendingTimeout == s.pendingTimeout && r.pendingRaf == s.pendingRaf
    ensures s.nextId <= r.nextId
  {
    if files.None? || |files.value| == 0 then s
    else
      var revoked := RevokeAll(s);
      var minted := Loader.Mint(Loader.ImageFiles(files.value), s.nextId);
      revoked.(entries := minted,
         live := revoked.live + Loader.UrlsOf(minted),
         nextId := s.nextId + |minted|,
         startEnabled := |minted| > 0,
         message := MessageFor(|minted|))
  }

  /** What can happen to the page. `Fired` is the browser running a callback
      it had registered; a callback that was cancelled never runs. */
  datatype Event =
    | Load(files: Option<seq<Loader.File>>)   // drop or file picker
    | RangeMoved(value: int)                  // the slider's "input" event
    | InputTyped(typed: Option<int>)          // the field's "input" event; None is NaN
    | StartClicked
    | Escape
    | Fired(callback: Callback)

  /** Runs a registered callback: it leaves the queue, then the step runs. */
  function Fire(s: State, c: Callback): (r: State)
    ensures c !in s.queue ==> r == s
  {
    if c !in s.queue then s
    else ShowNextImage(s.(queue := Cancel(s.queue, c.Frame?, c.id)))
  }

  /** The page's listeners: a drop or a file pick loads, the slider and the
      field resynchronise the delay, the start button starts, Escape stops,
      and a registered callback runs the next step. */
  function Step(s: State, e: Event): (r: State)
    ensures e.Load? ==> r.isRunning == s.isRunning && r.currentIndex == s.currentIndex
                        && r.queue == s.queue && r.delay == s.delay
    ensures e.RangeMoved? || e.InputTyped? ==> r.(delay := s.delay) == s && r.delay.Agree()
    ensures e.RangeMoved? ==> r.delay.range == e.value
    ensures e.StartClicked? && (s.isRunning || |s.entries| == 0) ==> r == s
    ensures e.StartClicked? && !s.isRunning && |s.entries| > 0 ==> r.isRunning && !r.startEnabled
    ensures e.Escape? ==> !r.isRunning && r.entries == s.entries && (s.isRunning ==> r.displayed.None?)
    ensures e.Fired? && e.callback !in s.queue ==> r == s
  {
    match e
    case Load(files) => HandleFiles(s, files)
    case RangeMoved(v) => s.(delay := Delay.SyncFromRange(v))
    case InputTyped(typed) => s.(delay := Delay.SyncFromInput(s.delay, typed))
    case StartClicked => StartSlideshow(s)
    case Escape => StopSlideshow(s)
    case Fired(c) => Fire(s, c)
  }
}
