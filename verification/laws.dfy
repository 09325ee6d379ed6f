/**
 What the slideshow keeps true across events, and what it does over a run
 of timer steps.
 */
module SlideshowLaws {
  import opened Wrappers
  import opened Host
  import Delay
  import Loader
  import opened Slideshow
  import Arith

  /** What every event keeps, a load during playback included. */
  predicate Safe(s: State) {
    // exactly the entries' object URLs are live, each held by one entry, all already issued
    && s.live == Loader.UrlsOf(s.entries)
    && Loader.DistinctUrls(s.entries)
    && (forall i :: 0 <= i < |s.entries| ==> s.entries[i].url.id < s.nextId)
    // the two delay controls show the same value
    && s.delay.Agree()
    // message and start button follow the entry list
    && s.message == MessageFor(|s.entries|)
    && (!s.isRunning ==> (s.startEnabled <==> |s.entries| > 0))
    // at most one step is outstanding, none while idle, and stop can name it
    && |s.queue| <= 1
    && (!s.isRunning ==> s.queue == [])
    && (forall i :: 0 <= i < |s.queue| ==> s.queue[i].id < s.nextId && Tracked(s, s.queue[i]))
    && (s.displayed.Some? <==> s.isRunning)
  }

  /** The page's standing invariant as long as no load shortens the list
      under a running playback: while running, a step is always outstanding
      and the next entry to show exists. */
  predicate Inv(s: State) {
    && Safe(s)
    && (s.isRunning ==> |s.queue| == 1)
    && (s.isRunning && |s.entries| > 0 ==> s.currentIndex < |s.entries|)
  }

  lemma InitInv(range: int)
    ensures Inv(Init(range))
  {
  }

  /** Stopping cancels the step outstanding, if any, and restores the full
      invariant, whatever happened before; this is how Escape ends a stall. */
  lemma StopRestoresInv(s: State)
    requires Safe(s)
    ensures StopSlideshow(s).queue == []
    ensures Inv(StopSlideshow(s))
  {
    if s.isRunning && |s.queue| == 1 {
      var c := s.queue[0];
      assert Tracked(s, c);
    }
  }

  /** Unloading the page releases every object URL the page still holds. */
  lemma UnloadReleasesAll(s: State)
    requires Safe(s)
    ensures RevokeAll(s).live == {}
  {
  }

  lemma StartPreservesInv(s: State)
    requires Inv(s)
    ensures Inv(StartSlideshow(s))
  {
  }

  /** Starting an idle page is a start from the full invariant. */
  lemma StartKeepsSafe(s: State)
    requires Safe(s)
    ensures Safe(StartSlideshow(s))
  {
    if !s.isRunning {
      StartPreservesInv(s);
    }
  }

  /** A registered step firing keeps the invariant: it either stops on an
      empty list or shows the next entry and registers its single successor. */
  lemma FirePreservesInv(s: State, c: Callback)
    requires Inv(s)
    ensures Inv(Fire(s, c))
  {
    FireKeepsSafe(s, c);
    if c in s.queue {
      var u := s.(queue := Cancel(s.queue, c.Frame?, c.id));
      assert u.queue == [];
      if |s.entries| == 0 {
        StopRestoresInv(u);
      } else {
        assert u.currentIndex < |u.entries|;
      }
    }
  }

  /** A firing keeps what every event keeps, even on a stalled page or one
      whose index is past the end. */
  lemma FireKeepsSafe(s: State, c: Callback)
    requires Safe(s)
    ensures Safe(Fire(s, c))
  {
    if c in s.queue {
      var u := s.(queue := Cancel(s.queue, c.Frame?, c.id));
      assert u.queue == [];
      if |s.entries| == 0 {
        StopRestoresInv(u);
      }
    }
  }

  lemma LoadPreservesInvWhenIdle(s: State, files: Option<seq<Loader.File>>)
    requires Inv(s) && !s.isRunning
    ensures Inv(HandleFiles(s, files))
  {
  }

  /** A load keeps what every event keeps, whether or not playback runs. */
  lemma LoadKeepsSafe(s: State, files: Option<seq<Loader.File>>)
    requires Safe(s)
    ensures Safe(HandleFiles(s, files))
  {
    if files.Some? && |files.value| > 0 {
      var r := HandleFiles(s, files);
      assert r.live == Loader.UrlsOf(r.entries);
      forall i | 0 <= i < |r.entries|
        ensures r.entries[i].url.id < r.nextId
      {
        assert r.entries[i] in r.entries;
      }
      assert forall i :: 0 <= i < |r.queue| ==> r.queue[i].id < r.nextId && Tracked(r, r.queue[i]);
    }
  }

  /** While running, a load keeps the invariant exactly when the new list is
      empty or still reaches the current index; the code does not reset the
      index, so a shorter list can leave it pointing past the end. */
  lemma LoadWhileRunning(s: State, files: Option<seq<Loader.File>>)
    requires Inv(s) && s.isRunning
    ensures var r := HandleFiles(s, files);
      Inv(r) <==> |r.entries| == 0 || s.currentIndex < |r.entries|
  {
  }

  /** Every event other than a load during playback preserves the invariant. */
  lemma StepPreservesInv(s: State, e: Event)
    requires Inv(s)
    requires !(e.Load? && s.isRunning)
    ensures Inv(Step(s, e))
  {
    match e
    case Load(files) => LoadPreservesInvWhenIdle(s, files);
    case RangeMoved(_) =>
    case InputTyped(_) =>
    case StartClicked => StartPreservesInv(s);
    case Escape => StopRestoresInv(s);
    case Fired(c) => FirePreservesInv(s, c);
  }

  /** Every event, with no exception, keeps the safe part of the invariant. */
  lemma StepKeepsSafe(s: State, e: Event)
    requires Safe(s)
    ensures Safe(Step(s, e))
  {
    match e
    case Load(files) => LoadKeepsSafe(s, files);
    case RangeMoved(_) =>
    case InputTyped(_) =>
    case StartClicked => StartKeepsSafe(s);
    case Escape => StopRestoresInv(s);
    case Fired(c) => FireKeepsSafe(s, c);
  }

  /** The page after a sequence of events, in order. */
  function Replay(s: State, es: seq<Event>): State
    decreases |es|
  {
    if |es| == 0 then s else Replay(Step(s, es[0]), es[1..])
  }

  lemma {:induction false} ReplayKeepsSafe(s: State, es: seq<Event>)
    requires Safe(s)
    ensures Safe(Replay(s, es))
    decreases |es|
  {
    if |es| > 0 {
      StepKeepsSafe(s, es[0]);
      ReplayKeepsSafe(Step(s, es[0]), es[1..]);
    }
  }

  /** On every run of the page, whatever the user does and in whatever order:
      at most one step is outstanding, none while idle; the live object URLs
      are exactly the entries'; and Escape then leaves an idle page with
      nothing outstanding that satisfies the full invariant. */
  lemma EveryRun(range: int, es: seq<Event>)
    ensures var s := Replay(Init(range), es);
      && Safe(s)
      && |s.queue| <= 1 && (!s.isRunning ==> s.queue == [])
      && s.live == Loader.UrlsOf(s.entries)
      && Inv(Step(s, Escape)) && Step(s, Escape).queue == []
  {
    InitInv(range);
    ReplayKeepsSafe(Init(range), es);
    StopRestoresInv(Replay(Init(range), es));
  }

  /** After stop no step can run any more: every callback firing is a no-op. */
  lemma NothingFiresAfterStop(s: State, c: Callback)
    requires Safe(s)
    ensures Fire(StopSlideshow(s), c) == StopSlideshow(s)
  {
  }

  /** When idle, the start button is enabled exactly when clicking it would
      start the slideshow. */
  lemma StartButtonMatchesGuard(s: State)
    requires Inv(s) && !s.isRunning
    ensures s.startEnabled <==> StartSlideshow(s).isRunning
  {
  }

  /** The browser runs the outstanding step, if there is one. */
  function FireNext(s: State): State {
    if |s.queue| == 0 then s else Fire(s, s.queue[0])
  }

  /** `k` consecutive timer or frame steps with no other event in between. */
  function Run(s: State, k: nat): State
    decreases k
  {
    if k == 0 then s else Run(FireNext(s), k - 1)
  }

  /** What a step needs in order to advance: the slideshow runs, the list is
      non-empty, the index points into it and exactly one step is registered. */
  predicate Advancing(s: State) {
    s.isRunning && 0 < |s.entries| && s.currentIndex < |s.entries| && |s.queue| == 1
  }

  lemma InvAdvancing(s: State)
    requires Inv(s) && s.isRunning && |s.entries| > 0
    ensures Advancing(s)
  {
  }

  /** One step of a running slideshow shows the entry at the index, moves the
      index on by one, wrapping at the end of the list, and registers its successor. */
  lemma FireNextAdvances(s: State)
    requires Advancing(s)
    ensures var t := FireNext(s);
      && Advancing(t)
      && t.entries == s.entries && t.delay == s.delay
      && t.displayed == Some(s.entries[s.currentIndex].url)
      && t.currentIndex == (s.currentIndex + 1) % |s.entries|
  {
  }

  /** A playback that can advance keeps advancing, on the same list and delay. */
  lemma {:induction false} RunKeepsAdvancing(s: State, k: nat)
    requires Advancing(s)
    ensures var t := Run(s, k);
      Advancing(t) && t.entries == s.entries && t.delay == s.delay
    decreases k
  {
    if k > 0 {
      var u := FireNext(s);
      FireNextAdvances(s);
      RunKeepsAdvancing(u, k - 1);
      assert Run(s, k) == Run(u, k - 1);
    }
  }

  /** Playback walks the list cyclically: after `k` steps the index has taken
      `k` wrapping increments, and the last step showed the entry one
      increment before. */
  lemma {:induction false} RunCycles(s: State, k: nat)
    requires Advancing(s)
    ensures Run(s, k).currentIndex == Arith.Walk(s.currentIndex, k, |s.entries|)
    ensures k > 0 ==> Run(s, k).displayed == Some(s.entries[Arith.Walk(s.currentIndex, k - 1, |s.entries|)].url)
    decreases k
  {
    if k > 0 {
      var n := |s.entries|;
      var u := FireNext(s);
      FireNextAdvances(s);
      RunCycles(u, k - 1);
      assert Run(s, k) == Run(u, k - 1);
      assert Arith.Walk(s.currentIndex, k, n) == Arith.Walk(u.currentIndex, k - 1, n);
      if k > 1 {
        assert Arith.Walk(s.currentIndex, k - 1, n) == Arith.Walk(u.currentIndex, k - 2, n);
      }
    }
  }

  lemma StartThenRun(s: State, k: nat)
    requires Inv(s) && !s.isRunning && |s.entries| > 0
    ensures var t := Run(StartSlideshow(s), k);
      && t.isRunning
      && t.displayed == Some(s.entries[k % |s.entries|].url)
      && t.currentIndex == (k + 1) % |s.entries|
  {
    var n := |s.entries|;
    var u := StartSlideshow(s);
    assert u.entries == s.entries && u.currentIndex == 1 % n && u.displayed == Some(s.entries[0].url);
    StartPreservesInv(s);
    InvAdvancing(u);
    RunKeepsAdvancing(u, k);
    RunCycles(u, k);
    Arith.WalkFromOne(k, n);
    if k == 0 {
      assert Run(u, k) == u;
    }
  }

  /** A running slideshow with nothing registered never moves again on its own. */
  predicate Stalled(s: State) {
    s.isRunning && s.queue == []
  }

  lemma StalledStaysStalled(s: State, c: Callback)
    requires Stalled(s)
    ensures Fire(s, c) == s
  {
  }

  /** A load during playback that leaves no more images than the current
      index makes the next step throw on the missing entry: the slideshow is
      left running with nothing registered, the old image still on the stage,
      and a start button that is enabled but does nothing. */
  lemma LoadBelowIndexStalls(s: State, files: seq<Loader.File>)
    requires Advancing(s)
    requires 0 < |Loader.ImageFiles(files)| <= s.currentIndex
    ensures var t := FireNext(HandleFiles(s, Some(files)));
      && Stalled(t)
      && t.displayed == s.displayed
      && t.startEnabled && StartSlideshow(t) == t
  {
  }

  /** A load during playback whose batch holds no image empties the list and
      disables start; the next step then finds the list empty and stops,
      so this case does not stall. */
  lemma LoadWithoutImagesStops(s: State, files: seq<Loader.File>)
    requires Advancing(s)
    requires 0 < |files| && Loader.ImageFiles(files) == []
    ensures var l := HandleFiles(s, Some(files));
      && l.entries == [] && !l.startEnabled && l.isRunning
      && var t := FireNext(l);
      && !t.isRunning && !Stalled(t) && !t.startEnabled
      && t.displayed.None? && t.queue == []
  {
  }

  /** Loading three images into a fresh page and starting shows the first. */
  lemma StartOnThree(range: int, a: Loader.File, b: Loader.File, c: Loader.File)
    requires Loader.IsImage(a) && Loader.IsImage(b) && Loader.IsImage(c)
    ensures var s0 := StartSlideshow(HandleFiles(Init(range), Some([a, b, c])));
      Inv(s0) && Advancing(s0) && |s0.entries| == 3 && s0.currentIndex == 1
  {
    Loader.ImageFilesAllImages([a, b, c]);
    var init := Init(range);
    InitInv(range);
    LoadPreservesInvWhenIdle(init, Some([a, b, c]));
    var loaded := HandleFiles(init, Some([a, b, c]));
    assert |loaded.entries| == 3;
    StartPreservesInv(loaded);
    InvAdvancing(StartSlideshow(loaded));
  }

  /** The stall is reachable from a fresh page, whatever the slider holds:
      load three images, start, let one step pass (the index is now 2), then
      load a single image. */
  lemma ShrinkingLoadStalls(range: int, a: Loader.File, b: Loader.File, c: Loader.File)
    requires Loader.IsImage(a) && Loader.IsImage(b) && Loader.IsImage(c)
    ensures var s1 := Run(StartSlideshow(HandleFiles(Init(range), Some([a, b, c]))), 1);
      && Inv(s1) && s1.currentIndex == 2
      && Stalled(FireNext(HandleFiles(s1, Some([a]))))
  {
    var s0 := StartSlideshow(HandleFiles(Init(range), Some([a, b, c])));
    StartOnThree(range, a, b, c);
    FirePreservesInv(s0, s0.queue[0]);
    FireNextAdvances(s0);
    var s1 := Run(s0, 1);
    assert s1 == FireNext(s0);
    Loader.ImageFilesAllImages([a]);
    LoadBelowIndexStalls(s1, [a]);
  }
}
