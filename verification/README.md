# Lightning slideshow — a Dafny model of the playback core

The page lets a user drop or pick image files and then plays them full screen,
one after another, at a delay set with a slider or a numeric field. All of its
behaviour lives in `app.js`. This project models the three parts of that file
that carry logic:

- the **loader** (`handleFiles`, `revokeAll`). A non-empty batch replaces the
  entry list with the batch's image files, in order. Each file gets a fresh
  object URL and the previous URLs are revoked.
- the **delay controls** (`syncDelayFromRange`, `syncDelayFromInput`). They keep
  the slider and the field equal. A typed number is clamped to [0, 2000] ms.
- the **playback state machine** (`startSlideshow`, `showNextImage`,
  `scheduleNextFrame`, `stopSlideshow`). Each step shows the current entry,
  moves the index on modulo the list length and registers exactly one
  successor. A delay of 0 or less registers an animation frame; a positive
  delay registers a timeout.

The page's module-level variables, the DOM state the core writes, and the
browser's object URLs and outstanding callbacks form one immutable record,
`Slideshow.State`. Each handler is a pure function on it. `Slideshow.Step`
dispatches the events the page listens to. The browser's part is explicit:

- `live` is the set of object URLs not yet revoked.
- `queue` holds the callbacks registered and neither fired nor cancelled.
- `nextId` is the next identifier the browser hands out.

Because the queue is explicit, "at most one step is outstanding" is a property
proved about the handlers. The type does not assume it.
`SlideshowLaws.EveryRun` proves it for every sequence of events from a fresh
page.

Modules: `Wrappers` (Option), `Host` (browser ids, URLs and the callback
queue), `Delay`, `Loader`, `Slideshow` (state and handlers), `SlideshowLaws`
(the invariant and the multi-step results) and `Arith` (facts about remainders).

### The index bound is not an invariant of the code

`handleFiles` replaces `imageEntries` but never touches `currentIndex` or
`isRunning` (app.js:29 against app.js:77). So a batch loaded during playback
can leave the index past the end of a shorter non-empty list. The next step
then reads the `url` of a missing entry and throws. The throw happens
before anything is written or rescheduled.

The model keeps this behaviour. `ShowNextImage` leaves the state unchanged in
that case, and the callback that ran it has already left the queue. The result
is a *stall*: the slideshow is still marked running, nothing is registered, the
old image stays on the stage, and the start button is enabled but does nothing.
Escape still stops it.

The invariant is therefore split in two:

- `SlideshowLaws.Safe` holds after every event, with no exception
  (`StepKeepsSafe`, `ReplayKeepsSafe`, `EveryRun`). It covers the live URLs, the
  delay controls, the message, and at most one step outstanding, none while
  idle.
- `SlideshowLaws.Inv` adds the index bound and "a step is outstanding while
  running". Stopping restores it from any safe page (`StopRestoresInv`).

The lemmas state the break precisely:

- `SlideshowLaws.StepPreservesInv` covers every event except a load during
  playback.
- `SlideshowLaws.LoadWhileRunning` says exactly when such a load keeps the
  invariant.
- `SlideshowLaws.LoadBelowIndexStalls` and `SlideshowLaws.ShrinkingLoadStalls`
  show the stall, and show that it is reachable from a fresh page.

Whether the drop zone can receive a drop during playback depends on the page
markup, which is not part of this model.

### What loading does not do

Each batch replaces the list; it is never appended to. `app.js` has no
deduplication, no PDF pages, no paste input and no reset action, so the model
has none either.

## Model

| member | source | states |
|---|---|---|
| `Host.Cancel` | app.js:118-126 | `clearTimeout`/`cancelAnimationFrame` remove exactly the callbacks of that kind and id and keep every other callback; cancelling everything that matches leaves nothing |
| `Delay.Clamp` | app.js:53 | the stored delay always lies in [0, 2000]; it equals the input inside the bounds and the nearer bound outside them |
| `Delay.ClampIdempotent` | app.js:53 | clamping a clamped value changes nothing |
| `Delay.ClampMonotone` | app.js:53 | clamping preserves order |
| `Delay.SyncFromRange` | app.js:43-45 | after the slider moves, the field shows the slider's new value and the two controls agree |
| `Delay.SyncFromInput` | app.js:47-56 | afterwards the controls always agree; a number leaves both at its clamp in [0, 2000]; NaN leaves the slider as it was and copies it into the field |
| `Delay.SyncFromInputIdempotent` | app.js:47-56 | processing the same field text twice ends where processing it once did |
| `Delay.SyncFromInputStable` | app.js:47-56 | once synchronised, re-reading the field's own value is a fixed point |
| `Loader.ImageFiles` | app.js:29-30 | the kept files are exactly the batch's files whose type starts with "image"; there are never more of them than the batch holds |
| `Loader.ImageFilesAppend` | app.js:29-30 | filtering distributes over concatenation, so batch order is kept and nothing is repeated |
| `Loader.ImageFilesAllImages` | app.js:29-30 | a batch of images only is kept whole, in order |
| `Loader.ImageFilesNoImages` | app.js:29-30 | a batch with no image yields an empty list |
| `Loader.Mint` | app.js:31 | each kept file becomes one entry, in order, under an object URL never issued before; no two entries share a URL |
| `Slideshow.Init` | app.js:13-17 | the page starts idle at index 0: no entries, no URLs, both handles empty and nothing scheduled, start disabled, empty stage |
| `Slideshow.MessageFor` | app.js:33-39 | the drop-zone message is the default text exactly when the list is empty, otherwise the entry count |
| `Slideshow.ScheduleNextFrame` | app.js:58-65 | exactly one callback is registered under a fresh id. It is a frame request iff the slider's delay is at most 0, otherwise a timeout of that delay. Its id is stored in the matching handle variable and nothing else changes |
| `Slideshow.StopSlideshow` | app.js:107-131 | a no-op when idle. Otherwise: not running, stage cleared, both handles cleared, start enabled iff entries remain. The callbacks named by the handles are cancelled and all other state is kept |
| `Slideshow.ShowNextImage` | app.js:67-82 | a no-op when idle; a stop when the list is empty; a no-op when the index is past the end (the read throws). Otherwise it shows `entries[currentIndex]`, sets the index to `(currentIndex + 1) mod n` and appends one callback of the right kind |
| `Slideshow.StartSlideshow` | app.js:84-105 | a no-op when running or when the list is empty. Otherwise it runs with start disabled, shows entry 0, leaves the index at `1 mod n` and registers one step |
| `Slideshow.Step` | app.js:150-178 | the listeners: a load touches neither playback nor the delay; the slider and field events change only the delay and leave the controls equal; a start click does nothing while running or with no entries and otherwise starts; Escape always leaves the page idle; an unregistered callback changes nothing |
| `Slideshow.Fire` | app.js:58-65 | the browser runs only callbacks still registered: one that was cancelled or never registered changes nothing |
| `Slideshow.RevokeAll` | app.js:19-21 | every entry's object URL leaves the live set; nothing else changes |
| `Slideshow.HandleFiles` | app.js:23-41 | a missing or empty batch changes nothing. Otherwise the list becomes exactly the batch's image files, in order, under fresh distinct URLs. Old URLs are revoked and new ones become live; start is enabled and the count shown iff the list is non-empty. The playback variables are untouched |
| `SlideshowLaws.InitInv` | app.js:13-17 | the page as loaded satisfies the invariant |
| `SlideshowLaws.StopRestoresInv` | app.js:107-126 | stopping any safe page, stalled or not, leaves no callback outstanding and restores the full invariant |
| `SlideshowLaws.UnloadReleasesAll` | app.js:180 | revoking on unload releases every object URL the page holds, on any safe page |
| `SlideshowLaws.StartPreservesInv` | app.js:84-105 | starting keeps the invariant, in particular exactly one outstanding step |
| `SlideshowLaws.StartKeepsSafe` | app.js:84-105 | a start keeps the safe part of the invariant on any safe page |
| `SlideshowLaws.FirePreservesInv` | app.js:67-82 | a firing step keeps the invariant: it stops on an empty list or registers exactly one successor |
| `SlideshowLaws.FireKeepsSafe` | app.js:67-82 | a firing keeps the safe part even when the index is past the end and the step throws |
| `SlideshowLaws.LoadPreservesInvWhenIdle` | app.js:23-41 | a load while idle keeps the invariant, including "live URLs are exactly the entries' URLs" |
| `SlideshowLaws.LoadKeepsSafe` | app.js:23-41 | a load, during playback or not, keeps live URLs equal to the entries' URLs and leaves the outstanding step as it was |
| `SlideshowLaws.LoadWhileRunning` | app.js:23-41 | a load during playback keeps the invariant iff the new list is empty or still reaches the current index |
| `SlideshowLaws.StepPreservesInv` | app.js:150-178 | every event except a load during playback keeps the invariant: one outstanding step exactly while running, the index in bounds, controls equal, no URL leaked |
| `SlideshowLaws.StepKeepsSafe` | app.js:150-178 | every event, a load during playback included, keeps the safe part of the invariant |
| `SlideshowLaws.ReplayKeepsSafe` | app.js:150-178 | any sequence of events keeps the safe part of the invariant |
| `SlideshowLaws.EveryRun` | app.js:13-178 | on every run from a fresh page: at most one step outstanding and none while idle; live URLs are exactly the entries'; Escape then leaves an idle page with nothing outstanding that satisfies the full invariant |
| `SlideshowLaws.NothingFiresAfterStop` | app.js:118-126 | after a stop on any safe page, no callback the browser could still deliver changes anything |
| `SlideshowLaws.StartButtonMatchesGuard` | app.js:85-113 | while idle, the start button is enabled exactly when `startSlideshow` would start |
| `SlideshowLaws.FireNextAdvances` | app.js:77-81 | one step shows the entry at the index, wraps the index forward by one and registers its successor, on the same list and delay |
| `SlideshowLaws.RunKeepsAdvancing` | app.js:77-81 | over any number of steps the slideshow keeps running on the same list and delay with one step outstanding |
| `SlideshowLaws.RunCycles` | app.js:77-81 | after k steps the index has taken k wrapping increments and the last step showed the entry one increment earlier |
| `SlideshowLaws.StartThenRun` | app.js:89-104 | after a start and k further steps, entry `k mod n` is on the stage and the index is `(k + 1) mod n`, so the shown indices run 0, 1, ..., n-1, 0, ... |
| `SlideshowLaws.StalledStaysStalled` | app.js:77-81 | a running slideshow with nothing registered is never moved by any callback |
| `SlideshowLaws.LoadBelowIndexStalls` | app.js:28-80 | during playback, a load that leaves at least one image but no more than the index makes the next step stall. The old image stays shown and start is enabled yet inert |
| `SlideshowLaws.LoadWithoutImagesStops` | app.js:28-74 | during playback, a non-empty batch with no image empties the list and disables start; the next step then stops the slideshow instead of stalling |
| `SlideshowLaws.StartOnThree` | app.js:84-104 | loading three images into a fresh page and starting leaves a well-formed running page with index 1 |
| `SlideshowLaws.ShrinkingLoadStalls` | app.js:77-80 | from a fresh page, three images, start, one step, then a one-image load reaches the stall |

## Left out

- Slideshow.Init: three initial values come from the page markup, which is not part of this model, rather than from app.js:13-17. They are the start button disabled, no image on the stage, and the field showing the slider's value. `InitInv`, `StartOnThree`, `ShrinkingLoadStalls` and `EveryRun` rely on them.
- The DOM wiring is presentation and is not modelled: drag highlighting, default-prevention, opening the file picker, and the loader/stage visibility classes (app.js:1-11, 92-93, 114-115, 133-152, 159-162). The drop and change listeners' calls of `handleFiles` (app.js:153-156, 164-167) are modelled as the `Load` event of `Slideshow.Step`.
- The Norwegian message text and its plural ending (app.js:39) are not modelled. Only the count shown is.
- Fullscreen enter and exit (app.js:95-102, 128-130) are not modelled. They are best-effort browser calls whose failures are swallowed.
- Service-worker registration (app.js:182-188) is browser I/O and is not modelled.
- Real time is not modelled. Callbacks fire only when an event says so, so elapsed delays and frame timing are not modelled.
- `Number()` parsing is not modelled. The field's text arrives already parsed, as an integer or `None` for NaN. Fractional delays are not modelled, and neither is `Number("")` being 0.
- The slider's own `min`, `max` and `step` come from the markup, which is not part of this model. The slider value is any integer.
- Files carry only a name and a MIME type. Size, bytes and the `File` object's other fields are not used by the core.
- Timer ids, frame ids and object URLs come from one counter in the model. The browser keeps separate counters; only uniqueness and positivity matter here. Ids are positive, so `if (slideshowTimeout)` is modelled as a presence test.
- StartSlideshow: the `await` on the fullscreen request (app.js:97) is taken to settle before any other event. Interleavings are not modelled: an Escape and a second start during that await would let two step chains run at once.
- Step: a click is delivered to the start button even when it is disabled. This is harmless because, while idle, the button's state equals `startSlideshow`'s own guard (`StartButtonMatchesGuard`), and while running the guard makes a start a no-op.
