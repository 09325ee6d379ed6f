/**
 The parts of the browser the slideshow talks to, reduced to what it observes:
 object URLs handed out for files, and the callbacks registered with
 `setTimeout` and `requestAnimationFrame` that have not fired or been cancelled.
 */
module Host {

  /** Identifiers the browser hands out. Timer and frame-request ids are
      always positive, which is what lets the slideshow test them for truthiness. */
  type Id = n: nat | 0 < n witness 1

  /** An object URL: an opaque token naming a file's bytes until it is revoked. */
  datatype Url = Url(id: Id)

  /** A registered callback that will run the next slide step. */
  datatype Callback =
    | Frame(id: Id)             // requestAnimationFrame
    | Timeout(id: Id, ms: int)  // setTimeout with a delay in milliseconds

  /** Whether `c` is the callback that `clearTimeout(id)` (frame = false) or
      `cancelAnimationFrame(id)` (frame = true) cancels. The two id spaces are
      separate, so a timer id never cancels a frame request and vice versa. */
  predicate Cancels(frame: bool, id: Id, c: Callback) {
    c.Frame? == frame && c.id == id
  }

  /** The outstanding callbacks after cancelling the one named by `frame` and `id`. */
  function Cancel(queue: seq<Callback>, frame: bool, id: Id): (r: seq<Callback>)
    ensures |r| <= |queue|
    ensures forall c :: c in r <==> c in queue && !Cancels(frame, id, c)
    ensures (forall c :: c in queue ==> Cancels(frame, id, c)) ==> r == []
  {
    if |queue| == 0 then []
    else (if Cancels(frame, id, queue[0]) then [] else [queue[0]]) + Cancel(queue[1..], frame, id)
  }
}
