/**
 The delay between slides is shown twice: as a slider (`delay-range`) and as a
 numeric field (`delay-input`). Moving the slider copies its value into the
 field; typing into the field clamps the number and writes it into both.
 */
module Delay {
  import opened Wrappers

  /** Bounds on a delay typed into the numeric field, in milliseconds. */
  const MinDelay: int := 0
  const MaxDelay: int := 2000

  function Min(a: int, b: int): int { if a <= b then a else b }
  function Max(a: int, b: int): int { if a <= b then b else a }

  /** A typed delay forced into [MinDelay, MaxDelay]: raised to the lower bound
      first, then lowered to the upper one. */
  function Clamp(v: int): (r: int)
    ensures MinDelay <= r <= MaxDelay
    ensures MinDelay <= v <= MaxDelay ==> r == v
    ensures v < MinDelay ==> r == MinDelay
    ensures MaxDelay < v ==> r == MaxDelay
  {
    Min(MaxDelay, Max(MinDelay, v))
  }

  lemma ClampIdempotent(v: int)
    ensures Clamp(Clamp(v)) == Clamp(v)
  {
  }

  lemma ClampMonotone(a: int, b: int)
    requires a <= b
    ensures Clamp(a) <= Clamp(b)
  {
  }

  /** The values currently held by the slider and by the numeric field. */
  datatype Controls = Controls(range: int, input: int) {
    predicate Agree() { range == input }
  }

  /** The slider moved to `v`: the field is made to show the slider's value. */
  function SyncFromRange(v: int): (r: Controls)
    ensures r.Agree()
    ensures r.range == v
  {
    Controls(v, v)
  }

  /** The field was edited; `typed` is the number it now parses to, `None` for NaN.
      A number is clamped and written to both controls; NaN puts the slider's
      value back into the field and leaves the slider alone. */
  function SyncFromInput(c: Controls, typed: Option<int>): (r: Controls)
    ensures r.Agree()
    ensures typed.None? ==> r.range == c.range
    ensures typed.Some? ==> r.range == Clamp(typed.value)
    ensures typed.Some? ==> MinDelay <= r.range <= MaxDelay
  {
    match typed
    case None => c.(input := c.range)
    case Some(v) =>
      var clamped := Clamp(v);
      Controls(clamped, clamped)
  }

  /** Editing the field twice with the same text ends where editing it once did. */
  lemma SyncFromInputIdempotent(c: Controls, typed: Option<int>)
    ensures SyncFromInput(SyncFromInput(c, typed), typed) == SyncFromInput(c, typed)
  {
  }

  /** Once synchronised, re-reading the field's own value changes nothing,
      provided the slider held an in-bounds value to begin with or a number was typed. */
  lemma SyncFromInputStable(c: Controls, typed: Option<int>)
    requires typed.Some? || MinDelay <= c.range <= MaxDelay
    ensures var r := SyncFromInput(c, typed); SyncFromInput(r, Some(r.input)) == r
  {
  }
}
