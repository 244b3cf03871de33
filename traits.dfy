/** The X-axis abstraction of the time-series widget: turning an X value into
    a plot coordinate relative to an origin that is captured lazily, on the
    first value ever normalised through a given origin slot.

    Two implementations exist: monotonic-clock instants, which fill an empty
    slot on first use and otherwise report the seconds elapsed since the
    origin, and plain numbers, which are their own coordinate and never look
    at the slot. */
module Traits {

  datatype Option<T> = None | Some(value: T)

  /** A point of the monotonic clock, counted in whole nanoseconds. */
  type Instant = int

  const NANOS_PER_SEC: int := 1_000_000_000

  /** The length of the clock interval from `origin` to `x`, in seconds,
      computed exactly. */
  function SecsSince(x: Instant, origin: Instant): (secs: real)
    requires origin <= x
    ensures secs >= 0.0
    ensures secs * NANOS_PER_SEC as real == (x - origin) as real
    ensures secs == 0.0 <==> x == origin
  {
    (x - origin) as real / NANOS_PER_SEC as real
  }

  /** `to_f64` for instants, as a value: the plot coordinate of `x` and the
      contents of the origin slot after the call. An empty slot is filled
      with `x`; a filled one is left as it is, and the coordinate is the
      time elapsed since the origin it holds. */
  function InstantToF64(x: Instant, origin: Option<Instant>): (r: (real, Option<Instant>))
    requires origin.Some? ==> origin.value <= x
    ensures r.1.Some?
    ensures origin.Some? ==> r.1 == origin
    ensures origin.None? ==> r.1 == Some(x) && r.0 == 0.0
    ensures r.1.value <= x && r.0 >= 0.0
    ensures r.0 * NANOS_PER_SEC as real == (x - r.1.value) as real
  {
    match origin
    case Some(o) => (SecsSince(x, o), origin)
    case None => (0.0, Some(x))
  }

  /** `to_f64` for plain numbers: the value is its own coordinate, and the
      origin slot, whatever it holds, comes back untouched. */
  function F64ToF64(x: real, origin: Option<real>): (r: (real, Option<real>))
    ensures r.0 == x
    ensures r.1 == origin
  {
    (x, origin)
  }

  /** The persistent origin slot that a plot hands to every `to_f64` call
      on instants. */
  class OriginSlot {
    var origin: Option<Instant>

    constructor ()
      ensures origin == None
    {
      origin := None;
    }

    method ToF64(x: Instant) returns (coord: real)
      requires origin.Some? ==> origin.value <= x
      modifies this
      ensures (coord, origin) == InstantToF64(x, old(origin))
    {
      if origin.Some? {
        coord := SecsSince(x, origin.value);
      } else {
        origin := Some(x);
        coord := 0.0;
      }
    }
  }

  /** Normalising the origin itself gives coordinate zero. */
  lemma OriginIsZero(o: Instant)
    ensures InstantToF64(o, Some(o)) == (0.0, Some(o))
  {
  }

  // ---- A sequence of calls that share one origin slot ----

  /** The origin a slot holds after the instants `xs` have been normalised
      through it, one after another: the one it already held, or else the
      first instant of `xs`. */
  function EstablishedOrigin(xs: seq<Instant>, origin: Option<Instant>): Option<Instant>
  {
    if origin.Some? || xs == [] then origin else Some(xs[0])
  }

  /** No instant of `xs` lies before the origin the slot ends up with; the
      elapsed time of each call is then well defined. */
  predicate NotBeforeOrigin(xs: seq<Instant>, origin: Option<Instant>)
  {
    var o := EstablishedOrigin(xs, origin);
    o.Some? ==> forall i | 0 <= i < |xs| :: o.value <= xs[i]
  }

  /** After the first call the slot already holds the final origin, so the
      remaining instants are still admissible for it. */
  lemma RestNotBeforeOrigin(xs: seq<Instant>, origin: Option<Instant>)
    requires NotBeforeOrigin(xs, origin)
    requires xs != []
    ensures var o := InstantToF64(xs[0], origin).1;
      EstablishedOrigin(xs[1..], o) == o == EstablishedOrigin(xs, origin) &&
      NotBeforeOrigin(xs[1..], o)
  {
  }

  /** Normalises every instant of `xs` in order through one slot, giving the
      coordinates and the final contents of the slot. */
  function InstantsToF64(xs: seq<Instant>, origin: Option<Instant>): (r: (seq<real>, Option<Instant>))
    requires NotBeforeOrigin(xs, origin)
    ensures |r.0| == |xs|
    decreases |xs|
  {
    if xs == [] then ([], origin)
    else
      var (c, o) := InstantToF64(xs[0], origin);
      RestNotBeforeOrigin(xs, origin);
      var (cs, o') := InstantsToF64(xs[1..], o);
      ([c] + cs, o')
  }

  /** Over any sequence of calls the slot is filled at most once: afterwards
      it holds the origin it already had, or else the very first instant
      ever passed, and it never changes again. */
  lemma {:induction false} OriginSetOnce(xs: seq<Instant>, origin: Option<Instant>)
    requires NotBeforeOrigin(xs, origin)
    ensures InstantsToF64(xs, origin).1 == EstablishedOrigin(xs, origin)
    ensures origin.Some? ==> InstantsToF64(xs, origin).1 == origin
    ensures origin.None? && xs != [] ==> InstantsToF64(xs, origin).1 == Some(xs[0])
    decreases |xs|
  {
    if xs != [] {
      var o := InstantToF64(xs[0], origin).1;
      RestNotBeforeOrigin(xs, origin);
      OriginSetOnce(xs[1..], o);
    }
  }

  /** Every coordinate produced through one slot is the time elapsed since
      the same single origin, so all lines sharing the slot share one time
      base. */
  lemma {:induction false} SharedTimeBase(xs: seq<Instant>, origin: Option<Instant>, i: nat)
    requires NotBeforeOrigin(xs, origin)
    requires i < |xs|
    ensures EstablishedOrigin(xs, origin).Some?
    ensures InstantsToF64(xs, origin).0[i] * NANOS_PER_SEC as real
         == (xs[i] - EstablishedOrigin(xs, origin).value) as real
    decreases |xs|
  {
    var o := InstantToF64(xs[0], origin).1;
    RestNotBeforeOrigin(xs, origin);
    if i > 0 {
      SharedTimeBase(xs[1..], o, i - 1);
    }
  }
}
