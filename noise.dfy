/** The noise example's sample history: every frame a batch of timestamped
    "sensor" readings is generated, occasional dropouts are forced to zero,
    clipped readings are thrown away, the survivors are appended to the
    history, and the oldest entries are dropped so that at most
    POINTS_HISTORY remain.

    The random noise and the waveform are not computed here: each frame
    receives them as sequences, one entry per generated sample. */
module Noise {
  import opened Traits

  /** Samples are generated at 1 kHz, so one sample period is 1 ms. */
  const SAMPLE_RATE: int := 1_000
  const SAMPLE_PERIOD_NANOS: int := NANOS_PER_SEC / SAMPLE_RATE
  /** The largest number of readings the history keeps. */
  const POINTS_HISTORY: nat := 100_000
  /** A noise value below this marks a sensor dropout. */
  const DROPOUT_THRESHOLD: real := -0.035
  /** Readings whose magnitude reaches this are treated as clipped. */
  const CLIP_LIMIT: real := 2.0
  /** The sample count is converted to an unsigned 32-bit integer. */
  const U32_MAX: int := 0xFFFF_FFFF

  /** One reading kept in the history. */
  datatype Sample = Sample(x: Instant, y: real)

  /** One generated reading before the dropout rule and the clip filter:
      its timestamp, the noise drawn for it and the waveform value (noise
      included) computed for it. */
  datatype RawSample = RawSample(x: Instant, noise: real, y: real)

  function Abs(r: real): real
  {
    if r < 0.0 then -r else r
  }

  /** How many samples a frame generates after `elapsed` nanoseconds: the
      whole sample periods elapsed, saturated to the 32-bit range. */
  function NumSamples(elapsed: nat): (n: nat)
    ensures n <= U32_MAX
    ensures n * SAMPLE_PERIOD_NANOS <= elapsed
    ensures n == U32_MAX || elapsed < (n + 1) * SAMPLE_PERIOD_NANOS
  {
    var whole := elapsed / SAMPLE_PERIOD_NANOS;
    if whole > U32_MAX then U32_MAX else whole
  }

  /** The readings of one frame: the i-th is stamped `lastFrame` plus i
      sample periods and carries the i-th noise and waveform values. */
  function Generate(lastFrame: Instant, noise: seq<real>, wave: seq<real>): (raw: seq<RawSample>)
    requires |noise| == |wave|
    ensures |raw| == |noise|
    ensures forall i | 0 <= i < |raw| ::
      raw[i] == RawSample(lastFrame + i * SAMPLE_PERIOD_NANOS, noise[i], wave[i])
  {
    seq(|noise|, i requires 0 <= i < |noise| =>
      RawSample(lastFrame + i * SAMPLE_PERIOD_NANOS, noise[i], wave[i]))
  }

  /** The dropout rule: a reading whose noise is below the threshold is
      replaced by zero; any other keeps its waveform value. */
  function Substitute(s: RawSample): (r: Sample)
    ensures r.x == s.x
    ensures s.noise < DROPOUT_THRESHOLD ==> r.y == 0.0
    ensures s.noise >= DROPOUT_THRESHOLD ==> r.y == s.y
    ensures s.noise < DROPOUT_THRESHOLD ==> Unclipped(r)
  {
    if s.noise < DROPOUT_THRESHOLD then Sample(s.x, 0.0) else Sample(s.x, s.y)
  }

  /** The clip filter: only readings strictly inside the limit survive. */
  predicate Unclipped(s: Sample)
  {
    Abs(s.y) < CLIP_LIMIT
  }

  /** The readings of a batch that reach the history, in generation order:
      the dropout rule applied to each, then the clip filter. */
  function Survivors(raw: seq<RawSample>): (r: seq<Sample>)
    ensures |r| <= |raw|
    ensures forall k | 0 <= k < |r| :: Unclipped(r[k])
    decreases |raw|
  {
    if raw == [] then []
    else
      var s := Substitute(raw[0]);
      if Unclipped(s) then [s] + Survivors(raw[1..]) else Survivors(raw[1..])
  }

  /** Nothing is invented: every survivor is the dropout-rule image of a
      generated reading. */
  lemma {:induction false} SurvivorsSound(raw: seq<RawSample>)
    ensures forall k | 0 <= k < |Survivors(raw)| ::
      exists i | 0 <= i < |raw| :: Survivors(raw)[k] == Substitute(raw[i])
    decreases |raw|
  {
    if raw != [] {
      SurvivorsSound(raw[1..]);
      var s := Substitute(raw[0]);
      var rest := Survivors(raw[1..]);
      var r := Survivors(raw);
      assert r == if Unclipped(s) then [s] + rest else rest;
      forall k | 0 <= k < |r|
        ensures exists i | 0 <= i < |raw| :: r[k] == Substitute(raw[i])
      {
        if Unclipped(s) && k == 0 {
          assert r[0] == Substitute(raw[0]);
        } else {
          var k' := if Unclipped(s) then k - 1 else k;
          assert r[k] == rest[k'];
          var i :| 0 <= i < |raw[1..]| && rest[k'] == Substitute(raw[1..][i]);
          assert raw[1..][i] == raw[i + 1];
          assert 0 <= i + 1 < |raw| && r[k] == Substitute(raw[i + 1]);
        }
      }
    } else {
      assert Survivors(raw) == [];
    }
  }

  /** Nothing unclipped is lost: the image of every generated reading that
      passes the clip filter survives; in particular every dropout reaches
      the history as a zero reading at its own timestamp. */
  lemma {:induction false} SurvivorsComplete(raw: seq<RawSample>)
    ensures forall i | 0 <= i < |raw| ::
      Unclipped(Substitute(raw[i])) ==> Substitute(raw[i]) in Survivors(raw)
    ensures forall i | 0 <= i < |raw| ::
      raw[i].noise < DROPOUT_THRESHOLD ==> Sample(raw[i].x, 0.0) in Survivors(raw)
    decreases |raw|
  {
    if raw != [] {
      SurvivorsComplete(raw[1..]);
      assert forall i | 1 <= i < |raw| :: raw[i] == raw[1..][i - 1];
    }
  }

  /** Filtering a batch piece by piece gives the same readings as
      filtering it whole: each reading is judged on its own. */
  lemma {:induction false} SurvivorsAppend(a: seq<RawSample>, b: seq<RawSample>)
    ensures Survivors(a + b) == Survivors(a) + Survivors(b)
    decreases |a|
  {
    if a == [] {
      assert a + b == b;
    } else {
      assert (a + b)[0] == a[0];
      assert (a + b)[1..] == a[1..] + b;
      SurvivorsAppend(a[1..], b);
    }
  }

  /** Readings whose timestamps strictly increase. Kept readings and
      generated readings are different datatypes, so the same ordering is
      stated once for each: `RawChronological` below is its counterpart for
      readings before filtering. */
  predicate Chronological(s: seq<Sample>)
  {
    forall i, j | 0 <= i < j < |s| :: s[i].x < s[j].x
  }

  /** Generated readings whose timestamps strictly increase. */
  predicate RawChronological(raw: seq<RawSample>)
  {
    forall i, j | 0 <= i < j < |raw| :: raw[i].x < raw[j].x
  }

  /** Filtering keeps generation order: the survivors of a chronological
      batch are chronological, and none lies outside the batch's time span. */
  lemma {:induction false} SurvivorsChronological(raw: seq<RawSample>)
    requires RawChronological(raw)
    ensures Chronological(Survivors(raw))
    ensures forall k | 0 <= k < |Survivors(raw)| ::
      raw[0].x <= Survivors(raw)[k].x <= raw[|raw| - 1].x
    decreases |raw|
  {
    if raw != [] {
      var s := Substitute(raw[0]);
      var rest := Survivors(raw[1..]);
      if |raw| > 1 {
        SurvivorsChronological(raw[1..]);
        assert raw[0].x < raw[1].x;
        assert raw[1..][|raw[1..]| - 1] == raw[|raw| - 1];
        assert forall k | 0 <= k < |rest| :: raw[0].x < rest[k].x <= raw[|raw| - 1].x;
      }
      assert Survivors(raw) == if Unclipped(s) then [s] + rest else rest;
    }
  }

  /** A generated batch is chronological and lies in the half-open window
      of sample periods that starts at `lastFrame`. */
  lemma GenerateWindow(lastFrame: Instant, noise: seq<real>, wave: seq<real>)
    requires |noise| == |wave|
    ensures RawChronological(Generate(lastFrame, noise, wave))
    ensures forall i | 0 <= i < |noise| ::
      lastFrame <= Generate(lastFrame, noise, wave)[i].x < lastFrame + |noise| * SAMPLE_PERIOD_NANOS
  {
    var raw := Generate(lastFrame, noise, wave);
    forall i, j | 0 <= i < j < |raw| ensures raw[i].x < raw[j].x {
      assert i * SAMPLE_PERIOD_NANOS < j * SAMPLE_PERIOD_NANOS;
    }
    forall i | 0 <= i < |noise|
      ensures lastFrame <= raw[i].x < lastFrame + |noise| * SAMPLE_PERIOD_NANOS
    {
      assert i * SAMPLE_PERIOD_NANOS < |noise| * SAMPLE_PERIOD_NANOS;
    }
  }

  /** The history after trimming: its newest POINTS_HISTORY readings, or
      all of them when there are no more than that. */
  function Trimmed(s: seq<Sample>): (r: seq<Sample>)
    ensures |r| == if |s| <= POINTS_HISTORY then |s| else POINTS_HISTORY
    ensures r == s[|s| - |r|..]
  {
    if |s| > POINTS_HISTORY then s[|s| - POINTS_HISTORY..] else s
  }

  /** What survives a trim of old readings followed by a new batch: a
      suffix of the old readings followed by the whole batch, or, when the
      batch alone overflows the history, a suffix of the batch. */
  lemma TrimmedAppend(history: seq<Sample>, batch: seq<Sample>)
    ensures var r := Trimmed(history + batch);
      var dropped := |history| + |batch| - |r|;
      (dropped <= |history| ==> r == history[dropped..] + batch) &&
      (dropped > |history| ==> r == batch[dropped - |history|..])
  {
  }

  /** Readings that may make up the history once the last frame was
      taken at `t`: unclipped, in strictly increasing time, all before `t`. */
  predicate WellFormedHistory(s: seq<Sample>, t: Instant)
  {
    Chronological(s) && forall k | 0 <= k < |s| :: Unclipped(s[k]) && s[k].x < t
  }

  /** The readings one frame appends are unclipped, chronological and lie
      between the previous frame and this one. */
  lemma BatchWindow(lastFrame: Instant, now: Instant, noise: seq<real>, wave: seq<real>)
    requires lastFrame <= now
    requires |noise| == |wave| == NumSamples(now - lastFrame)
    ensures var batch := Survivors(Generate(lastFrame, noise, wave));
      Chronological(batch) &&
      forall k | 0 <= k < |batch| :: Unclipped(batch[k]) && lastFrame <= batch[k].x < now
  {
    var raw := Generate(lastFrame, noise, wave);
    GenerateWindow(lastFrame, noise, wave);
    SurvivorsChronological(raw);
  }

  /** Appending readings that follow the history in time keeps it well
      formed for the new frame instant. */
  lemma AppendHistory(s: seq<Sample>, batch: seq<Sample>, lastFrame: Instant, now: Instant)
    requires WellFormedHistory(s, lastFrame) && lastFrame <= now
    requires Chronological(batch)
    requires forall k | 0 <= k < |batch| :: Unclipped(batch[k]) && lastFrame <= batch[k].x < now
    ensures WellFormedHistory(s + batch, now)
  {
  }

  /** Trimming a well-formed history leaves it well formed. */
  lemma TrimmedHistory(s: seq<Sample>, t: Instant)
    requires WellFormedHistory(s, t)
    ensures WellFormedHistory(Trimmed(s), t)
  {
  }

  /** The per-frame update keeps the history well formed: the invariant of
      the sensor history, stated on values. */
  lemma FrameKeepsHistory(s: seq<Sample>, lastFrame: Instant, now: Instant, noise: seq<real>, wave: seq<real>)
    requires WellFormedHistory(s, lastFrame)
    requires lastFrame <= now
    requires |noise| == |wave| == NumSamples(now - lastFrame)
    ensures WellFormedHistory(Trimmed(s + Survivors(Generate(lastFrame, noise, wave))), now)
  {
    BatchWindow(lastFrame, now, noise, wave);
    var all := s + Survivors(Generate(lastFrame, noise, wave));
    AppendHistory(s, Survivors(Generate(lastFrame, noise, wave)), lastFrame, now);
    TrimmedHistory(all, now);
  }

  /** The state of the noise example that its per-frame update changes. */
  class NoiseExample {
    /** The kept readings, oldest first. */
    var sensorData: seq<Sample>
    var firstFrame: Instant
    var lastFrame: Instant

    /** The history is bounded, holds only unclipped readings in strictly
        increasing time, and every reading predates the last frame. */
    predicate Valid()
      reads this
    {
      |sensorData| <= POINTS_HISTORY &&
      firstFrame <= lastFrame &&
      WellFormedHistory(sensorData, lastFrame)
    }

    /** Starts with an empty history; both frame instants are read from the
        clock, `first` before `last`. */
    constructor (first: Instant, last: Instant)
      requires first <= last
      ensures Valid()
      ensures sensorData == [] && firstFrame == first && lastFrame == last
    {
      sensorData := [];
      firstFrame := first;
      lastFrame := last;
    }

    /** One frame of sensor data: `now` is the clock reading taken at the
        start of the call; `noise` and `wave` hold the noise drawn and the
        waveform value computed for each generated sample. */
    method UpdateSensorData(now: Instant, noise: seq<real>, wave: seq<real>)
      requires Valid()
      requires lastFrame <= now
      requires |noise| == |wave| == NumSamples(now - lastFrame)
      modifies this
      ensures Valid()
      ensures sensorData == Trimmed(old(sensorData) + Survivors(Generate(old(lastFrame), noise, wave)))
      ensures lastFrame == now
      ensures firstFrame == old(firstFrame)
    {
      FrameKeepsHistory(sensorData, lastFrame, now, noise, wave);
      var samples := Survivors(Generate(lastFrame, noise, wave));
      ghost var extended := sensorData + samples;
      sensorData := sensorData + samples;
      if |sensorData| > POINTS_HISTORY {
        sensorData := sensorData[|sensorData| - POINTS_HISTORY..];
      }
      assert sensorData == Trimmed(extended);
      lastFrame := now;
    }
  }
}
