/** Beat grid, tempo and style tables, and the cyclic energy stream of
    `AutoMusicVideoGenerator` (auto_music_video.py). Python floats are exact
    reals here. */
module Timing {
  import opened PyNum

  /** `60.0 / tempo`: seconds per beat. */
  function BeatInterval(tempo: real): real
    requires tempo != 0.0
  {
    60.0 / tempo
  }

  /** `max(1, int(duration / interval))`: how many beats `_distribute_beats` lays out. */
  function BeatCount(duration: real, tempo: real): (n: int)
    requires tempo != 0.0
    ensures n >= 1
  {
    var t := Trunc(duration / BeatInterval(tempo));
    if t < 1 then 1 else t
  }

  /** Beat `i` of the grid, `round(i * interval, 2)`. */
  function BeatAt(i: int, interval: real): real {
    Round2(i as real * interval)
  }

  /** `_distribute_beats`: nothing for a non-positive duration, otherwise
      `BeatCount` beats, beat `i` at `i * interval` rounded to two decimals.
      Python divides by `tempo` only on the second path, so a zero tempo is
      excluded only there. */
  function DistributeBeats(duration: real, tempo: real): (beats: seq<real>)
    requires duration > 0.0 ==> tempo != 0.0
    ensures beats == [] <==> duration <= 0.0
    ensures beats != [] ==> |beats| == BeatCount(duration, tempo) && beats[0] == 0.0
  {
    if duration <= 0.0 then []
    else seq(BeatCount(duration, tempo), i => BeatAt(i, BeatInterval(tempo)))
  }

  /** The beat count is the largest whole number of intervals that fits in the
      duration, but at least one. */
  lemma BeatCountFits(duration: real, tempo: real)
    requires duration > 0.0 && tempo > 0.0
    ensures var n := BeatCount(duration, tempo); var interval := BeatInterval(tempo);
      && (n == 1 || n as real * interval <= duration)
      && duration < (n + 1) as real * interval
  {
    var interval := BeatInterval(tempo);
    assert interval > 0.0;
    var q := duration / interval;
    assert q * interval == duration;
    var t := Trunc(q);
    assert t as real <= q < t as real + 1.0;
    if t >= 1 {
      assert t as real * interval <= q * interval;
    }
    assert q * interval < (t as real + 1.0) * interval;
    if t < 1 {
      assert t == 0;
      assert duration < 2.0 * interval;
    }
  }

  /** At tempo 480 the second beat falls exactly on 0.125; exact half-up
      rounding gives 0.13, where Python's half-to-even float rounding gives 0.12. */
  lemma TieRoundsUp()
    ensures DistributeBeats(0.25, 480.0) == [0.0, 0.13]
  {
    assert BeatInterval(480.0) == 0.125;
    assert BeatCount(0.25, 480.0) == 2;
    assert BeatAt(1, 0.125) == 0.13;
  }

  /** The grid starts at zero, and every beat lies within half a hundredth of
      its exact position. */
  lemma BeatsOnGrid(duration: real, tempo: real)
    requires duration > 0.0 && tempo > 0.0
    ensures var beats := DistributeBeats(duration, tempo);
      && |beats| == BeatCount(duration, tempo)
      && beats[0] == 0.0
      && forall i :: 0 <= i < |beats| ==>
           i as real * BeatInterval(tempo) - 0.005 < beats[i] <= i as real * BeatInterval(tempo) + 0.005
  {
    var beats := DistributeBeats(duration, tempo);
    assert beats[0] == Round2(0.0);
    forall i | 0 <= i < |beats|
      ensures i as real * BeatInterval(tempo) - 0.005 < beats[i] <= i as real * BeatInterval(tempo) + 0.005
    {
      assert beats[i] == BeatAt(i, BeatInterval(tempo));
      Round2Close(i as real * BeatInterval(tempo));
    }
  }

  /** Whole beats apart are at least one interval apart. */
  lemma GridGap(i: int, j: int, interval: real)
    requires 0 <= i < j && interval > 0.0
    ensures i as real * interval + interval <= j as real * interval
  {
    assert j as real * interval - i as real * interval == (j - i) as real * interval;
    assert (j - i) as real * interval >= 1.0 * interval;
  }

  /** Up to 6000 beats per minute a beat lasts at least a hundredth of a second. */
  lemma IntervalAtLeastHundredth(tempo: real)
    requires 0.0 < tempo <= 6000.0
    ensures BeatInterval(tempo) >= 0.01
  {
    var interval := BeatInterval(tempo);
    assert interval * tempo == 60.0;
  }

  /** A later beat is never earlier, and with an interval of a hundredth of a
      second or more it is later. */
  lemma BeatAtIncreases(i: int, j: int, interval: real)
    requires 0 <= i < j && interval > 0.0
    ensures BeatAt(i, interval) <= BeatAt(j, interval)
    ensures interval >= 0.01 ==> BeatAt(i, interval) < BeatAt(j, interval)
  {
    GridGap(i, j, interval);
    Round2Monotone(i as real * interval, j as real * interval);
  }

  /** Beats never go backwards; at any tempo up to 6000 per minute (an interval
      of at least a hundredth of a second) they strictly increase. */
  lemma BeatsIncrease(duration: real, tempo: real)
    requires duration > 0.0 && tempo > 0.0
    ensures var beats := DistributeBeats(duration, tempo);
      forall i, j :: 0 <= i < j < |beats| ==> beats[i] <= beats[j] && (tempo <= 6000.0 ==> beats[i] < beats[j])
  {
    var beats := DistributeBeats(duration, tempo);
    var interval := BeatInterval(tempo);
    assert interval > 0.0;
    if tempo <= 6000.0 {
      IntervalAtLeastHundredth(tempo);
    }
    forall i, j | 0 <= i < j < |beats|
      ensures beats[i] <= beats[j] && (tempo <= 6000.0 ==> beats[i] < beats[j])
    {
      BeatAtIncreases(i, j, interval);
    }
  }

  // ---------------------------------------------------------------------------
  // Tempo and style tables

  /** `_genre_from_tempo` */
  function GenreFromTempo(tempo: real): (genre: string)
    ensures genre in {"electronic", "pop", "rnb", "ballad"}
  {
    if tempo > 130.0 then "electronic"
    else if tempo > 110.0 then "pop"
    else if tempo > 90.0 then "rnb"
    else "ballad"
  }

  /** The four genres from slowest to fastest. */
  function GenreRank(genre: string): int {
    if genre == "electronic" then 3
    else if genre == "pop" then 2
    else if genre == "rnb" then 1
    else 0
  }

  /** Each genre covers exactly one tempo band, with strict lower thresholds at
      130, 110 and 90 beats per minute, and the four bands cover every tempo. */
  lemma GenreBands(tempo: real)
    ensures GenreFromTempo(tempo) in {"electronic", "pop", "rnb", "ballad"}
    ensures GenreFromTempo(tempo) == "electronic" <==> tempo > 130.0
    ensures GenreFromTempo(tempo) == "pop" <==> 110.0 < tempo <= 130.0
    ensures GenreFromTempo(tempo) == "rnb" <==> 90.0 < tempo <= 110.0
    ensures GenreFromTempo(tempo) == "ballad" <==> tempo <= 90.0
  {
  }

  /** A faster tempo never gives a slower genre. */
  lemma GenreMonotone(slow: real, fast: real)
    requires slow <= fast
    ensures GenreRank(GenreFromTempo(slow)) <= GenreRank(GenreFromTempo(fast))
  {
  }

  /** `_pick_animation_style` */
  function PickAnimationStyle(genre: string, intensity: real): (style: string)
    ensures style in {"flash", "slide", "rise", "fade", "drift", "soft-fade", "slow-fade"}
  {
    if genre == "electronic" then (if intensity > 0.6 then "flash" else "slide")
    else if genre == "pop" then (if intensity > 0.5 then "rise" else "fade")
    else if genre == "rnb" then (if intensity > 0.5 then "drift" else "soft-fade")
    else "slow-fade"
  }

  /** The style table, read backwards: a style names its genre family and on
      which side of the intensity threshold the line fell. */
  lemma StyleTable(genre: string, intensity: real)
    ensures var style := PickAnimationStyle(genre, intensity);
      && style in {"flash", "slide", "rise", "fade", "drift", "soft-fade", "slow-fade"}
      && (style == "flash" <==> genre == "electronic" && intensity > 0.6)
      && (style == "slide" <==> genre == "electronic" && intensity <= 0.6)
      && (style == "rise" <==> genre == "pop" && intensity > 0.5)
      && (style == "fade" <==> genre == "pop" && intensity <= 0.5)
      && (style == "drift" <==> genre == "rnb" && intensity > 0.5)
      && (style == "soft-fade" <==> genre == "rnb" && intensity <= 0.5)
      && (style == "slow-fade" <==> genre !in {"electronic", "pop", "rnb"})
  {
  }

  /** A more intense line never gets the calmer style of its genre. */
  lemma StyleMonotone(genre: string, calm: real, intense: real)
    requires calm <= intense
    ensures PickAnimationStyle(genre, calm) in {"flash", "rise", "drift"} ==>
      PickAnimationStyle(genre, intense) == PickAnimationStyle(genre, calm)
  {
  }

  // ---------------------------------------------------------------------------
  // The cyclic energy stream

  /** The `k`-th value `_loop_values` yields: 0.5 when there are no values,
      otherwise the values over and over. */
  function CycleAt(values: seq<real>, k: nat): (v: real)
    ensures values == [] ==> v == 0.5
    ensures values != [] ==> v in values
  {
    if values == [] then 0.5 else values[k % |values|]
  }

  lemma ModPeriod(k: nat, n: nat)
    requires n > 0
    ensures (k + n) % n == k % n
  {
    var q, r := k / n, k % n;
    var q2, r2 := (k + n) / n, (k + n) % n;
    assert k == n * q + r;
    assert k + n == n * q2 + r2;
    var d: int := q2 - q - 1;
    assert n * d == r - r2 by {
      assert n * q2 == n * (q + 1) + n * d;
    }
  }

  lemma ModSmall(k: nat, n: nat)
    requires k < n
    ensures k % n == k
  {
    var q, r := k / n, k % n;
    assert k == n * q + r;
  }

  /** The stream repeats with the period of its values, starts with them and
      yields only them. */
  lemma CycleAtPeriodic(values: seq<real>, k: nat)
    ensures CycleAt(values, k + |values|) == CycleAt(values, k)
    ensures k < |values| ==> CycleAt(values, k) == values[k]
    ensures values != [] ==> CycleAt(values, k) in values
  {
    if values != [] {
      ModPeriod(k, |values|);
      if k < |values| {
        ModSmall(k, |values|);
      }
    }
  }

  /** `_loop_values(values, length)`, drained: a counter walks the values
      modulo their length. */
  method LoopValues(values: seq<real>, length: nat) returns (out: seq<real>)
    ensures |out| == length
    ensures forall k :: 0 <= k < length ==> out[k] == CycleAt(values, k)
  {
    out := [];
    if values == [] {
      while |out| < length
        invariant |out| <= length
        invariant forall k :: 0 <= k < |out| ==> out[k] == 0.5
      {
        out := out + [0.5];
      }
    } else {
      var idx := 0;
      while idx < length
        invariant idx <= length && |out| == idx
        invariant forall k :: 0 <= k < idx ==> out[k] == values[k % |values|]
      {
        out := out + [values[idx % |values|]];
        idx := idx + 1;
      }
    }
  }
}
