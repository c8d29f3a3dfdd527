/** Microphone capture at 16 kHz: public/deepgram-capture-worklet.js.

    Audio arrives in render quanta; the read position is carried from one to the next. The samples posted are
    those of one pass over everything heard, however it was cut up. */
module CaptureWorklet {

  const TARGET_SR := 16000.0

  // ---------- one sample ----------

  function Min(x: real, y: real): real {
    if x < y then x else y
  }

  function Max(x: real, y: real): real {
    if x < y then y else x
  }

  function Truncated(v: real): int {
    if v < 0.0 then -((-v).Floor) else v.Floor
  }

  /** What storing a number in an `Int16Array` keeps of it. */
  function ToInt16(v: real): int {
    var low := Truncated(v) % 0x1_0000;
    if low < 0x8000 then low else low - 0x1_0000
  }

  function Scaled(x: real): real {
    var s := Max(-1.0, Min(1.0, x));
    if s < 0.0 then s * 32768.0 else s * 32767.0
  }

  function Convert(x: real): int {
    ToInt16(Scaled(x))
  }

  /** Clamping makes every sample fit: nothing wraps, full scale maps to full scale, and louder stays louder. */
  lemma ConvertFits(x: real)
    ensures -0x8000 <= Convert(x) <= 0x7fff
    ensures Convert(x) == Truncated(Scaled(x))
    ensures x >= 1.0 ==> Convert(x) == 0x7fff
    ensures x <= -1.0 ==> Convert(x) == -0x8000
  {
    assert -32768.0 <= Scaled(x) <= 32767.0;
  }

  /** Between the ends a sample is scaled, by one more for the negative ones, and cut off toward zero. */
  lemma ConvertCutsOff(x: real)
    requires -1.0 <= x <= 1.0
    ensures x >= 0.0 ==> Convert(x) as real <= x * 32767.0 < Convert(x) as real + 1.0
    ensures x < 0.0 ==> Convert(x) as real - 1.0 < x * 32768.0 <= Convert(x) as real
  {
    ConvertFits(x);
    var v := Scaled(x);
    assert v == if x < 0.0 then x * 32768.0 else x * 32767.0;
    if v < 0.0 {
      assert (-v).Floor as real <= -v < (-v).Floor as real + 1.0;
    }
  }

  lemma ConvertMonotone(x: real, y: real)
    requires x <= y
    ensures Convert(x) <= Convert(y)
  {
    ConvertFits(x);
    ConvertFits(y);
    assert Scaled(x) <= Scaled(y);
  }

  // ---------- one pass ----------

  function Ceil(x: real): int {
    -((-x).Floor)
  }

  /** How many read positions, from this one in steps of the ratio, fall before the end. */
  function Count(n: nat, phase: real, ratio: real): nat
    requires ratio > 0.0
  {
    if phase >= n as real then 0
    else
      QuotientPositive(n as real - phase, ratio);
      Ceil((n as real - phase) / ratio)
  }

  /** The `k`th read position. */
  function At(phase: real, k: int, ratio: real): real {
    phase + Times(k as real, ratio)
  }

  lemma QuotientPositive(x: real, ratio: real)
    requires x > 0.0 && ratio > 0.0
    ensures x / ratio > 0.0 && Times(x / ratio, ratio) == x
  {
  }

  /** Products are reasoned about through these laws only. */
  function Times(x: real, y: real): real {
    x * y
  }

  lemma TimesMonotone(x: real, y: real, ratio: real)
    requires ratio > 0.0
    ensures x <= y ==> Times(x, ratio) <= Times(y, ratio)
    ensures x < y ==> Times(x, ratio) < Times(y, ratio)
  {
    if x <= y {
      assert (y - x) * ratio >= 0.0;
    }
    if x < y {
      assert (y - x) * ratio > 0.0;
    }
  }

  lemma TimesAdd(x: real, y: real, ratio: real)
    ensures Times(x + y, ratio) == Times(x, ratio) + Times(y, ratio)
    ensures Times(1.0, ratio) == ratio && Times(0.0, ratio) == 0.0
  {
  }

  lemma AtMonotone(phase: real, j: int, k: int, ratio: real)
    requires j <= k && ratio > 0.0
    ensures At(phase, j, ratio) <= At(phase, k, ratio)
  {
    TimesMonotone(j as real, k as real, ratio);
  }

  lemma AtLater(phase: real, j: int, k: int, ratio: real)
    ensures At(At(phase, j, ratio), k, ratio) == At(phase, j + k, ratio)
  {
    hide Times;
    TimesAdd(j as real, k as real, ratio);
    assert (j + k) as real == j as real + k as real;
  }

  lemma AtNext(phase: real, k: int, ratio: real)
    ensures At(phase, k + 1, ratio) == At(phase, k, ratio) + ratio
    ensures At(phase, 0, ratio) == phase
  {
    hide Times;
    TimesAdd(k as real, 1.0, ratio);
    assert (k + 1) as real == k as real + 1.0;
  }

  /** The count is the first position at or past the end. */
  lemma CountReaches(n: nat, phase: real, ratio: real)
    requires ratio > 0.0
    ensures At(phase, Count(n, phase, ratio), ratio) >= n as real
    ensures Count(n, phase, ratio) > 0 ==> At(phase, Count(n, phase, ratio) - 1, ratio) < n as real
  {
    hide Times;
    AtNext(phase, Count(n, phase, ratio) - 1, ratio);
    if phase < n as real {
      var q := (n as real - phase) / ratio;
      var c := Ceil(q);
      QuotientPositive(n as real - phase, ratio);
      assert (c - 1) as real < q <= c as real;
      TimesMonotone(q, c as real, ratio);
      TimesMonotone((c - 1) as real, q, ratio);
    }
  }

  lemma CountUnique(n: nat, phase: real, ratio: real, c: nat)
    requires ratio > 0.0
    requires At(phase, c, ratio) >= n as real && (c > 0 ==> At(phase, c - 1, ratio) < n as real)
    ensures c == Count(n, phase, ratio)
  {
    var d := Count(n, phase, ratio);
    CountReaches(n, phase, ratio);
    if c < d {
      AtMonotone(phase, c, d - 1, ratio);
    } else if d < c {
      AtMonotone(phase, d, c - 1, ratio);
    }
  }

  /** The sample read at the `k`th position. */
  function Read(ch: seq<real>, phase: real, ratio: real, k: nat): int
    requires 0.0 <= phase && ratio > 0.0 && k < Count(|ch|, phase, ratio)
  {
    ReadInRange(|ch|, phase, ratio, k);
    Convert(ch[At(phase, k, ratio).Floor])
  }

  lemma ReadInRange(n: nat, phase: real, ratio: real, k: nat)
    requires 0.0 <= phase && ratio > 0.0 && k < Count(n, phase, ratio)
    ensures 0.0 <= At(phase, k, ratio) < n as real && 0 <= At(phase, k, ratio).Floor < n
  {
    CountReaches(n, phase, ratio);
    AtMonotone(phase, k, Count(n, phase, ratio) - 1, ratio);
    AtMonotone(phase, 0, k, ratio);
    AtNext(phase, 0, ratio);
  }

  /** One pass of the loop over a stretch of input. */
  function Pass(ch: seq<real>, phase: real, ratio: real): seq<int>
    requires 0.0 <= phase && ratio > 0.0
  {
    seq(Count(|ch|, phase, ratio), k requires 0 <= k < Count(|ch|, phase, ratio) => Read(ch, phase, ratio, k))
  }

  /** What is left of the read position after a stretch of input. */
  function Carried(n: nat, phase: real, ratio: real): (carried: real)
    requires ratio > 0.0
    ensures 0.0 <= carried
  {
    CountReaches(n, phase, ratio);
    At(phase, Count(n, phase, ratio), ratio) - n as real
  }

  lemma AtShifted(phase: real, shift: real, k: int, ratio: real)
    ensures At(phase - shift, k, ratio) == At(phase, k, ratio) - shift
  {
  }

  /** Two stretches read in turn take as many samples as the two read as one. */
  lemma CountSplits(n: nat, m: nat, phase: real, ratio: real)
    requires ratio > 0.0
    ensures Count(n + m, phase, ratio) == Count(n, phase, ratio) + Count(m, Carried(n, phase, ratio), ratio)
    ensures Carried(n + m, phase, ratio) == Carried(m, Carried(n, phase, ratio), ratio)
  {
    var c, carried := Count(n, phase, ratio), Carried(n, phase, ratio);
    var d: int := Count(m, carried, ratio);
    CountReaches(n, phase, ratio);
    CountReaches(m, carried, ratio);
    AtShifted(At(phase, c, ratio), n as real, d, ratio);
    AtShifted(At(phase, c, ratio), n as real, d - 1, ratio);
    AtLater(phase, c, d, ratio);
    AtLater(phase, c, d - 1, ratio);
    assert 0 < c && d == 0 ==> At(phase, c - 1, ratio) < (n + m) as real;
    CountUnique(n + m, phase, ratio, c + d);
  }

  /** Any cut of the input: the samples of the parts are the samples of the whole. */
  lemma PassSplits(a: seq<real>, b: seq<real>, phase: real, ratio: real)
    requires 0.0 <= phase && ratio > 0.0
    ensures Pass(a + b, phase, ratio) == Pass(a, phase, ratio) + Pass(b, Carried(|a|, phase, ratio), ratio)
  {
    CountSplits(|a|, |b|, phase, ratio);
    var whole, first, second := Pass(a + b, phase, ratio), Pass(a, phase, ratio), Pass(b, Carried(|a|, phase, ratio), ratio);
    forall k | 0 <= k < |whole| ensures whole[k] == (first + second)[k] {
      PassSplitsAt(a, b, phase, ratio, k);
    }
  }

  function Flattened(quanta: seq<seq<real>>): seq<real> {
    if quanta == [] then [] else quanta[0] + Flattened(quanta[1..])
  }

  /** The samples of one quantum after another, the read position carried along. */
  function InTurn(quanta: seq<seq<real>>, phase: real, ratio: real): seq<int>
    requires 0.0 <= phase && ratio > 0.0
  {
    if quanta == [] then []
    else Pass(quanta[0], phase, ratio) + InTurn(quanta[1..], Carried(|quanta[0]|, phase, ratio), ratio)
  }

  /** However the input is cut into quanta, the samples are those of one pass over all of it. */
  lemma {:induction false} ChunkInvariant(quanta: seq<seq<real>>, phase: real, ratio: real)
    requires 0.0 <= phase && ratio > 0.0
    ensures InTurn(quanta, phase, ratio) == Pass(Flattened(quanta), phase, ratio)
  {
    if quanta != [] {
      PassSplits(quanta[0], Flattened(quanta[1..]), phase, ratio);
      ChunkInvariant(quanta[1..], Carried(|quanta[0]|, phase, ratio), ratio);
    } else {
      AtNext(phase, 0, ratio);
      CountUnique(0, phase, ratio, 0);
    }
  }

  lemma PassSplitsAt(a: seq<real>, b: seq<real>, phase: real, ratio: real, k: nat)
    requires 0.0 <= phase && ratio > 0.0 && k < Count(|a| + |b|, phase, ratio)
    requires Count(|a| + |b|, phase, ratio) == Count(|a|, phase, ratio) + Count(|b|, Carried(|a|, phase, ratio), ratio)
    ensures Read(a + b, phase, ratio, k)
         == if k < Count(|a|, phase, ratio) then Read(a, phase, ratio, k)
            else Read(b, Carried(|a|, phase, ratio), ratio, k - Count(|a|, phase, ratio))
  {
    var c, carried := Count(|a|, phase, ratio), Carried(|a|, phase, ratio);
    ReadInRange(|a + b|, phase, ratio, k);
    if k < c {
      ReadInRange(|a|, phase, ratio, k);
    } else {
      ReadInRange(|b|, carried, ratio, k - c);
      AtShifted(At(phase, c, ratio), |a| as real, k - c, ratio);
      AtLater(phase, c, k - c, ratio);
      FloorShifted(At(phase, k, ratio), |a|);
    }
  }

  lemma FloorShifted(x: real, n: nat)
    ensures (x - n as real).Floor == x.Floor - n
  {
  }

  /** From the start: the input's length over the ratio, rounded up, is how many samples there are. */
  lemma WholePassLength(heard: seq<real>, ratio: real)
    requires ratio > 0.0
    ensures var n := |Pass(heard, 0.0, ratio)| as real; (n - 1.0) * ratio < |heard| as real <= n * ratio
  {
    var n: int := Count(|heard|, 0.0, ratio);
    CountReaches(|heard|, 0.0, ratio);
    assert At(0.0, n, ratio) == n as real * ratio && At(0.0, n - 1, ratio) == (n as real - 1.0) * ratio;
    if n == 0 {
      assert (0.0 - 1.0) * ratio < 0.0;
    }
  }

  /** Sample `k` comes from input `k * ratio`, rounded down, and fits in 16 bits. */
  lemma WholePassAt(heard: seq<real>, ratio: real, k: nat)
    requires ratio > 0.0 && k < |Pass(heard, 0.0, ratio)|
    ensures 0 <= (k as real * ratio).Floor < |heard|
    ensures Pass(heard, 0.0, ratio)[k] == Convert(heard[(k as real * ratio).Floor])
    ensures -0x8000 <= Pass(heard, 0.0, ratio)[k] <= 0x7fff
  {
    ReadInRange(|heard|, 0.0, ratio, k);
    assert At(0.0, k, ratio) == k as real * ratio;
    ConvertFits(heard[(k as real * ratio).Floor]);
  }

  lemma WholePassReads(heard: seq<real>, ratio: real, k: nat)
    requires ratio > 0.0 && k < |Pass(heard, 0.0, ratio)|
    ensures 0 <= Times(k as real, ratio).Floor < |heard|
    ensures Pass(heard, 0.0, ratio)[k] == Convert(heard[Times(k as real, ratio).Floor])
  {
    WholePassAt(heard, ratio, k);
    hide Pass, Convert, Count;
  }

  /** The samples of one read position after another. */
  lemma PassSteps(ch: seq<real>, phase: real, ratio: real, k: nat)
    requires 0.0 <= phase && ratio > 0.0
    requires k <= Count(|ch|, phase, ratio)
    ensures k < Count(|ch|, phase, ratio) <==> At(phase, k, ratio) < |ch| as real
    ensures At(phase, k + 1, ratio) == At(phase, k, ratio) + ratio
  {
    AtNext(phase, k, ratio);
    CountReaches(|ch|, phase, ratio);
    if k < Count(|ch|, phase, ratio) {
      ReadInRange(|ch|, phase, ratio, k);
    }
  }

  /** Where the loop stops is where the pass ends. */
  lemma Finished(ch: seq<real>, phase: real, ratio: real, out: seq<int>, position: real)
    requires 0.0 <= phase && ratio > 0.0 && |out| <= Count(|ch|, phase, ratio)
    requires position == At(phase, |out|, ratio) >= |ch| as real
    requires forall k | 0 <= k < |out| :: out[k] == Read(ch, phase, ratio, k)
    ensures out == Pass(ch, phase, ratio) && position - |ch| as real == Carried(|ch|, phase, ratio)
  {
    PassSteps(ch, phase, ratio, |out|);
  }

  lemma JoinedMore(posted: seq<seq<int>>, out: seq<int>)
    ensures Joined(posted + [out]) == Joined(posted) + out
  {
    assert (posted + [out])[..|posted|] == posted;
  }

  function Joined(posted: seq<seq<int>>): seq<int> {
    if posted == [] then [] else Joined(posted[..|posted| - 1]) + posted[|posted| - 1]
  }

  lemma OneMoreQuantum(heard: seq<real>, ch: seq<real>, phase: real, ratio: real)
    requires ratio > 0.0 && phase == Carried(|heard|, 0.0, ratio)
    ensures Pass(heard + ch, 0.0, ratio) == Pass(heard, 0.0, ratio) + Pass(ch, phase, ratio)
    ensures Carried(|heard + ch|, 0.0, ratio) == Carried(|ch|, phase, ratio)
  {
    hide Count, Carried, Pass;
    PassSplits(heard, ch, 0.0, ratio);
    CountSplits(|heard|, |ch|, 0.0, ratio);
  }

  class DeepgramCaptureProcessor {
    const ratio: real
    var phase: real
    /** The messages sent to the main thread. */
    var posted: seq<seq<int>>
    /** Everything heard so far. */
    ghost var heard: seq<real>

    ghost predicate Valid()
      reads this
    {
      && ratio > 0.0 && 0.0 <= phase
      && Joined(posted) == Pass(heard, 0.0, ratio)
      && phase == Carried(|heard|, 0.0, ratio)
    }

    constructor (sampleRate: real)
      requires sampleRate > 0.0
      ensures Valid() && ratio == sampleRate / 16000.0 && heard == [] && posted == [] && phase == 0.0
    {
      ratio := sampleRate / TARGET_SR;
      phase, posted, heard := 0.0, [], [];
      new;
      assert 0.0 * ratio == 0.0;
      assert At(0.0, 0, ratio) == 0.0;
    }

    /** One render quantum: `Valid` says that what has been posted is one pass over what has been heard. */
    method Process(inputs: seq<seq<seq<real>>>)
      requires Valid()
      modifies this
      ensures Valid()
      ensures heard == old(heard) + if inputs == [] || inputs[0] == [] then [] else inputs[0][0]
      ensures old(posted) <= posted && |posted| <= |old(posted)| + 1
      ensures forall m | |old(posted)| <= m < |posted| :: posted[m] != []
    {
      if inputs == [] || inputs[0] == [] {
        return;
      }
      var ch := inputs[0][0];
      if ch == [] {
        return;
      }
      hide Count, Carried, At, Pass, Joined;
      var out, position := Resample(ch);
      OneMoreQuantum(heard, ch, phase, ratio);
      JoinedMore(posted, out);
      heard := heard + ch;
      phase := position - |ch| as real;
      if |out| > 0 {
        posted := posted + [out];
      }
    }

    /** The samples read from one quantum, and where the read position ends. */
    method Resample(ch: seq<real>) returns (out: seq<int>, position: real)
      requires ratio > 0.0 && 0.0 <= phase
      ensures out == Pass(ch, phase, ratio) && position - |ch| as real == Carried(|ch|, phase, ratio)
    {
      hide Count, Carried, At, Pass;
      AtNext(phase, 0, ratio);
      out, position := [], phase;
      while position < |ch| as real
        invariant |out| <= Count(|ch|, phase, ratio)
        invariant position == At(phase, |out|, ratio)
        invariant forall k | 0 <= k < |out| :: out[k] == Read(ch, phase, ratio, k)
        decreases Count(|ch|, phase, ratio) - |out|
      {
        PassSteps(ch, phase, ratio, |out|);
        ReadInRange(|ch|, phase, ratio, |out|);
        var s := Max(-1.0, Min(1.0, ch[position.Floor]));
        out := out + [ToInt16(if s < 0.0 then s * 32768.0 else s * 32767.0)];
        position := position + ratio;
      }
      Finished(ch, phase, ratio, out, position);
    }
  }
  /** What has been posted, end to end: sample by sample the input at every ratio-th place. */
  lemma PostedSoFar(p: DeepgramCaptureProcessor, k: nat)
    requires p.Valid() && k < |Joined(p.posted)|
    ensures var i := Times(k as real, p.ratio).Floor; 0 <= i < |p.heard| && Joined(p.posted)[k] == Convert(p.heard[i])
  {
    WholePassReads(p.heard, p.ratio, k);
    hide *;
  }

  lemma PostedLength(p: DeepgramCaptureProcessor)
    requires p.Valid()
    ensures var n := |Joined(p.posted)| as real; (n - 1.0) * p.ratio < |p.heard| as real <= n * p.ratio
  {
    hide Pass, Count, Carried, Joined, Convert;
    WholePassLength(p.heard, p.ratio);
  }
}
