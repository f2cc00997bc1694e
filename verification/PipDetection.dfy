/**
 Finding tone pips in recovered audio: samples are gathered into fixed bins, and each
 maximal run of bins above a fraction of the peak energy is one pip. Energies are reals.
 */
module PipDetection {

  type Sample = (nat, real)

  const BIN_NS := 5_000_000

  function Bin(t0: nat, t: nat): nat
    requires t0 <= t
  {
    (t - t0) / BIN_NS
  }

  ghost predicate TimesWithin(audio: seq<Sample>) {
    forall i :: 0 <= i < |audio| ==> audio[0].0 <= audio[i].0 <= audio[|audio| - 1].0
  }

  function Squared(a: real): real {
    a * a
  }

  /** The energy that the samples from time t0 on put into one bin. */
  ghost function BinEnergy(audio: seq<Sample>, t0: nat, b: nat): real
    requires forall i :: 0 <= i < |audio| ==> t0 <= audio[i].0
  {
    if audio == [] then 0.0
    else
      var (t, a) := audio[|audio| - 1];
      BinEnergy(audio[..|audio| - 1], t0, b) + (if Bin(t0, t) == b then Squared(a) else 0.0)
  }

  /** The energy of every bin from the first sample to the last. */
  ghost function Energies(audio: seq<Sample>): seq<real>
    requires audio != [] && TimesWithin(audio)
  {
    var t0 := audio[0].0;
    seq(Bin(t0, audio[|audio| - 1].0) + 1, b requires 0 <= b => BinEnergy(audio, t0, b))
  }

  ghost predicate IsPeak(energies: seq<real>, peak: real) {
    && (forall i :: 0 <= i < |energies| ==> energies[i] <= peak)
    && (peak == 0.0 || exists i :: 0 <= i < |energies| && energies[i] == peak)
    && peak >= 0.0
  }

  // Runs

  datatype Run = Run(first: nat, last: nat)

  ghost predicate MaximalRun(energies: seq<real>, threshold: real, r: Run) {
    && r.first <= r.last < |energies|
    && (forall i :: r.first <= i <= r.last ==> energies[i] > threshold)
    && (r.first > 0 ==> energies[r.first - 1] <= threshold)
    && (r.last + 1 < |energies| ==> energies[r.last + 1] <= threshold)
  }

  ghost predicate Ascending(runs: seq<Run>) {
    forall i, j :: 0 <= i < j < |runs| ==> runs[i].last + 1 < runs[j].first
  }

  ghost predicate InRun(runs: seq<Run>, b: nat) {
    exists j :: 0 <= j < |runs| && runs[j].first <= b <= runs[j].last
  }

  /** Each maximal run once, in order; every bin above the threshold is in one. */
  ghost predicate AllRuns(energies: seq<real>, threshold: real, runs: seq<Run>) {
    && Ascending(runs)
    && (forall r: Run :: r in runs <==> MaximalRun(energies, threshold, r))
    && (forall b :: 0 <= b < |energies| && energies[b] > threshold ==> InRun(runs, b))
  }

  /** Two maximal runs that meet are the same. */
  lemma RunsMeet(energies: seq<real>, threshold: real, r: Run, s: Run, b: nat)
    requires MaximalRun(energies, threshold, r) && MaximalRun(energies, threshold, s)
    requires r.first <= b <= r.last && s.first <= b <= s.last
    ensures r == s
  {
    assert r.first > 0 ==> !(s.first <= r.first - 1 <= s.last);
    assert s.first > 0 ==> !(r.first <= s.first - 1 <= r.last);
    assert r.last + 1 < |energies| ==> !(s.first <= r.last + 1 <= s.last);
    assert s.last + 1 < |energies| ==> !(r.first <= s.last + 1 <= r.last);
  }

  /** Maximal runs that cover every bin above the threshold are all of them. */
  lemma CoveringRunsAreAll(energies: seq<real>, threshold: real, runs: seq<Run>)
    requires Ascending(runs)
    requires forall r <- runs :: MaximalRun(energies, threshold, r)
    requires forall b :: 0 <= b < |energies| && energies[b] > threshold ==> InRun(runs, b)
    ensures AllRuns(energies, threshold, runs)
  {
    forall r: Run | MaximalRun(energies, threshold, r)
      ensures r in runs
    {
      assert energies[r.first] > threshold;
      var j :| 0 <= j < |runs| && runs[j].first <= r.first <= runs[j].last;
      RunsMeet(energies, threshold, r, runs[j], r.first);
    }
  }

  /** The middle of a run: as far from the start of its first bin as from the end of its last. */
  ghost predicate IsMidpoint(t0: nat, r: Run, time: nat) {
    time - (t0 + r.first * BIN_NS) == (t0 + (r.last + 1) * BIN_NS) - time
  }

  ghost predicate Midpoints(t0: nat, runs: seq<Run>, times: seq<nat>) {
    |times| == |runs| && forall j :: 0 <= j < |runs| ==> IsMidpoint(t0, runs[j], times[j])
  }

  /** The scan has listed the maximal runs that end before bin i. */
  ghost predicate Scanned(energies: seq<real>, threshold: real, runs: seq<Run>, i: nat) {
    && Ascending(runs)
    && (forall r <- runs :: MaximalRun(energies, threshold, r) && r.last + 1 <= i)
    && (forall b :: 0 <= b < i <= |energies| && energies[b] > threshold ==> InRun(runs, b))
  }

  lemma ScanPast(energies: seq<real>, threshold: real, runs: seq<Run>, i: nat)
    requires i < |energies| && Scanned(energies, threshold, runs, i) && energies[i] <= threshold
    ensures Scanned(energies, threshold, runs, i + 1)
  {
    forall b | 0 <= b < i + 1 && energies[b] > threshold
      ensures InRun(runs, b)
    {
      assert b < i;
    }
  }

  lemma ScanRun(energies: seq<real>, threshold: real, runs: seq<Run>, r: Run)
    requires Scanned(energies, threshold, runs, r.first) && MaximalRun(energies, threshold, r)
    ensures Scanned(energies, threshold, runs + [r], r.last + 1)
  {
    var more := runs + [r];
    forall j | 0 <= j < |runs|
      ensures runs[j].last + 1 < r.first
    {
      assert runs[j] in runs;
      assert MaximalRun(energies, threshold, runs[j]);
    }
    forall b | 0 <= b < r.last + 1 && energies[b] > threshold
      ensures InRun(more, b)
    {
      if b < r.first {
        assert InRun(runs, b);
        var j :| 0 <= j < |runs| && runs[j].first <= b <= runs[j].last;
        assert more[j] == runs[j];
      } else {
        assert more[|runs|] == r;
      }
    }
  }

  method Scan(energy: array<real>, threshold: real, t0: nat) returns (pips: seq<nat>, ghost runs: seq<Run>)
    ensures AllRuns(energy[..], threshold, runs)
    ensures Midpoints(t0, runs, pips)
  {
    ghost var energies := energy[..];
    pips, runs := [], [];
    var i := 0;
    while i < energy.Length
      invariant i <= energy.Length
      invariant Scanned(energies, threshold, runs, i)
      invariant Midpoints(t0, runs, pips)
      invariant i > 0 && i < energy.Length && energies[i] > threshold ==> energies[i - 1] <= threshold
    {
      if energy[i] > threshold {
        var first := i;
        while i < energy.Length && energy[i] > threshold
          invariant first <= i <= energy.Length
          invariant forall j :: first <= j < i ==> energies[j] > threshold
          invariant i == first ==> energy[i] > threshold
        {
          i := i + 1;
        }
        ghost var r := Run(first, i - 1);
        ScanRun(energies, threshold, runs, r);
        var centre := t0 + first * BIN_NS + BIN_NS / 2 + (t0 + (i - 1) * BIN_NS + BIN_NS / 2);
        pips := pips + [centre / 2];
        runs := runs + [r];
      } else {
        ScanPast(energies, threshold, runs, i);
        i := i + 1;
      }
    }
    CoveringRunsAreAll(energies, threshold, runs);
  }

  // Energies

  lemma PositiveProduct(a: real, b: real, product: real)
    requires a > 0.0 && b > 0.0 && product == a * b
    ensures product > 0.0
  {
  }

  lemma SquaredOfPositive(a: real)
    requires a > 0.0
    ensures Squared(a) > 0.0
  {
    PositiveProduct(a, a, Squared(a));
  }

  lemma SquaredPositive(a: real)
    requires a != 0.0
    ensures Squared(a) > 0.0
  {
    if a > 0.0 {
      SquaredOfPositive(a);
    } else {
      SquaredOfPositive(0.0 - a);
      assert Squared(a) == Squared(0.0 - a);
    }
  }

  lemma {:induction false} BinEnergySign(audio: seq<Sample>, t0: nat, b: nat)
    requires forall i :: 0 <= i < |audio| ==> t0 <= audio[i].0
    ensures BinEnergy(audio, t0, b) >= 0.0
    ensures BinEnergy(audio, t0, b) == 0.0 <==>
      forall i :: 0 <= i < |audio| && Bin(t0, audio[i].0) == b ==> audio[i].1 == 0.0
  {
    if audio != [] {
      var n := |audio| - 1;
      var front := audio[..n];
      BinEnergySign(front, t0, b);
      if audio[n].1 != 0.0 {
        SquaredPositive(audio[n].1);
      }
      assert forall i :: 0 <= i < n ==> front[i] == audio[i];
    }
  }

  lemma BinInRange(audio: seq<Sample>, i: nat)
    requires TimesWithin(audio) && i < |audio|
    ensures Bin(audio[0].0, audio[i].0) < |Energies(audio)|
  {
    Monotone(audio[i].0 - audio[0].0, audio[|audio| - 1].0 - audio[0].0);
  }

  lemma Monotone(a: nat, b: nat)
    requires a <= b
    ensures a / BIN_NS <= b / BIN_NS
  {
  }

  /** There is a run exactly when some sample is not silent. */
  lemma HeardIff(audio: seq<Sample>, peak: real, runs: seq<Run>)
    requires audio != [] && TimesWithin(audio)
    requires IsPeak(Energies(audio), peak) && AllRuns(Energies(audio), peak * 0.1, runs)
    ensures runs != [] <==> exists i :: 0 <= i < |audio| && audio[i].1 != 0.0
  {
    var t0, energies := audio[0].0, Energies(audio);
    if i :| 0 <= i < |audio| && audio[i].1 != 0.0 {
      BinInRange(audio, i);
      var b := Bin(t0, audio[i].0);
      BinEnergySign(audio, t0, b);
      assert energies[b] > 0.0;
      var top :| 0 <= top < |energies| && energies[top] == peak;
      assert energies[top] > peak * 0.1;
      assert InRun(runs, top);
    }
    if runs != [] {
      var r := runs[0];
      assert r in runs;
      assert energies[r.first] > peak * 0.1 >= 0.0;
      BinEnergySign(audio, t0, r.first);
    }
  }

  method FillEnergies(audio: seq<Sample>) returns (energy: array<real>)
    requires audio != [] && TimesWithin(audio)
    ensures fresh(energy) && energy[..] == Energies(audio)
  {
    var t0, tn := audio[0].0, audio[|audio| - 1].0;
    energy := new real[(tn - t0) / BIN_NS + 1](_ => 0.0);
    for n := 0 to |audio|
      invariant forall b :: 0 <= b < energy.Length ==> energy[b] == BinEnergy(audio[..n], t0, b)
    {
      var (t, a) := audio[n];
      BinInRange(audio, n);
      var b := (t - t0) / BIN_NS;
      assert audio[..n + 1][..n] == audio[..n];
      energy[b] := energy[b] + Squared(a);
    }
    assert audio[..|audio|] == audio;
  }

  method FindPeak(energy: array<real>) returns (peak: real)
    ensures IsPeak(energy[..], peak)
  {
    peak := 0.0;
    for i := 0 to energy.Length
      invariant IsPeak(energy[..i], peak)
    {
      assert energy[..i + 1] == energy[..i] + [energy[i]];
      if energy[i] > peak {
        peak := energy[i];
        assert energy[..i + 1][i] == peak;
      } else if peak != 0.0 {
        ghost var k :| 0 <= k < i && energy[..i][k] == peak;
        assert energy[..i + 1][k] == peak;
      }
    }
    assert energy[..energy.Length] == energy[..];
  }

  /** One strictly later time for each maximal run above a tenth of the peak: its midpoint. */
  method DetectPips(audio: seq<Sample>) returns (pips: seq<nat>, ghost peak: real, ghost runs: seq<Run>)
    requires TimesWithin(audio)
    ensures audio == [] ==> pips == []
    ensures audio != [] ==>
      && IsPeak(Energies(audio), peak)
      && AllRuns(Energies(audio), peak * 0.1, runs)
      && Midpoints(audio[0].0, runs, pips)
    ensures forall i, j :: 0 <= i < j < |pips| ==> pips[i] < pips[j]
    ensures pips != [] <==> exists i :: 0 <= i < |audio| && audio[i].1 != 0.0
  {
    if audio == [] {
      return [], 0.0, [];
    }
    var energy := FillEnergies(audio);
    var top := FindPeak(energy);
    peak := top;
    pips, runs := Scan(energy, top * 0.1, audio[0].0);
    HeardIff(audio, peak, runs);
    MidpointsAscend(audio[0].0, runs, pips);
  }

  lemma MidpointsAscend(t0: nat, runs: seq<Run>, times: seq<nat>)
    requires Midpoints(t0, runs, times) && Ascending(runs)
    requires forall r <- runs :: r.first <= r.last
    ensures forall i, j :: 0 <= i < j < |times| ==> times[i] < times[j]
  {
    forall i, j | 0 <= i < j < |times|
      ensures times[i] < times[j]
    {
      assert runs[i] in runs && runs[j] in runs;
      assert IsMidpoint(t0, runs[i], times[i]) && IsMidpoint(t0, runs[j], times[j]);
    }
  }
}
