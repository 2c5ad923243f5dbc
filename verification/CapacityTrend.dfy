// How long a volume still has room (anomaly_detect.go): the window of readings
// since the volume last changed size, the trend of its free space, and the
// nearer of the two projections.
module CapacityTrend {
  import opened Wrappers
  import opened AnomalyTypes
  import opened AnomalyRules
  import opened LeastSquares

  const WINDOW_DAYS := 28
  const SLOPE_SAMPLES := 5
  const SLOPE_SPAN := 3 * 86400

  datatype Reading = Reading(at: int, free: int, total: Option<int>, source: string)

  // ---- the window -------------------------------------------------------------------

  predicate Resized(previous: Reading, current: Reading) {
    && previous.total.Some? && current.total.Some? && previous.total.value > 0
    && (var change := current.total.value - previous.total.value;
        (if change < 0 then -change else change) as real / previous.total.value as real > 0.10)
  }

  function Recent(samples: seq<Reading>, cutoff: int): (r: seq<Reading>)
    ensures forall s :: s in r <==> s in samples && s.at >= cutoff
  {
    if samples == [] then []
    else
      var last := samples[|samples| - 1];
      assert forall s :: s in samples <==> s in samples[..|samples| - 1] || s == last;
      Recent(samples[..|samples| - 1], cutoff) + if last.at >= cutoff then [last] else []
  }

  // The readings from the last change of size on, or all of them.
  ghost predicate SinceResize(resized: (Reading, Reading) -> bool, recent: seq<Reading>, start: nat,
      window: seq<Reading>) {
    && start <= |recent| && window == recent[start..]
    && (start > 0 ==> start < |recent| && resized(recent[start - 1], recent[start]))
    && (forall i :: start < i < |recent| ==> !resized(recent[i - 1], recent[i]))
  }

  function InPeriod(samples: seq<Reading>, now: int): seq<Reading> {
    Recent(samples, now - WINDOW_DAYS * 86400)
  }

  ghost predicate CutAt(recent: seq<Reading>, start: nat, window: seq<Reading>) {
    SinceResize(Resized, recent, start, window)
  }

  method CapacityWindow(samples: seq<Reading>, now: int) returns (window: seq<Reading>)
    ensures exists start: nat :: CutAt(InPeriod(samples, now), start, window)
  {
    var cutoff := now - WINDOW_DAYS * 86400;
    var recent: seq<Reading> := [];
    for i := 0 to |samples|
      invariant recent == Recent(samples[..i], cutoff)
    {
      assert samples[..i + 1][..i] == samples[..i];
      if samples[i].at >= cutoff {
        recent := recent + [samples[i]];
      }
    }
    assert samples[..|samples|] == samples;
    var from := LastResize(Resized, recent);
    window := recent[from..];
    assert recent == InPeriod(samples, now);
    assert CutAt(recent, from, window);
  }

  method LastResize(resized: (Reading, Reading) -> bool, recent: seq<Reading>) returns (from: nat)
    ensures from <= |recent| && SinceResize(resized, recent, from, recent[from..])
  {
    from := 0;
    var i := 1;
    while i < |recent|
      invariant from < i
      invariant from > 0 ==> from < |recent| && resized(recent[from - 1], recent[from])
      invariant forall j :: from < j < i && j < |recent| ==> !resized(recent[j - 1], recent[j])
    {
      if resized(recent[i - 1], recent[i]) {
        from := i;
      }
      i := i + 1;
    }
  }

  // The two sizes differ by more than a tenth of the first.
  predicate OtherSize(previous: Reading, current: Reading) {
    && previous.total.Some? && current.total.Some? && previous.total.value > 0
    && (10 * (current.total.value - previous.total.value) > previous.total.value
        || 10 * (previous.total.value - current.total.value) > previous.total.value)
  }

  lemma OverATenth(size: int, total: int)
    requires total > 0
    ensures size as real / total as real > 0.10 <==> 10 * size > total
  {
    var s, t := size as real, total as real;
    var share := s / t;
    assert share * t == s;
    var more := 10.0 * share - 1.0;
    assert more * t == 10.0 * s - t;
    if more > 0.0 {
      PositiveTimes(more, t);
    } else if more < 0.0 {
      PositiveTimes(-more, t);
      assert (-more) * t == t - 10.0 * s;
    }
  }

  lemma ResizedIsOtherSize(previous: Reading, current: Reading)
    ensures Resized(previous, current) <==> OtherSize(previous, current)
  {
    if previous.total.Some? && current.total.Some? && previous.total.value > 0 {
      var change, total := current.total.value - previous.total.value, previous.total.value;
      OverATenth(if change < 0 then -change else change, total);
    }
  }

  // The readings from the cutoff on stand at these places.
  ghost predicate StandAt(samples: seq<Reading>, cutoff: int, recent: seq<Reading>, at: seq<nat>) {
    && |at| == |recent|
    && (forall k :: 0 <= k < |at| ==> at[k] < |samples| && recent[k] == samples[at[k]] && recent[k].at >= cutoff)
    && (forall k, l :: 0 <= k < l < |at| ==> at[k] < at[l])
    && (forall i: nat :: i < |samples| && samples[i].at >= cutoff ==> i in at)
  }

  lemma OneMoreStands(samples: seq<Reading>, cutoff: int, recent: seq<Reading>, at: seq<nat>, x: Reading)
    requires StandAt(samples, cutoff, recent, at)
    ensures if x.at >= cutoff then StandAt(samples + [x], cutoff, recent + [x], at + [|samples|])
      else StandAt(samples + [x], cutoff, recent, at)
  {
    if x.at >= cutoff {
      var more := at + [|samples|];
      forall i: nat | i < |samples| + 1 && (samples + [x])[i].at >= cutoff ensures i in more {
        assert i < |samples| ==> i in at;
      }
    }
  }

  lemma {:induction false} RecentInOrder(samples: seq<Reading>, cutoff: int) returns (at: seq<nat>)
    ensures StandAt(samples, cutoff, Recent(samples, cutoff), at)
  {
    at := [];
    if samples != [] {
      hide StandAt;
      var n := |samples| - 1;
      at := RecentInOrder(samples[..n], cutoff);
      OneMoreStands(samples[..n], cutoff, Recent(samples[..n], cutoff), at, samples[n]);
      assert samples[..n] + [samples[n]] == samples;
      if samples[n].at >= cutoff {
        at := at + [n];
      } else {
        assert Recent(samples, cutoff) == Recent(samples[..n], cutoff);
      }
    }
  }

  // What the window is: of the readings of the last twenty-eight days, in their
  // order, the ones from the last change of size on.
  lemma WindowMeans(samples: seq<Reading>, now: int, start: nat, window: seq<Reading>) returns (at: seq<nat>)
    requires CutAt(InPeriod(samples, now), start, window)
    ensures forall k :: 0 <= k < |at| ==> at[k] < |samples| && samples[at[k]].at >= now - 2419200
    ensures forall i: nat :: i < |samples| && samples[i].at >= now - 2419200 ==> i in at
    ensures forall k, l :: 0 <= k < l < |at| ==> at[k] < at[l]
    ensures start + |window| == |at| && forall k :: 0 <= k < |window| ==> window[k] == samples[at[start + k]]
    ensures start > 0 ==> window != [] && OtherSize(samples[at[start - 1]], window[0])
    ensures forall k :: 0 < k < |window| ==> !OtherSize(window[k - 1], window[k])
  {
    var recent := InPeriod(samples, now);
    at := RecentInOrder(samples, now - 2419200);
    WindowStands(samples, now - 2419200, recent, at, start, window);
  }

  lemma WindowStands(samples: seq<Reading>, cutoff: int, recent: seq<Reading>, at: seq<nat>, start: nat,
      window: seq<Reading>)
    requires StandAt(samples, cutoff, recent, at) && CutAt(recent, start, window)
    ensures start + |window| == |at| && forall k :: 0 <= k < |window| ==> window[k] == samples[at[start + k]]
    ensures start > 0 ==> window != [] && OtherSize(samples[at[start - 1]], window[0])
    ensures forall k :: 0 < k < |window| ==> !OtherSize(window[k - 1], window[k])
  {
    hide Resized, OtherSize;
    forall a, b ensures Resized(a, b) <==> OtherSize(a, b) { ResizedIsOtherSize(a, b); }
    forall k | 0 < k < |window| ensures !OtherSize(window[k - 1], window[k]) {
      var i := start + k;
      assert window[k] == recent[i] && window[k - 1] == recent[i - 1];
    }
  }

  // ---- the trend ---------------------------------------------------------------------

  function Days(samples: seq<Reading>): (r: seq<real>)
    ensures |r| == |samples|
    ensures forall i :: 0 <= i < |samples| ==> r[i] == (samples[i].at - samples[0].at) as real / 86400.0
  {
    seq(|samples|, i requires 0 <= i < |samples| => (samples[i].at - samples[0].at) as real / 86400.0)
  }

  function Free(samples: seq<Reading>): (r: seq<real>)
    ensures |r| == |samples|
    ensures forall i :: 0 <= i < |samples| ==> r[i] == samples[i].free as real
  {
    seq(|samples|, i requires 0 <= i < |samples| => samples[i].free as real)
  }

  // Enough readings over enough time for a trend.
  predicate Trending(samples: seq<Reading>) {
    |samples| >= SLOPE_SAMPLES && samples[|samples| - 1].at - samples[0].at >= SLOPE_SPAN
  }

  // The drain is the fall of the least-squares line through the readings, where
  // there is a trend and it falls.
  ghost predicate Drains(samples: seq<Reading>, drain: Option<real>) {
    && (drain.Some? <==> Trending(samples) && CoSpread(Days(samples), Free(samples)) < 0.0)
    && (drain.Some? ==>
         drain.value > 0.0
         && -drain.value * CoSpread(Days(samples), Days(samples)) == CoSpread(Days(samples), Free(samples)))
  }

  // How fast the free space falls, in bytes per day.
  method FreeSpaceDrainPerDay(samples: seq<Reading>) returns (drain: Option<real>)
    ensures Drains(samples, drain)
  {
    if |samples| < SLOPE_SAMPLES || samples[|samples| - 1].at - samples[0].at < SLOPE_SPAN {
      return None;
    }
    var days: seq<real>, free: seq<real> := [], [];
    for i := 0 to |samples|
      invariant |days| == |free| == i
      invariant forall j :: 0 <= j < i ==> days[j] == Days(samples)[j] && free[j] == Free(samples)[j]
    {
      days := days + [(samples[i].at - samples[0].at) as real / 86400.0];
      free := free + [samples[i].free as real];
    }
    assert days == Days(samples) && free == Free(samples);
    var slope := OlsSlope(days, free);
    TimesSpread(samples);
    SignOfSlope(slope.value, CoSpread(days, days), CoSpread(days, free));
    if slope.value >= 0.0 {
      return None;
    }
    return Some(-slope.value);
  }

  lemma SignOfSlope(slope: real, xx: real, xy: real)
    requires xx > 0.0 && slope * xx == xy
    ensures slope < 0.0 <==> xy < 0.0
  {
  }

  // Readings that reach over three days do spread.
  lemma TimesSpread(samples: seq<Reading>)
    requires Trending(samples)
    ensures CoSpread(Days(samples), Days(samples)) > 0.0
  {
    var xs := Days(samples);
    assert xs[0] < xs[|xs| - 1];
    EndsDiffer(xs);
    SquaresPositive(Centred(xs), |xs|);
  }

  lemma EndsDiffer(xs: seq<real>)
    requires |xs| > 0 && xs[0] < xs[|xs| - 1]
    ensures Centred(xs)(0) != 0.0 || Centred(xs)(|xs| - 1) != 0.0
  {
    var last := |xs| - 1;
    assert Centred(xs)(0) == At(xs)(0) - MeanOf(xs) && Centred(xs)(last) == At(xs)(last) - MeanOf(xs);
  }

  lemma SquaresPositive(x: int -> real, n: nat)
    requires n > 0 && (x(0) != 0.0 || x(n - 1) != 0.0)
    ensures SumTo(Product(x, x), n) > 0.0
  {
    var k := if x(0) != 0.0 then 0 else n - 1;
    forall i | 0 <= i < n ensures Product(x, x)(i) >= 0.0 { SquareAt(x, i); }
    SquareAt(x, k);
    SumPositive(Product(x, x), n, k);
  }

  lemma SquareAt(x: int -> real, i: int)
    ensures Product(x, x)(i) >= 0.0
    ensures x(i) != 0.0 ==> Product(x, x)(i) > 0.0
  {
    SquarePositive(x(i), Product(x, x)(i));
  }

  lemma {:induction false} SumPositive(f: int -> real, n: nat, k: nat)
    requires k < n && f(k) > 0.0 && forall i :: 0 <= i < n ==> f(i) >= 0.0
    ensures SumTo(f, n) > 0.0
  {
    if k < n - 1 {
      SumPositive(f, n - 1, k);
    } else {
      SumNonNegative(f, n - 1);
    }
  }

  lemma SquarePositive(v: real, sq: real)
    requires sq >= v * v
    ensures sq >= 0.0
    ensures v != 0.0 ==> sq > 0.0
  {
    if v > 0.0 {
      PositiveTimes(v, v);
      calc { sq; >= v * v; > 0.0; }
    } else if v < 0.0 {
      PositiveTimes(-v, -v);
      calc { sq; >= v * v; == -v * -v; > 0.0; }
    }
  }

  lemma PositiveTimes(a: real, b: real)
    requires a > 0.0 && b > 0.0
    ensures a * b > 0.0
  {
  }

  // No line through the readings fits them better than the one that falls by
  // the drain.
  lemma DrainIsBestFit(samples: seq<Reading>, drain: Option<real>, slope: real, a: real, b: real)
    requires Drains(samples, drain) && drain == Some(-slope)
    ensures var days, free := Days(samples), Free(samples);
      Residual(days, free, MeanOf(free) - slope * MeanOf(days), slope) <= Residual(days, free, a, b)
  {
    hide CoSpread, Residual, MeanOf;
    SlopeIsBest(Days(samples), Free(samples), slope, a, b);
  }

  // A volume whose free space never fell over its readings has no drain.
  lemma NoFallNoDrain(samples: seq<Reading>, drain: Option<real>)
    requires samples != [] && Drains(samples, drain)
    requires forall i, j :: 0 <= i < j < |samples| ==>
      samples[i].at <= samples[j].at && samples[i].free <= samples[j].free
    ensures drain.None?
  {
    RisingHasNoFall(Days(samples), Free(samples));
  }

  // One that loses the same amount every day drains by exactly that.
  lemma SteadyFallDrains(samples: seq<Reading>, drain: Option<real>, rate: real)
    requires |samples| >= 5 && samples[|samples| - 1].at - samples[0].at >= 259200 && rate > 0.0
    requires forall i :: 0 <= i < |samples| ==> Free(samples)[i] == Free(samples)[0] - rate * Days(samples)[i]
    requires Drains(samples, drain)
    ensures drain == Some(rate)
  {
    var xs, ys := Days(samples), Free(samples);
    TimesSpread(samples);
    forall i | 0 <= i < |xs| ensures ys[i] == ys[0] + (-rate) * xs[i] { Negates(rate, xs[i]); }
    var slope := CoSpread(xs, ys) / CoSpread(xs, xs);
    LineHasItsSlope(xs, ys, slope, ys[0], -rate);
    SignOfSlope(slope, CoSpread(xs, xs), CoSpread(xs, ys));
    Cancels(slope, -drain.value, CoSpread(xs, xs));
  }

  // Fewer than five readings, or less than three days of them, have none.
  lemma TooFewToDrain(samples: seq<Reading>, drain: Option<real>)
    requires Drains(samples, drain)
    requires |samples| < 5 || samples[|samples| - 1].at - samples[0].at < 259200
    ensures drain.None?
  {
  }

  lemma Negates(a: real, b: real)
    ensures (-a) * b == -(a * b)
  {
  }

  // ---- the projection -------------------------------------------------------------------

  function PerWeek(domains: seq<string>, growth: map<string, int>): int {
    if domains == [] then 0
    else
      var last := domains[|domains| - 1];
      PerWeek(domains[..|domains| - 1], growth) + if last in growth then growth[last] else 0
  }

  datatype Projection = Projection(days: real, fromGrowth: Option<real>, fromFree: Option<real>, drainPerDay: real)

  // How many days the volume has left: the nearer of the two projections, or
  // none where nothing fills it.
  method CapacityETA(free: real, perWeek: int, drain: Option<real>) returns (eta: Option<Projection>)
    requires drain.Some? ==> drain.value > 0.0
    ensures eta.Some? <==> perWeek > 0 || drain.Some?
    ensures eta.Some? ==> Nearer(eta.value, free, perWeek, drain)
  {
    var fromGrowth: Option<real>, fromFree: Option<real> := None, None;
    if perWeek > 0 {
      var days := DaysLeft(free, perWeek as real / 7.0);
      fromGrowth := Some(days);
    }
    if drain.Some? {
      var days := DaysLeft(free, drain.value);
      fromFree := Some(days);
    }
    eta := match (fromGrowth, fromFree)
      case (None, None) => None
      case (Some(g), None) => Some(Projection(g, fromGrowth, None, 0.0))
      case (None, Some(f)) => Some(Projection(f, None, fromFree, drain.value))
      case (Some(g), Some(f)) => Some(Projection(if g <= f then g else f, fromGrowth, fromFree, drain.value));
  }

  method GrowthPerWeek(domains: seq<string>, growth: map<string, int>) returns (perWeek: int)
    ensures perWeek == PerWeek(domains, growth)
  {
    perWeek := 0;
    for i := 0 to |domains|
      invariant perWeek == PerWeek(domains[..i], growth)
    {
      assert domains[..i + 1][..i] == domains[..i];
      perWeek := perWeek + if domains[i] in growth then growth[domains[i]] else 0;
    }
    assert domains[..|domains|] == domains;
  }

  method DaysLeft(free: real, pace: real) returns (days: real)
    requires pace > 0.0
    ensures days * pace == free
  {
    days := free / pace;
  }

  // Growth and drain each give the days until the free space is used up at that
  // pace, and the smaller of them counts.
  ghost predicate Nearer(p: Projection, free: real, perWeek: int, drain: Option<real>) {
    && (p.fromGrowth.Some? <==> perWeek > 0) && (p.fromFree.Some? <==> drain.Some?)
    && (p.fromGrowth.Some? ==> p.fromGrowth.value * (perWeek as real / 7.0) == free && p.days <= p.fromGrowth.value)
    && (p.fromFree.Some? ==>
         p.fromFree.value * drain.value == free && p.days <= p.fromFree.value && p.drainPerDay == drain.value)
    && (p.fromGrowth == Some(p.days) || p.fromFree == Some(p.days))
  }

  // The growth adds up over the domains; one nobody measured grows by nothing.
  lemma GrowthAddsUp(domains: seq<string>, growth: map<string, int>, domain: string)
    ensures PerWeek([], growth) == 0
    ensures PerWeek(domains + [domain], growth)
      == PerWeek(domains, growth) + if domain in growth then growth[domain] else 0
  {
    assert (domains + [domain])[..|domains|] == domains;
  }

  // The days that are left are the ones to the nearer end, at the pace of the
  // growth or of the drain.
  lemma NearerEnd(p: Projection, free: real, perWeek: int, drain: Option<real>)
    requires Nearer(p, free, perWeek, drain)
    ensures (perWeek > 0 && p.days * (perWeek as real / 7.0) == free) || (drain.Some? && p.days * drain.value == free)
    ensures perWeek > 0 && free >= 0.0 ==> p.days * (perWeek as real / 7.0) <= free
  {
    if p.fromGrowth.Some? {
      var pace, left := perWeek as real / 7.0, p.fromGrowth.value;
      assert pace > 0.0 && (left - p.days) * pace >= 0.0;
    }
  }

  function EtaDetails(p: Projection): Details {
    (if p.fromGrowth.Some? && p.fromGrowth.value > 0.0 then map["etaGrowthDays" := Num(p.fromGrowth.value)] else map[])
    + if p.fromFree.Some? && p.fromFree.value > 0.0 then
      map["etaFreeDays" := Num(p.fromFree.value), "slopePerDay" := Num(p.drainPerDay)] else map[]
  }

  // What the capacity rules judge: the newest reading of the window and its
  // projection.
  method ReadVolume(samples: seq<Reading>, domains: seq<string>, growth: map<string, int>, open: map<Metric, Row>,
      sens: Sensitivity, now: int)
    returns (v: VolumeInput, ghost window: seq<Reading>, ghost drain: Option<real>)
    ensures exists start: nat :: CutAt(InPeriod(samples, now), start, window)
    ensures v.readings == |window| && v.open == open && v.sens == sens
    ensures window != [] ==>
      v.at == window[|window| - 1].at && v.freeBytes == window[|window| - 1].free
      && v.totalBytes == window[|window| - 1].total
    ensures window == [] ==> DetectCapacity(v) == Decided([], [])
    ensures window != [] ==> Drains(window, drain) && (v.eta.None? <==> PerWeek(domains, growth) <= 0 && drain.None?)
    ensures window != [] && v.eta.Some? ==>
      exists p: Projection :: v.eta.value == p.days && Nearer(p, v.freeBytes as real, PerWeek(domains, growth), drain)
  {
    var readings := CapacityWindow(samples, now);
    window := readings;
    if readings == [] {
      return VolumeInput(None, map[], 0, "", 0, None, 0, open, sens), window, None;
    }
    var newest := readings[|readings| - 1];
    var perWeek := GrowthPerWeek(domains, growth);
    var drained := FreeSpaceDrainPerDay(readings);
    drain := drained;
    var eta := CapacityETA(newest.free as real, perWeek, drained);
    var days: Option<real>, details: Details := None, map[];
    if eta.Some? {
      days, details := Some(eta.value.days), EtaDetails(eta.value);
      assert Nearer(eta.value, newest.free as real, perWeek, drain);
    }
    v := VolumeInput(days, details, newest.at, newest.source, newest.free, newest.total, |readings|, open, sens);
  }
}
