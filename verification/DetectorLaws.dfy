/** Laws of the threshold monitor over whole runs of windows. */
module DetectorLaws {
  import opened Ewma
  import opened Detector

  // The monitor after judging the windows os in order.
  function Run(cfg: Config, root: real -> real, m: Monitor, os: seq<Obs>): Monitor {
    if os == [] then m else Next(cfg, root, Run(cfg, root, m, os[..|os| - 1]), os[|os| - 1])
  }

  lemma RunStep(cfg: Config, root: real -> real, m: Monitor, os: seq<Obs>, o: Obs)
    ensures Run(cfg, root, m, os + [o]) == Next(cfg, root, Run(cfg, root, m, os), o)
  {
    hide Next;
    assert (os + [o])[..|os + [o]| - 1] == os;
  }

  // ---- the CUSUM is Page's test ---------------------------------------------------

  // The scored increments since the last CUSUM alarm of the run.
  function Increments(cfg: Config, root: real -> real, os: seq<Obs>): seq<real> {
    if os == [] then []
    else
      var before, o := os[..|os| - 1], os[|os| - 1];
      var m, s := Run(cfg, root, FRESH, before), Increments(cfg, root, before);
      if !Scored(cfg, m) then s
      else if CusumAlarm(cfg, root, m, o) then []
      else s + [Residual(cfg, root, m, o)]
  }

  function SumFrom(s: seq<real>, j: nat): real
    requires j <= |s|
  {
    Sum(s[j..])
  }

  // v is the largest sum of a suffix of s, the empty suffix included.
  ghost predicate LargestSuffixSum(s: seq<real>, v: real) {
    && (exists j: nat :: j <= |s| && SumFrom(s, j) == v)
    && (forall j: nat :: j <= |s| ==> SumFrom(s, j) <= v)
  }

  lemma SumFromStep(s: seq<real>, x: real, j: nat)
    requires j <= |s|
    ensures SumFrom(s + [x], j) == SumFrom(s, j) + x
    ensures SumFrom(s + [x], |s| + 1) == 0.0
  {
    assert (s + [x])[j..] == s[j..] + [x];
    assert (s[j..] + [x])[..|s[j..] + [x]| - 1] == s[j..];
  }

  lemma LargestStep(s: seq<real>, v: real, x: real)
    requires LargestSuffixSum(s, v)
    ensures LargestSuffixSum(s + [x], Max(v + x, 0.0))
  {
    var t := s + [x];
    var best: nat :| best <= |s| && SumFrom(s, best) == v;
    SumFromStep(s, x, best);
    forall j: nat | j <= |t|
      ensures SumFrom(t, j) <= Max(v + x, 0.0)
    {
      SumFromStep(s, x, if j <= |s| then j else 0);
    }
    assert SumFrom(t, if v + x < 0.0 then |s| + 1 else best) == Max(v + x, 0.0);
  }

  /** cusum_g is always the largest sum over a run of consecutive windows ending now, counted since
      the last alarm, or zero when every such sum is negative. */
  lemma {:induction false} PageClosedForm(cfg: Config, root: real -> real, os: seq<Obs>)
    ensures LargestSuffixSum(Increments(cfg, root, os), Run(cfg, root, FRESH, os).g)
  {
    if os == [] {
      assert SumFrom([], 0) == 0.0;
    } else {
      var before, o := os[..|os| - 1], os[|os| - 1];
      PageClosedForm(cfg, root, before);
      var m, s := Run(cfg, root, FRESH, before), Increments(cfg, root, before);
      if Scored(cfg, m) {
        LargestStep(s, m.g, Residual(cfg, root, m, o));
        if CusumAlarm(cfg, root, m, o) {
          assert SumFrom([], 0) == 0.0;
        }
      }
    }
  }

  // The increments since the last alarm, this window's included.
  function Pending(cfg: Config, root: real -> real, os: seq<Obs>, o: Obs): seq<real> {
    Increments(cfg, root, os) + [Residual(cfg, root, Run(cfg, root, FRESH, os), o)]
  }

  /** The next window raises the CUSUM alarm exactly when it is scored and some run of consecutive
      windows ending with it, begun after the last alarm, sums above the decision interval. */
  lemma PageAlarm(cfg: Config, root: real -> real, os: seq<Obs>, o: Obs)
    ensures CusumAlarm(cfg, root, Run(cfg, root, FRESH, os), o)
       <==> Scored(cfg, Run(cfg, root, FRESH, os))
            && exists j: nat :: j <= |Pending(cfg, root, os, o)| && SumFrom(Pending(cfg, root, os, o), j) > cfg.cusumH
  {
    hide Run, Increments;
    var m := Run(cfg, root, FRESH, os);
    PageClosedForm(cfg, root, os);
    LargestStep(Increments(cfg, root, os), m.g, Residual(cfg, root, m, o));
    LargestExceeds(Pending(cfg, root, os, o), Score(cfg, root, m, o), cfg.cusumH);
  }

  lemma LargestExceeds(s: seq<real>, v: real, h: real)
    requires LargestSuffixSum(s, v)
    ensures v > h <==> exists j: nat :: j <= |s| && SumFrom(s, j) > h
  {
  }

  // Window i of ps, judged after the i before it, is scored and exceeds the slack by delta.
  ghost predicate Shifted(cfg: Config, root: real -> real, m: Monitor, ps: seq<Obs>, delta: real, i: nat)
    requires i < |ps|
  {
    var mi := Run(cfg, root, m, ps[..i]);
    Scored(cfg, mi) && Residual(cfg, root, mi, ps[i]) >= delta
  }

  ghost predicate AlarmAt(cfg: Config, root: real -> real, m: Monitor, ps: seq<Obs>, i: nat)
    requires i < |ps|
  {
    CusumAlarm(cfg, root, Run(cfg, root, m, ps[..i]), ps[i])
  }

  lemma GrowthStep(cfg: Config, root: real -> real, m: Monitor, o: Obs, delta: real)
    requires Scored(cfg, m) && Residual(cfg, root, m, o) >= delta && !CusumAlarm(cfg, root, m, o)
    ensures Next(cfg, root, m, o).g >= m.g + delta && Next(cfg, root, m, o).g >= 0.0
  {
    hide Residual, Fires;
  }

  lemma {:induction false} QuietGrowth(cfg: Config, root: real -> real, m: Monitor, ps: seq<Obs>, n: nat, delta: real)
    requires m.g >= 0.0 && n <= |ps|
    requires forall i: nat :: i < n ==> Shifted(cfg, root, m, ps, delta, i) && !AlarmAt(cfg, root, m, ps, i)
    ensures Run(cfg, root, m, ps[..n]).g >= n as real * delta && Run(cfg, root, m, ps[..n]).g >= 0.0
  {
    hide Residual, CusumAlarm, Next, Scored;
    if n > 0 {
      var k := n - 1;
      QuietGrowth(cfg, root, m, ps, k, delta);
      var mk := Run(cfg, root, m, ps[..k]);
      assert Shifted(cfg, root, m, ps, delta, k) && !AlarmAt(cfg, root, m, ps, k);
      GrowthStep(cfg, root, mk, ps[k], delta);
      assert ps[..n] == ps[..k] + [ps[k]];
      RunStep(cfg, root, m, ps[..k], ps[k]);
      assert k as real * delta + delta == n as real * delta;
    }
  }

  /** A shift of at least delta a window, whatever came before, is flagged within floor(h/delta) + 1
      windows. */
  lemma DetectionDelay(cfg: Config, root: real -> real, m: Monitor, ps: seq<Obs>, delta: real)
    requires m.g >= 0.0 && delta > 0.0 && cfg.cusumH >= 0.0
    requires |ps| == (cfg.cusumH / delta).Floor + 1
    requires forall i: nat :: i < |ps| ==> Shifted(cfg, root, m, ps, delta, i)
    ensures exists i: nat :: i < |ps| && AlarmAt(cfg, root, m, ps, i)
  {
    hide Run, Residual;
    var n := |ps| - 1;
    if forall i: nat :: i < n ==> !AlarmAt(cfg, root, m, ps, i) {
      QuietGrowth(cfg, root, m, ps, n, delta);
      assert Shifted(cfg, root, m, ps, delta, n);
      FloorBound(cfg.cusumH, delta, |ps|);
      assert n as real * delta + delta == |ps| as real * delta;
      assert AlarmAt(cfg, root, m, ps, n);
    }
  }

  lemma FloorBound(h: real, delta: real, n: nat)
    requires delta > 0.0 && h >= 0.0 && n == (h / delta).Floor + 1
    ensures n as real * delta > h
  {
    assert n as real > h / delta;
    assert n as real * delta > (h / delta) * delta by { Scaled(h / delta, n as real, delta); }
    assert (h / delta) * delta == h;
  }

  lemma Scaled(x: real, y: real, c: real)
    requires x < y && c > 0.0
    ensures x * c < y * c
  {
    assert (y - x) * c > 0.0;
  }

  // ---- baselines learn exactly the windows in which their class is quiet ----------------

  datatype Metric = Syn | Imbalance | FinRst | Icmp | Udp | Pps

  function Base(m: Monitor, q: Metric): Baseline {
    match q
    case Syn => m.syn case Imbalance => m.imbal case FinRst => m.finrst
    case Icmp => m.icmp case Udp => m.udp case Pps => m.pps
  }

  function Value(o: Obs, q: Metric): real {
    match q
    case Syn => o.syn case Imbalance => o.imbal case FinRst => o.finrst
    case Icmp => o.icmp case Udp => o.udp case Pps => o.pps
  }

  // The class whose alarm freezes the metric's baseline.
  function Owner(q: Metric): Class {
    match q
    case Syn => SYN case Imbalance => SYN case FinRst => FIN
    case Icmp => ICMP case Udp => UDP case Pps => PPS
  }

  function Accepted(cfg: Config, root: real -> real, os: seq<Obs>, q: Metric): seq<real> {
    if os == [] then []
    else
      var before, o := os[..|os| - 1], os[|os| - 1];
      var xs := Accepted(cfg, root, before, q);
      if Fires(cfg, root, Run(cfg, root, FRESH, before), o, Owner(q)) then xs else xs + [Value(o, q)]
  }

  /** Over any run each baseline is the fold of the observations whose owning class did not fire;
      RST owns no baseline, so an RST cap alone freezes nothing. */
  lemma {:induction false} BaselineIsFold(cfg: Config, root: real -> real, os: seq<Obs>, q: Metric)
    ensures Base(Run(cfg, root, FRESH, os), q) == Fold(EMPTY, Accepted(cfg, root, os, q), cfg.lam)
  {
    if os != [] {
      var before, o := os[..|os| - 1], os[|os| - 1];
      BaselineIsFold(cfg, root, before, q);
      hide Fires, Baseline.Updated;
      var m, xs := Run(cfg, root, FRESH, before), Accepted(cfg, root, before, q);
      Init(xs, Value(o, q));
      assert Base(Next(cfg, root, m, o), q)
          == Adapt(Base(m, q), Fires(cfg, root, m, o, Owner(q)), Value(o, q), cfg.lam);
    }
  }

  ghost predicate Stays(os: seq<Obs>, q: Metric, lo: real, hi: real) {
    forall i :: 0 <= i < |os| ==> lo <= Value(os[i], q) <= hi
  }

  lemma {:induction false} AcceptedWithin(cfg: Config, root: real -> real, os: seq<Obs>, q: Metric, lo: real, hi: real)
    requires Stays(os, q, lo, hi)
    ensures Within(Accepted(cfg, root, os, q), lo, hi)
  {
    hide Fires, Run;
    if os != [] {
      assert Stays(os[..|os| - 1], q, lo, hi);
      AcceptedWithin(cfg, root, os[..|os| - 1], q, lo, hi);
    }
  }

  /** A metric observed in [lo, hi] has its baseline mean there and its variance in the matching range. */
  lemma BaselineWithin(cfg: Config, root: real -> real, os: seq<Obs>, q: Metric, lo: real, hi: real)
    requires 0.0 <= cfg.lam <= 1.0 && Stays(os, q, lo, hi)
    ensures var b := Base(Run(cfg, root, FRESH, os), q);
            b.ready ==> lo <= b.mean <= hi && 0.0 <= b.variance <= (hi - b.mean) * (b.mean - lo)
  {
    hide *;
    var xs := Accepted(cfg, root, os, q);
    BaselineIsFold(cfg, root, os, q);
    AcceptedWithin(cfg, root, os, q, lo, hi);
    if xs == [] {
      NotReady(cfg.lam);
    } else {
      BoundedObservations(xs, cfg.lam, lo, hi);
    }
  }

  lemma NotReady(lam: real)
    ensures !Fold(EMPTY, [], lam).ready
  {
  }

  // ---- no false alarms ----------------------------------------------------------------

  lemma BandHolds(b: Baseline, root: real -> real, k: real, floor: real, x: real, lo: real, hi: real)
    requires lo <= b.mean && lo <= x <= hi && k >= 0.0 && hi - lo <= k * floor
    ensures x <= b.Limit(root, k, floor)
  {
    var s := b.Spread(root, floor);
    assert k * (s - floor) >= 0.0;
    assert k * s >= k * floor;
  }

  function Cap(cfg: Config, q: Metric): real {
    match q
    case Syn => cfg.thSyn case Imbalance => cfg.thSyn case FinRst => cfg.thFin
    case Icmp => cfg.thIcmp case Udp => cfg.thUdp case Pps => cfg.thPps
  }

  /** Without its hard cap, a ratio metric that stays in an interval no wider than ewma_k * 0.02
      never fires its band, over any number of windows. */
  lemma RatioBandQuiet(cfg: Config, root: real -> real, os: seq<Obs>, o: Obs, q: Metric, lo: real, hi: real)
    requires 0.0 <= cfg.lam <= 1.0 && q in {FinRst, Icmp, Udp} && Cap(cfg, q) <= 0.0
    requires Stays(os + [o], q, lo, hi) && 0.0 <= hi - lo <= cfg.ewmaK * RATIO_FLOOR
    ensures !Fires(cfg, root, Run(cfg, root, FRESH, os), o, Owner(q))
  {
    hide Run;
    assert os == (os + [o])[..|os|] && (os + [o])[|os|] == o;
    assert Stays(os, q, lo, hi) by {
      forall i | 0 <= i < |os| ensures os[i] == (os + [o])[i] {}
    }
    BaselineWithin(cfg, root, os, q, lo, hi);
    var b := Base(Run(cfg, root, FRESH, os), q);
    if b.ready {
      BandHolds(b, root, cfg.ewmaK, RATIO_FLOOR, Value(o, q), lo, hi);
    }
  }

  /** The packet-rate band has a relative floor, so its quiet width is ewma_k * max(lo / 4, 1). */
  lemma RateBandQuiet(cfg: Config, root: real -> real, os: seq<Obs>, o: Obs, lo: real, hi: real)
    requires 0.0 <= cfg.lam <= 1.0 && cfg.thPps <= 0.0 && cfg.ewmaK >= 0.0
    requires Stays(os + [o], Pps, lo, hi) && 0.0 <= hi - lo <= cfg.ewmaK * Max(lo * 0.25, 1.0)
    ensures !Fires(cfg, root, Run(cfg, root, FRESH, os), o, PPS)
  {
    hide Run;
    assert os == (os + [o])[..|os|] && (os + [o])[|os|] == o;
    assert Stays(os, Pps, lo, hi) by {
      forall i | 0 <= i < |os| ensures os[i] == (os + [o])[i] {}
    }
    BaselineWithin(cfg, root, os, Pps, lo, hi);
    var b := Base(Run(cfg, root, FRESH, os), Pps);
    if b.ready {
      var f, f' := Max(lo * 0.25, 1.0), PpsFloor(b);
      assert f <= f';
      assert cfg.ewmaK * (f' - f) >= 0.0;
      BandHolds(b, root, cfg.ewmaK, f', o.pps, lo, hi);
    }
  }

  lemma QuotientAtMost(d: real, s: real, k: real, f: real)
    requires s >= f > 0.0 && d <= k * f && k >= 0.0
    ensures d / s <= k
  {
    assert k * (s - f) >= 0.0;
    assert d <= k * s;
    var q := d / s;
    assert q * s == d;
    if q > k {
      Scaled(k, q, s);
    }
  }

  lemma SmallResidual(b: Baseline, root: real -> real, x: real, lo: real, hi: real, k: real)
    requires lo <= b.mean <= hi && lo <= x <= hi && hi - lo <= k * RATIO_FLOOR
    ensures b.Z(root, x, RATIO_FLOOR) <= k
  {
    QuotientAtMost(x - b.mean, b.Spread(root, RATIO_FLOOR), k, RATIO_FLOOR);
  }

  /** Without the SYN hard cap, an imbalance that stays in an interval no wider than cusum_k * 0.02
      keeps the CUSUM at zero for ever, so SYN never fires. */
  lemma {:induction false} ImbalanceQuiet(cfg: Config, root: real -> real, os: seq<Obs>, lo: real, hi: real)
    requires 0.0 <= cfg.lam <= 1.0 && cfg.thSyn <= 0.0 && cfg.cusumH >= 0.0
    requires Stays(os, Imbalance, lo, hi) && 0.0 <= hi - lo <= cfg.cusumK * RATIO_FLOOR
    ensures Run(cfg, root, FRESH, os).g == 0.0
    ensures os != [] ==> !Fires(cfg, root, Run(cfg, root, FRESH, os[..|os| - 1]), os[|os| - 1], SYN)
  {
    if os != [] {
      var before, o := os[..|os| - 1], os[|os| - 1];
      ImbalanceQuiet(cfg, root, before, lo, hi);
      BaselineWithin(cfg, root, before, Imbalance, lo, hi);
      var m := Run(cfg, root, FRESH, before);
      if Scored(cfg, m) {
        SmallResidual(m.imbal, root, o.imbal, lo, hi, cfg.cusumK);
        assert Score(cfg, root, m, o) == 0.0;
      }
    }
  }

  /** The comment above the adaptation step says any metric that fired is frozen. Of a window that fires
      RST and shows a FIN/RST ratio other than the mean, the baseline learns nothing exactly when FIN
      fires too. */
  lemma RstFreezesIffFin(cfg: Config, root: real -> real, m: Monitor, o: Obs)
    requires Fires(cfg, root, m, o, RST) && cfg.lam != 0.0
    requires m.finrst.ready ==> o.finrst != m.finrst.mean
    ensures Next(cfg, root, m, o).finrst == m.finrst <==> Fires(cfg, root, m, o, FIN)
  {
    hide Fires, CusumAlarm, Score;
    var b := m.finrst;
    if b.ready {
      NonzeroProduct(cfg.lam, o.finrst - b.mean);
      assert b.Updated(o.finrst, cfg.lam).mean != b.mean;
    }
  }

  lemma NonzeroProduct(x: real, y: real)
    requires x != 0.0 && y != 0.0
    ensures x * y != 0.0
  {
  }

  // The exception is not empty: this window fires RST alone and its ratio is learnt.
  lemma RstAlarmIsLearnt(root: real -> real)
    ensures var cfg := Config(0.0, 0.0, 0.5, 0.0, 0.0, 0.0, 100, 0, 8, 0.3, 3.0, 0.5, 5.0);
            var o := Obs(0.0, 0.9, 0.0, 0.0, 100.0, -0.9);
            Fired(cfg, root, FRESH, o) == [RST] && Next(cfg, root, FRESH, o).finrst == Baseline(0.9, 0.0, true)
  {
    var cfg := Config(0.0, 0.0, 0.5, 0.0, 0.0, 0.0, 100, 0, 8, 0.3, 3.0, 0.5, 5.0);
    assert Warming(cfg, FRESH) && !FRESH.imbal.ready;
  }
}
