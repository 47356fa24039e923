/** The broker's threshold monitor: a CUSUM on the SYN/FIN imbalance and five EWMA bands over
    fixed-count windows. The square root is a parameter; alert texts are not part of this model. */
module Detector {
  import opened Ewma

  const RATIO_FLOOR := 0.02

  datatype Class = SYN | FIN | RST | ICMP | UDP | PPS

  // Hard caps at or below zero are unused.
  datatype Config = Config(
    thSyn: real, thFin: real, thRst: real, thIcmp: real, thUdp: real, thPps: real,
    countMax: nat, intervalMs: nat,
    warmup: nat, lam: real, ewmaK: real, cusumK: real, cusumH: real)

  datatype Counts = Counts(all: nat, syn: nat, finrst: nat, icmp: nat, udp: nat)

  const NO_COUNTS := Counts(0, 0, 0, 0, 0)

  // What one closed window shows.
  datatype Obs = Obs(syn: real, finrst: real, icmp: real, udp: real, pps: real, imbal: real)

  datatype Monitor = Monitor(windows: nat, syn: Baseline, finrst: Baseline, icmp: Baseline,
                             udp: Baseline, pps: Baseline, imbal: Baseline, g: real)

  const FRESH := Monitor(0, EMPTY, EMPTY, EMPTY, EMPTY, EMPTY, EMPTY, 0.0)

  function Max(x: real, y: real): real { if x < y then y else x }

  function Observe(c: Counts, spanMs: nat): Obs
    requires c.all > 0
  {
    var n := c.all as real;
    var syn, finrst := c.syn as real / n, c.finrst as real / n;
    Obs(syn, finrst, c.icmp as real / n, c.udp as real / n,
        n / Max(spanMs as real / 1000.0, 0.001), syn - finrst)
  }

  function Tally(c: Counts, flag: nat): Counts {
    var c := c.(all := c.all + 1);
    match flag % 10
    case 1 | 6 => c.(syn := c.syn + 1)
    case 2 | 7 => c.(finrst := c.finrst + 1)
    case 3 | 8 => c.(udp := c.udp + 1)
    case 4 | 9 => c.(icmp := c.icmp + 1)
    case _ => c
  }

  // ---- what one window decides, metric by metric -----------------------------------

  predicate Warming(cfg: Config, m: Monitor) { m.windows + 1 <= cfg.warmup }

  predicate Scored(cfg: Config, m: Monitor) { m.imbal.ready && !Warming(cfg, m) }

  // This window's CUSUM increment.
  function Residual(cfg: Config, root: real -> real, m: Monitor, o: Obs): real {
    m.imbal.Z(root, o.imbal, RATIO_FLOOR) - cfg.cusumK
  }

  function Score(cfg: Config, root: real -> real, m: Monitor, o: Obs): real {
    Max(m.g + Residual(cfg, root, m, o), 0.0)
  }

  predicate CusumAlarm(cfg: Config, root: real -> real, m: Monitor, o: Obs) {
    Scored(cfg, m) && Score(cfg, root, m, o) > cfg.cusumH
  }

  predicate OverCap(cap: real, x: real) { cap > 0.0 && x > cap }

  predicate OverBand(cfg: Config, root: real -> real, warming: bool, b: Baseline, floor: real, x: real) {
    b.ready && !warming && x > b.Limit(root, cfg.ewmaK, floor)
  }

  function PpsFloor(b: Baseline): real { Max(b.mean * 0.25, 1.0) }

  predicate Fires(cfg: Config, root: real -> real, m: Monitor, o: Obs, c: Class) {
    match c
    case SYN => CusumAlarm(cfg, root, m, o) || OverCap(cfg.thSyn, o.syn)
    case FIN => OverBand(cfg, root, Warming(cfg, m), m.finrst, RATIO_FLOOR, o.finrst) || OverCap(cfg.thFin, o.finrst)
    case RST => OverCap(cfg.thRst, o.finrst)
    case ICMP => OverBand(cfg, root, Warming(cfg, m), m.icmp, RATIO_FLOOR, o.icmp) || OverCap(cfg.thIcmp, o.icmp)
    case UDP => OverBand(cfg, root, Warming(cfg, m), m.udp, RATIO_FLOOR, o.udp) || OverCap(cfg.thUdp, o.udp)
    case PPS => OverBand(cfg, root, Warming(cfg, m), m.pps, PpsFloor(m.pps), o.pps) || OverCap(cfg.thPps, o.pps)
  }

  function Only(yes: bool, c: Class): seq<Class> { if yes then [c] else [] }

  // The classes that fire, in the order the program lists them.
  function Fired(cfg: Config, root: real -> real, m: Monitor, o: Obs): seq<Class> {
    Only(Fires(cfg, root, m, o, SYN), SYN) + Only(Fires(cfg, root, m, o, FIN), FIN)
    + Only(Fires(cfg, root, m, o, RST), RST) + Only(Fires(cfg, root, m, o, ICMP), ICMP)
    + Only(Fires(cfg, root, m, o, UDP), UDP) + Only(Fires(cfg, root, m, o, PPS), PPS)
  }

  // A baseline learns the window unless its class fired.
  function Adapt(b: Baseline, frozen: bool, x: real, lam: real): Baseline {
    if frozen then b else b.Updated(x, lam)
  }

  function Next(cfg: Config, root: real -> real, m: Monitor, o: Obs): Monitor {
    var l := cfg.lam;
    Monitor(m.windows + 1,
            Adapt(m.syn, Fires(cfg, root, m, o, SYN), o.syn, l),
            Adapt(m.finrst, Fires(cfg, root, m, o, FIN), o.finrst, l),
            Adapt(m.icmp, Fires(cfg, root, m, o, ICMP), o.icmp, l),
            Adapt(m.udp, Fires(cfg, root, m, o, UDP), o.udp, l),
            Adapt(m.pps, Fires(cfg, root, m, o, PPS), o.pps, l),
            Adapt(m.imbal, Fires(cfg, root, m, o, SYN), o.imbal, l),
            if CusumAlarm(cfg, root, m, o) then 0.0
            else if Scored(cfg, m) then Score(cfg, root, m, o)
            else m.g)
  }

  // ---- the program ------------------------------------------------------------------

  class Thmon {
    const cfg: Config
    const root: real -> real
    var counts: Counts
    var windowStartMs: nat
    var windows: nat
    var cooldownUntil: nat
    const eSyn: Cell
    const eFinrst: Cell
    const eIcmp: Cell
    const eUdp: Cell
    const ePps: Cell
    const eImbal: Cell
    var cusumG: real

    ghost const Cells: set<object>

    ghost predicate Valid() {
      && Cells == {eSyn, eFinrst, eIcmp, eUdp, ePps, eImbal}
      && eFinrst !in {eSyn}
      && eIcmp !in {eSyn, eFinrst}
      && eUdp !in {eSyn, eFinrst, eIcmp}
      && ePps !in {eSyn, eFinrst, eIcmp, eUdp}
      && eImbal !in {eSyn, eFinrst, eIcmp, eUdp, ePps}
    }

    ghost function View(): Monitor
      reads this, eSyn, eFinrst, eIcmp, eUdp, ePps, eImbal
    {
      Monitor(windows, eSyn.View(), eFinrst.View(), eIcmp.View(), eUdp.View(), ePps.View(), eImbal.View(), cusumG)
    }

    constructor (cfg: Config, root: real -> real)
      ensures Valid() && fresh(Cells)
      ensures this.cfg == cfg && this.root == root
      ensures View() == FRESH && counts == NO_COUNTS && cooldownUntil == 0
    {
      this.cfg, this.root := cfg, root;
      counts, windowStartMs, windows, cooldownUntil := NO_COUNTS, 0, 0, 0;
      var a := new Cell();
      var b := new Cell();
      var c := new Cell();
      var d := new Cell();
      var e := new Cell();
      var f := new Cell();
      eSyn, eFinrst, eIcmp, eUdp, ePps, eImbal := a, b, c, d, e, f;
      Cells := {a, b, c, d, e, f};
      cusumG := 0.0;
    }

    // Judges the window that closes at nowMs; raised says whether the alert gets past the cooldown.
    method Analyze(nowMs: nat) returns (fired: seq<Class>, raised: bool)
      requires Valid() && counts.all > 0 && windowStartMs <= nowMs
      modifies this, Cells
      ensures counts == old(counts) && windowStartMs == old(windowStartMs)
      ensures var o := Observe(counts, nowMs - windowStartMs);
              fired == Fired(cfg, root, old(View()), o) && View() == Next(cfg, root, old(View()), o)
      ensures raised == (fired != [] && nowMs >= old(cooldownUntil))
      ensures cooldownUntil == if raised then nowMs + cfg.intervalMs else old(cooldownUntil)
    {
      hide Observe, Fired, CusumAlarm, Fires, Score, Adapt;
      ghost var m := View();
      var o := Observe(counts, nowMs - windowStartMs);
      windows := windows + 1;
      var warming := windows <= cfg.warmup;

      fired := Judge(o, warming, m);
      Learn(o, fired, m);

      raised := !(fired == [] || nowMs < cooldownUntil);
      if raised {
        cooldownUntil := nowMs + cfg.intervalMs;
      }
    }

    // Every chart and cap, in the program's order.
    method Judge(o: Obs, warming: bool, ghost m: Monitor) returns (fired: seq<Class>)
      requires Valid() && warming == Warming(cfg, m) && View() == m.(windows := windows)
      modifies this`cusumG
      ensures fired == Fired(cfg, root, m, o)
      ensures cusumG == if CusumAlarm(cfg, root, m, o) then 0.0
                        else if Scored(cfg, m) then Score(cfg, root, m, o)
                        else m.g
    {
      hide OverBand, OverCap, CusumAlarm, Score, PpsFloor, Only;
      fired := JudgeTcp(o, warming, m);
      fired := Band(eIcmp, o.icmp, RATIO_FLOOR, cfg.thIcmp, warming, ICMP, fired);
      fired := Band(eUdp, o.udp, RATIO_FLOOR, cfg.thUdp, warming, UDP, fired);
      fired := Band(ePps, o.pps, PpsFloor(ePps.View()), cfg.thPps, warming, PPS, fired);
    }

    // The charts of the TCP flags; RST has a hard cap only.
    method JudgeTcp(o: Obs, warming: bool, ghost m: Monitor) returns (fired: seq<Class>)
      requires Valid() && warming == Warming(cfg, m) && View() == m.(windows := windows)
      modifies this`cusumG
      ensures fired == Only(Fires(cfg, root, m, o, SYN), SYN) + Only(Fires(cfg, root, m, o, FIN), FIN)
                       + Only(Fires(cfg, root, m, o, RST), RST)
      ensures forall c :: c in fired ==> c in {SYN, FIN, RST}
      ensures cusumG == if CusumAlarm(cfg, root, m, o) then 0.0
                        else if Scored(cfg, m) then Score(cfg, root, m, o)
                        else m.g
    {
      hide OverBand, CusumAlarm, Score;
      fired := SynChart(o, warming, m);
      fired := Band(eFinrst, o.finrst, RATIO_FLOOR, cfg.thFin, warming, FIN, fired);
      if cfg.thRst > 0.0 && o.finrst > cfg.thRst && RST !in fired {
        fired := fired + [RST];
      }
    }

    // The CUSUM on the standardised imbalance, then the SYN hard cap.
    method SynChart(o: Obs, warming: bool, ghost m: Monitor) returns (fired: seq<Class>)
      requires warming == Warming(cfg, m) && m.g == cusumG && m.imbal == eImbal.View()
      modifies this`cusumG
      ensures forall c :: c in fired ==> c == SYN
      ensures fired == Only(CusumAlarm(cfg, root, m, o) || OverCap(cfg.thSyn, o.syn), SYN)
      ensures cusumG == if CusumAlarm(cfg, root, m, o) then 0.0
                        else if Scored(cfg, m) then Score(cfg, root, m, o)
                        else m.g
    {
      fired := [];
      if eImbal.ready && !warming {
        var z := eImbal.View().Z(root, o.imbal, RATIO_FLOOR);
        cusumG := Max(cusumG + z - cfg.cusumK, 0.0);
        assert cusumG == Score(cfg, root, m, o);
        if cusumG > cfg.cusumH {
          fired := fired + [SYN];
          cusumG := 0.0;
        }
      }
      if cfg.thSyn > 0.0 && o.syn > cfg.thSyn && SYN !in fired {
        fired := fired + [SYN];
      }
    }

    // Adapts every baseline whose class did not fire.
    method Learn(o: Obs, fired: seq<Class>, ghost m: Monitor)
      requires Valid() && fired == Fired(cfg, root, m, o)
      modifies Cells
      ensures eSyn.View() == Adapt(old(eSyn.View()), Fires(cfg, root, m, o, SYN), o.syn, cfg.lam)
      ensures eImbal.View() == Adapt(old(eImbal.View()), Fires(cfg, root, m, o, SYN), o.imbal, cfg.lam)
      ensures eFinrst.View() == Adapt(old(eFinrst.View()), Fires(cfg, root, m, o, FIN), o.finrst, cfg.lam)
      ensures eIcmp.View() == Adapt(old(eIcmp.View()), Fires(cfg, root, m, o, ICMP), o.icmp, cfg.lam)
      ensures eUdp.View() == Adapt(old(eUdp.View()), Fires(cfg, root, m, o, UDP), o.udp, cfg.lam)
      ensures ePps.View() == Adapt(old(ePps.View()), Fires(cfg, root, m, o, PPS), o.pps, cfg.lam)
    {
      forall c: Class
        ensures c in fired <==> Fires(cfg, root, m, o, c)
      {
        FiredIff(cfg, root, m, o, c);
      }
      hide Fires, Fired, Baseline.Updated;
      if SYN !in fired {
        eSyn.Update(o.syn, cfg.lam);
        eImbal.Update(o.imbal, cfg.lam);
      }
      if FIN !in fired {
        eFinrst.Update(o.finrst, cfg.lam);
      }
      if ICMP !in fired {
        eIcmp.Update(o.icmp, cfg.lam);
      }
      if UDP !in fired {
        eUdp.Update(o.udp, cfg.lam);
      }
      if PPS !in fired {
        ePps.Update(o.pps, cfg.lam);
      }
    }

    // One control-chart band followed by its hard cap.
    method Band(e: Cell, x: real, floor: real, cap: real, warming: bool, name: Class, fired: seq<Class>)
      returns (fired': seq<Class>)
      requires name !in fired
      ensures forall c :: c in fired' ==> c in fired || c == name
      ensures fired' == fired + Only(OverBand(cfg, root, warming, e.View(), floor, x) || OverCap(cap, x), name)
    {
      fired' := fired;
      if e.ready && !warming {
        var lim := e.View().Limit(root, cfg.ewmaK, floor);
        if x > lim {
          fired' := fired' + [name];
        }
      }
      if cap > 0.0 && x > cap && name !in fired' {
        fired' := fired' + [name];
      }
    }

    // Feeds one event flag; a window closes every countMax events.
    method OnFlag(flag: nat, nowMs: nat) returns (closed: bool, fired: seq<Class>, raised: bool)
      requires Valid() && (counts.all > 0 ==> windowStartMs <= nowMs)
      modifies this, Cells
      ensures closed == (old(counts.all) + 1 >= cfg.countMax)
      ensures windowStartMs == if old(counts.all) == 0 then nowMs else old(windowStartMs)
      ensures counts == if closed then NO_COUNTS else Tally(old(counts), flag)
      ensures !closed ==> fired == [] && !raised && View() == old(View()) && cooldownUntil == old(cooldownUntil)
      ensures closed ==>
                var o := Observe(Tally(old(counts), flag), nowMs - windowStartMs);
                fired == Fired(cfg, root, old(View()), o) && View() == Next(cfg, root, old(View()), o)
      ensures raised == (fired != [] && nowMs >= old(cooldownUntil))
      ensures cooldownUntil == if raised then nowMs + cfg.intervalMs else old(cooldownUntil)
    {
      if counts.all == 0 {
        windowStartMs := nowMs;
      }
      hide Observe, Fired, Next;
      counts := Tally(counts, flag);
      closed, fired, raised := false, [], false;
      if counts.all >= cfg.countMax {
        fired, raised := Analyze(nowMs);
        counts := NO_COUNTS;
        closed := true;
      }
    }
  }

  lemma OnlyIn(yes: bool, d: Class, c: Class)
    ensures c in Only(yes, d) <==> yes && c == d
  {
  }

  lemma FiredIff(cfg: Config, root: real -> real, m: Monitor, o: Obs, c: Class)
    ensures c in Fired(cfg, root, m, o) <==> Fires(cfg, root, m, o, c)
  {
    OnlyIn(Fires(cfg, root, m, o, SYN), SYN, c);
    OnlyIn(Fires(cfg, root, m, o, FIN), FIN, c);
    OnlyIn(Fires(cfg, root, m, o, RST), RST, c);
    OnlyIn(Fires(cfg, root, m, o, ICMP), ICMP, c);
    OnlyIn(Fires(cfg, root, m, o, UDP), UDP, c);
    OnlyIn(Fires(cfg, root, m, o, PPS), PPS, c);
    hide Fires, Only;
  }
}
