/** The agent-side monitor pt_thmon, which counts TCP header bits instead of broker flags, and its
    agreement with the broker's monitor on the same packets. */
module DetectorC {
  import opened Ewma
  import opened Detector

  datatype CCounts = CCounts(all: nat, syn: nat, fin: nat, rst: nat, icmp: nat, udp: nat)

  const NO_CCOUNTS := CCounts(0, 0, 0, 0, 0, 0)

  datatype CObs = CObs(syn: real, fin: real, rst: real, icmp: real, udp: real, pps: real, imbal: real)

  datatype CMonitor = CMonitor(windows: nat, syn: Baseline, fin: Baseline, rst: Baseline, icmp: Baseline,
                               udp: Baseline, pps: Baseline, imbal: Baseline, g: real)

  const CFRESH := CMonitor(0, EMPTY, EMPTY, EMPTY, EMPTY, EMPTY, EMPTY, EMPTY, 0.0)

  datatype Alarms = Alarms(syn: bool, fin: bool, rst: bool, icmp: bool, udp: bool, pps: bool)

  function CObserve(c: CCounts, spanUs: nat): CObs
    requires c.all > 0
  {
    var n := c.all as real;
    var syn, fin, rst := c.syn as real / n, c.fin as real / n, c.rst as real / n;
    CObs(syn, fin, rst, c.icmp as real / n, c.udp as real / n,
         n / Max(spanUs as real / 1000000.0, 1.0), syn - (fin + rst))
  }

  predicate CWarming(cfg: Config, m: CMonitor) { m.windows + 1 <= cfg.warmup }

  predicate CScored(cfg: Config, m: CMonitor) { m.imbal.ready && !CWarming(cfg, m) }

  function CScore(cfg: Config, root: real -> real, m: CMonitor, o: CObs): real {
    Max(m.g + (m.imbal.Z(root, o.imbal, RATIO_FLOOR) - cfg.cusumK), 0.0)
  }

  predicate CCusumAlarm(cfg: Config, root: real -> real, m: CMonitor, o: CObs) {
    CScored(cfg, m) && CScore(cfg, root, m, o) > cfg.cusumH
  }

  predicate Chart(cfg: Config, root: real -> real, warming: bool, b: Baseline, floor: real, cap: real, x: real) {
    OverBand(cfg, root, warming, b, floor, x) || OverCap(cap, x)
  }

  function CAlarms(cfg: Config, root: real -> real, m: CMonitor, o: CObs): Alarms {
    var w := CWarming(cfg, m);
    Alarms(CCusumAlarm(cfg, root, m, o) || OverCap(cfg.thSyn, o.syn),
           Chart(cfg, root, w, m.fin, RATIO_FLOOR, cfg.thFin, o.fin),
           Chart(cfg, root, w, m.rst, RATIO_FLOOR, cfg.thRst, o.rst),
           Chart(cfg, root, w, m.icmp, RATIO_FLOOR, cfg.thIcmp, o.icmp),
           Chart(cfg, root, w, m.udp, RATIO_FLOOR, cfg.thUdp, o.udp),
           Chart(cfg, root, w, m.pps, PpsFloor(m.pps), cfg.thPps, o.pps))
  }

  function CNext(cfg: Config, root: real -> real, m: CMonitor, o: CObs): CMonitor {
    var a, l := CAlarms(cfg, root, m, o), cfg.lam;
    CMonitor(m.windows + 1,
             Adapt(m.syn, a.syn, o.syn, l), Adapt(m.fin, a.fin, o.fin, l), Adapt(m.rst, a.rst, o.rst, l),
             Adapt(m.icmp, a.icmp, o.icmp, l), Adapt(m.udp, a.udp, o.udp, l), Adapt(m.pps, a.pps, o.pps, l),
             Adapt(m.imbal, a.syn, o.imbal, l),
             if CCusumAlarm(cfg, root, m, o) then 0.0
             else if CScored(cfg, m) then CScore(cfg, root, m, o)
             else m.g)
  }

  // ---- the program ------------------------------------------------------------------

  class PtThmon {
    const cfg: Config
    const root: real -> real
    var windows: nat
    const eSyn: Cell
    const eFin: Cell
    const eRst: Cell
    const eIcmp: Cell
    const eUdp: Cell
    const ePps: Cell
    const eImbal: Cell
    var cusumG: real

    ghost const Cells: set<object>

    ghost predicate Valid() {
      && Cells == {eSyn, eFin, eRst, eIcmp, eUdp, ePps, eImbal}
      && eFin !in {eSyn}
      && eRst !in {eSyn, eFin}
      && eIcmp !in {eSyn, eFin, eRst}
      && eUdp !in {eSyn, eFin, eRst, eIcmp}
      && ePps !in {eSyn, eFin, eRst, eIcmp, eUdp}
      && eImbal !in {eSyn, eFin, eRst, eIcmp, eUdp, ePps}
    }

    ghost function View(): CMonitor
      reads this, eSyn, eFin, eRst, eIcmp, eUdp, ePps, eImbal
    {
      CMonitor(windows, eSyn.View(), eFin.View(), eRst.View(), eIcmp.View(), eUdp.View(), ePps.View(),
               eImbal.View(), cusumG)
    }

    // Judges one full window of counts that spans spanUs microseconds.
    method Analyze(counts: CCounts, spanUs: nat) returns (fire: Alarms)
      requires Valid() && counts.all > 0
      modifies this, Cells
      ensures var o := CObserve(counts, spanUs);
              fire == CAlarms(cfg, root, old(View()), o) && View() == CNext(cfg, root, old(View()), o)
    {
      hide CObserve, Adapt, CCusumAlarm, CScore, CAlarms;
      ghost var m := View();
      var o := CObserve(counts, spanUs);
      windows := windows + 1;
      var warming := windows <= cfg.warmup;
      fire := Judge(o, warming, m);
      Learn(o, fire);
    }

    // Every chart and cap, in the program's order.
    method Judge(o: CObs, warming: bool, ghost m: CMonitor) returns (fire: Alarms)
      requires Valid() && warming == CWarming(cfg, m) && View() == m.(windows := windows)
      modifies this`cusumG
      ensures fire == CAlarms(cfg, root, m, o)
      ensures cusumG == if CCusumAlarm(cfg, root, m, o) then 0.0
                        else if CScored(cfg, m) then CScore(cfg, root, m, o)
                        else m.g
    {
      hide CCusumAlarm, Chart, CScore;
      var syn := SynChart(o, warming, m);
      var fin := Band(eFin, o.fin, RATIO_FLOOR, cfg.thFin, warming);
      var rst := Band(eRst, o.rst, RATIO_FLOOR, cfg.thRst, warming);
      var icmp := Band(eIcmp, o.icmp, RATIO_FLOOR, cfg.thIcmp, warming);
      var udp := Band(eUdp, o.udp, RATIO_FLOOR, cfg.thUdp, warming);
      var pps := Band(ePps, o.pps, PpsFloor(ePps.View()), cfg.thPps, warming);
      fire := Alarms(syn, fin, rst, icmp, udp, pps);
    }

    method SynChart(o: CObs, warming: bool, ghost m: CMonitor) returns (fire: bool)
      requires warming == CWarming(cfg, m) && m.g == cusumG && m.imbal == eImbal.View()
      modifies this`cusumG
      ensures fire == (CCusumAlarm(cfg, root, m, o) || OverCap(cfg.thSyn, o.syn))
      ensures cusumG == if CCusumAlarm(cfg, root, m, o) then 0.0
                        else if CScored(cfg, m) then CScore(cfg, root, m, o)
                        else m.g
    {
      fire := false;
      if eImbal.ready && !warming {
        cusumG := cusumG + (eImbal.View().Z(root, o.imbal, RATIO_FLOOR) - cfg.cusumK);
        if cusumG < 0.0 {
          cusumG := 0.0;
        }
        assert cusumG == CScore(cfg, root, m, o);
        if cusumG > cfg.cusumH {
          fire := true;
          cusumG := 0.0;
        }
      }
      if !fire && cfg.thSyn > 0.0 && o.syn > cfg.thSyn {
        fire := true;
      }
    }

    method Band(e: Cell, x: real, floor: real, cap: real, warming: bool) returns (fire: bool)
      ensures fire == Chart(cfg, root, warming, e.View(), floor, cap, x)
    {
      fire := e.ready && !warming && x > e.View().Limit(root, cfg.ewmaK, floor);
      if !fire && cap > 0.0 && x > cap {
        fire := true;
      }
    }

    method Learn(o: CObs, fire: Alarms)
      requires Valid()
      modifies Cells
      ensures eSyn.View() == Adapt(old(eSyn.View()), fire.syn, o.syn, cfg.lam)
      ensures eImbal.View() == Adapt(old(eImbal.View()), fire.syn, o.imbal, cfg.lam)
      ensures eFin.View() == Adapt(old(eFin.View()), fire.fin, o.fin, cfg.lam)
      ensures eRst.View() == Adapt(old(eRst.View()), fire.rst, o.rst, cfg.lam)
      ensures eIcmp.View() == Adapt(old(eIcmp.View()), fire.icmp, o.icmp, cfg.lam)
      ensures eUdp.View() == Adapt(old(eUdp.View()), fire.udp, o.udp, cfg.lam)
      ensures ePps.View() == Adapt(old(ePps.View()), fire.pps, o.pps, cfg.lam)
    {
      hide Baseline.Updated;
      Adjust(eSyn, fire.syn, o.syn);
      Adjust(eImbal, fire.syn, o.imbal);
      Adjust(eFin, fire.fin, o.fin);
      Adjust(eRst, fire.rst, o.rst);
      Adjust(eIcmp, fire.icmp, o.icmp);
      Adjust(eUdp, fire.udp, o.udp);
      Adjust(ePps, fire.pps, o.pps);
    }

    method Adjust(e: Cell, frozen: bool, x: real)
      modifies e
      ensures e.View() == Adapt(old(e.View()), frozen, x, cfg.lam)
    {
      if !frozen { e.Update(x, cfg.lam); }
    }

    constructor (cfg: Config, root: real -> real)
      ensures Valid() && fresh(Cells) && View() == CFRESH && this.cfg == cfg && this.root == root
    {
      this.cfg, this.root := cfg, root;
      var a := new Cell();
      var b := new Cell();
      var c := new Cell();
      var d := new Cell();
      var e := new Cell();
      var f := new Cell();
      var g := new Cell();
      eSyn, eFin, eRst, eIcmp, eUdp, ePps, eImbal := a, b, c, d, e, f, g;
      Cells := {a, b, c, d, e, f, g};
      windows, cusumG := 0, 0.0;
    }
  }

  // ---- the two monitors on the same packets ----------------------------------------------

  // A packet with complete headers: its family and its upper-layer protocol.
  datatype Upper = Tcp(syn: bool, fin: bool, rst: bool) | Udp | Icmp | Other

  datatype Packet = V4(u: Upper) | V6(u: Upper)

  // The flag in the record that the capture agent sends for the packet; other protocols get none.
  function AgentFlag(p: Packet): nat
    requires !p.u.Other?
  {
    var base := if p.V6? then 5 else 0;
    match p.u
    case Tcp(syn, fin, rst) => if syn then base + 1 else if fin || rst then base + 2 else base
    case Udp => base + 3
    case Icmp => base + 4
  }

  function CTally(c: CCounts, p: Packet): CCounts {
    var c := c.(all := c.all + 1);
    if p.V6? then c
    else
      match p.u
      case Other => c
      case Udp => c.(udp := c.udp + 1)
      case Icmp => c.(icmp := c.icmp + 1)
      case Tcp(syn, fin, rst) =>
        c.(syn := c.syn + if syn then 1 else 0, fin := c.fin + if fin then 1 else 0, rst := c.rst + if rst then 1 else 0)
  }

  // A monitor between packets: counts of the open window, when it opened, adaptive state.
  datatype Broker = Broker(counts: Counts, startMs: nat, mon: Monitor)
  datatype Agent = Agent(counts: CCounts, startUs: nat, mon: CMonitor)
  datatype Arrival = Arrival(packet: Packet, ms: nat)

  const BROKER_START := Broker(NO_COUNTS, 0, FRESH)
  const AGENT_START := Agent(NO_CCOUNTS, 0, CFRESH)

  function BrokerOpen(s: Broker, a: Arrival): Broker
    requires !a.packet.u.Other?
  {
    Broker(Tally(s.counts, AgentFlag(a.packet)), if s.counts.all == 0 then a.ms else s.startMs, s.mon)
  }

  function AgentOpen(s: Agent, a: Arrival): Agent {
    Agent(CTally(s.counts, a.packet), if s.counts.all == 0 then 1000 * a.ms else s.startUs, s.mon)
  }

  function BrokerStep(cfg: Config, root: real -> real, s: Broker, a: Arrival): (Broker, seq<Class>) {
    if a.packet.u.Other? then (s, [])
    else
      var s' := BrokerOpen(s, a);
      if s'.counts.all < cfg.countMax || a.ms < s'.startMs then (s', [])
      else
        var o := Observe(s'.counts, a.ms - s'.startMs);
        (Broker(NO_COUNTS, s'.startMs, Next(cfg, root, s.mon, o)), Fired(cfg, root, s.mon, o))
  }

  const QUIET := Alarms(false, false, false, false, false, false)

  function AgentStep(cfg: Config, root: real -> real, s: Agent, a: Arrival): (Agent, Alarms) {
    var s' := AgentOpen(s, a);
    if s'.counts.all < cfg.countMax || 1000 * a.ms < s'.startUs then (s', QUIET)
    else
      var o := CObserve(s'.counts, 1000 * a.ms - s'.startUs);
      (Agent(NO_CCOUNTS, s'.startUs, CNext(cfg, root, s.mon, o)), CAlarms(cfg, root, s.mon, o))
  }

  function BrokerRun(cfg: Config, root: real -> real, tr: seq<Arrival>): Broker {
    if tr == [] then BROKER_START else BrokerStep(cfg, root, BrokerRun(cfg, root, tr[..|tr| - 1]), tr[|tr| - 1]).0
  }

  function AgentRun(cfg: Config, root: real -> real, tr: seq<Arrival>): Agent {
    if tr == [] then AGENT_START else AgentStep(cfg, root, AgentRun(cfg, root, tr[..|tr| - 1]), tr[|tr| - 1]).0
  }

  // Equal baselines and CUSUM state; the agent's RST baseline has seen only zeros.
  predicate SameState(m: Monitor, c: CMonitor) {
    && m == Monitor(c.windows, c.syn, c.fin, c.icmp, c.udp, c.pps, c.imbal, c.g)
    && c.rst.mean == 0.0 && c.rst.variance == 0.0
  }

  predicate SameCounts(c: Counts, d: CCounts) {
    c == Counts(d.all, d.syn, d.fin, d.icmp, d.udp) && d.rst == 0
  }

  predicate SameAlarms(fired: seq<Class>, a: Alarms) {
    && (SYN in fired <==> a.syn) && (FIN in fired <==> a.fin) && (RST in fired <==> a.rst)
    && (ICMP in fired <==> a.icmp) && (UDP in fired <==> a.udp) && (PPS in fired <==> a.pps)
  }

  predicate Agree(s: Broker, t: Agent) {
    SameCounts(s.counts, t.counts) && t.startUs == 1000 * s.startMs && SameState(s.mon, t.mon)
  }

  predicate Clean(p: Packet) { p.V4? && p.u.Tcp? ==> !p.u.rst && !(p.u.syn && p.u.fin) }

  // Both monitors count the packet alike: a recorded IPv4 packet, or an IPv6 segment without SYN, FIN or
  // RST. Of IPv6 packets the agent's monitor counts only that there was one.
  predicate Alike(p: Packet) {
    !p.u.Other? && (p.V6? ==> p.u.Tcp? && !p.u.syn && !p.u.fin && !p.u.rst)
  }

  lemma WindowAgrees(cfg: Config, root: real -> real, m: Monitor, c: CMonitor, k: Counts, d: CCounts, ms: nat)
    requires SameState(m, c) && SameCounts(k, d) && k.all > 0 && ms >= 1000
    requires cfg.thRst <= 0.0 && cfg.ewmaK >= 0.0
    ensures SameState(Next(cfg, root, m, Observe(k, ms)), CNext(cfg, root, c, CObserve(d, 1000 * ms)))
    ensures SameAlarms(Fired(cfg, root, m, Observe(k, ms)), CAlarms(cfg, root, c, CObserve(d, 1000 * ms)))
  {
    var o, p := Observe(k, ms), CObserve(d, 1000 * ms);
    assert o == Obs(p.syn, p.fin, p.icmp, p.udp, p.pps, p.imbal) && p.rst == 0.0;
    RstSilent(cfg, root, CWarming(cfg, c), c.rst);
    forall x: Class
      ensures x in Fired(cfg, root, m, o) <==> Fires(cfg, root, m, o, x)
    {
      FiredIff(cfg, root, m, o, x);
    }
    hide Observe, CObserve, Fired, Baseline.Z, Baseline.Limit, PpsFloor, Max;
  }

  lemma RstSilent(cfg: Config, root: real -> real, w: bool, b: Baseline)
    requires cfg.thRst <= 0.0 && cfg.ewmaK >= 0.0 && b.mean == 0.0 && b.variance == 0.0
    ensures !Chart(cfg, root, w, b, RATIO_FLOOR, cfg.thRst, 0.0)
    ensures b.Updated(0.0, cfg.lam).mean == 0.0 && b.Updated(0.0, cfg.lam).variance == 0.0
  {
    assert cfg.ewmaK * b.Spread(root, RATIO_FLOOR) >= 0.0;
  }

  lemma CountsAgree(c: Counts, d: CCounts, p: Packet)
    requires SameCounts(c, d) && Clean(p) && !p.u.Other?
    ensures SameCounts(Tally(c, AgentFlag(p)), CTally(d, p)) <==> Alike(p)
    ensures Tally(c, AgentFlag(p)).all == CTally(d, p).all
  {
  }

  // The packet closes the broker's window.
  predicate Closes(cfg: Config, s: Broker, a: Arrival)
    requires !a.packet.u.Other?
  {
    BrokerOpen(s, a).counts.all >= cfg.countMax
  }

  // If the packet closes the broker's window, the window is at least a second long.
  predicate Unhurried(cfg: Config, s: Broker, a: Arrival) {
    !a.packet.u.Other? && Closes(cfg, s, a) ==> a.ms >= BrokerOpen(s, a).startMs + 1000
  }

  // Counted alike, or counted apart in the packet that closes the window, to no lasting effect.
  predicate Harmless(cfg: Config, root: real -> real, s: Broker, t: Agent, a: Arrival) {
    || Alike(a.packet)
    || (!a.packet.u.Other? && Closes(cfg, s, a)
        && SameState(BrokerStep(cfg, root, s, a).0.mon, AgentStep(cfg, root, t, a).0.mon))
  }

  /** One packet keeps two monitors in agreement exactly when they count it alike, or it closes a window
      and both come out of that in the same state. */
  lemma StepAgrees(cfg: Config, root: real -> real, s: Broker, t: Agent, a: Arrival)
    requires cfg.thRst <= 0.0 && cfg.ewmaK >= 0.0 && Agree(s, t) && Clean(a.packet) && Unhurried(cfg, s, a)
    ensures Agree(BrokerStep(cfg, root, s, a).0, AgentStep(cfg, root, t, a).0) <==> Harmless(cfg, root, s, t, a)
    ensures Alike(a.packet) ==> SameAlarms(BrokerStep(cfg, root, s, a).1, AgentStep(cfg, root, t, a).1)
  {
    hide *;
    if a.packet.u.Other? {
      OtherDisagrees(cfg, root, s, t, a);
      HarmlessIs(cfg, root, s, t, a);
    } else if Closes(cfg, s, a) {
      ClosingAgrees(cfg, root, s, t, a);
      HarmlessIs(cfg, root, s, t, a);
    } else {
      OpenAgrees(cfg, root, s, t, a);
      HarmlessIs(cfg, root, s, t, a);
    }
  }

  lemma HarmlessIs(cfg: Config, root: real -> real, s: Broker, t: Agent, a: Arrival)
    ensures Harmless(cfg, root, s, t, a)
       <==> Alike(a.packet)
            || (!a.packet.u.Other? && Closes(cfg, s, a)
                && SameState(BrokerStep(cfg, root, s, a).0.mon, AgentStep(cfg, root, t, a).0.mon))
    ensures Alike(a.packet) ==> !a.packet.u.Other?
  {
    hide Closes, SameState, BrokerStep, AgentStep;
  }

  // Inside a window only the counts change.
  lemma OpenAgrees(cfg: Config, root: real -> real, s: Broker, t: Agent, a: Arrival)
    requires Agree(s, t) && Clean(a.packet) && !a.packet.u.Other? && !Closes(cfg, s, a)
    ensures Agree(BrokerStep(cfg, root, s, a).0, AgentStep(cfg, root, t, a).0) <==> Alike(a.packet)
    ensures SameAlarms(BrokerStep(cfg, root, s, a).1, AgentStep(cfg, root, t, a).1)
  {
    CountsAgree(s.counts, t.counts, a.packet);
    hide Tally, CTally, Next, CNext, Observe, CObserve, Fired, CAlarms, Alike, Clean, SameState;
    assert SameCounts(s.counts, t.counts) && BrokerStep(cfg, root, s, a) == (BrokerOpen(s, a), []);
    assert AgentStep(cfg, root, t, a) == (AgentOpen(t, a), QUIET);
  }

  // The packet that closes a window leaves no counts; if it is counted alike, equal states.
  lemma ClosingAgrees(cfg: Config, root: real -> real, s: Broker, t: Agent, a: Arrival)
    requires cfg.thRst <= 0.0 && cfg.ewmaK >= 0.0 && Agree(s, t) && Clean(a.packet) && Unhurried(cfg, s, a)
    requires !a.packet.u.Other? && Closes(cfg, s, a)
    ensures var s', t' := BrokerStep(cfg, root, s, a).0, AgentStep(cfg, root, t, a).0;
            && (Agree(s', t') <==> SameState(s'.mon, t'.mon))
            && (Alike(a.packet) ==> SameState(s'.mon, t'.mon))
    ensures Alike(a.packet) ==> SameAlarms(BrokerStep(cfg, root, s, a).1, AgentStep(cfg, root, t, a).1)
  {
    hide *;
    AgreeParts(s, t);
    CountsAgree(s.counts, t.counts, a.packet);
    OpenCounts(s, t, a);
    ClosingSteps(cfg, root, s, t, a);
    var s', t' := BrokerOpen(s, a), AgentOpen(t, a);
    AgreeAfter(BrokerStep(cfg, root, s, a).0, AgentStep(cfg, root, t, a).0);
    if Alike(a.packet) {
      WindowAgrees(cfg, root, s.mon, t.mon, s'.counts, t'.counts, a.ms - s'.startMs);
    }
  }

  lemma AgreeParts(s: Broker, t: Agent)
    requires Agree(s, t)
    ensures SameCounts(s.counts, t.counts) && s.counts.all == t.counts.all
    ensures t.startUs == 1000 * s.startMs && SameState(s.mon, t.mon)
  {
    hide SameState;
  }

  lemma OpenCounts(s: Broker, t: Agent, a: Arrival)
    requires !a.packet.u.Other?
    ensures BrokerOpen(s, a).counts == Tally(s.counts, AgentFlag(a.packet)) && BrokerOpen(s, a).counts.all == s.counts.all + 1
    ensures AgentOpen(t, a).counts == CTally(t.counts, a.packet) && AgentOpen(t, a).counts.all == t.counts.all + 1
  {
  }

  lemma AgreeAfter(s: Broker, t: Agent)
    ensures s.counts == NO_COUNTS && t.counts == NO_CCOUNTS && t.startUs == 1000 * s.startMs ==>
              (Agree(s, t) <==> SameState(s.mon, t.mon))
  {
    hide SameState;
  }

  // Both monitors judge the window that the packet closes.
  lemma ClosingSteps(cfg: Config, root: real -> real, s: Broker, t: Agent, a: Arrival)
    requires !a.packet.u.Other? && Closes(cfg, s, a) && Unhurried(cfg, s, a) && t.startUs == 1000 * s.startMs
    requires s.counts.all == t.counts.all && BrokerOpen(s, a).counts.all == AgentOpen(t, a).counts.all > 0
    ensures var s', t' := BrokerOpen(s, a), AgentOpen(t, a);
            var o, p := Observe(s'.counts, a.ms - s'.startMs), CObserve(t'.counts, 1000 * (a.ms - s'.startMs));
            && a.ms >= s'.startMs + 1000 && t'.startUs == 1000 * s'.startMs
            && BrokerStep(cfg, root, s, a) == (Broker(NO_COUNTS, s'.startMs, Next(cfg, root, s.mon, o)), Fired(cfg, root, s.mon, o))
            && AgentStep(cfg, root, t, a)
               == (Agent(NO_CCOUNTS, t'.startUs, CNext(cfg, root, t.mon, p)), CAlarms(cfg, root, t.mon, p))
  {
    hide Tally, CTally, Next, CNext, Observe, CObserve, Fired, CAlarms;
  }

  // The agent's monitor has then counted a packet, or closed a window, more than the broker's.
  lemma OtherDisagrees(cfg: Config, root: real -> real, s: Broker, t: Agent, a: Arrival)
    requires Agree(s, t) && a.packet.u.Other?
    ensures !Agree(BrokerStep(cfg, root, s, a).0, AgentStep(cfg, root, t, a).0)
  {
    hide CAlarms, CObserve, CCusumAlarm, CScore, Adapt;
  }

  predicate Suited(cfg: Config, root: real -> real, tr: seq<Arrival>) {
    && (forall i :: 0 <= i < |tr| ==> Clean(tr[i].packet))
    && (forall i :: 0 <= i < |tr| ==> Unhurried(cfg, BrokerRun(cfg, root, tr[..i]), tr[i]))
  }

  predicate AllAlike(tr: seq<Arrival>) { forall i :: 0 <= i < |tr| ==> Alike(tr[i].packet) }

  lemma SuitedInit(cfg: Config, root: real -> real, tr: seq<Arrival>, n: nat)
    requires Suited(cfg, root, tr) && n <= |tr|
    ensures Suited(cfg, root, tr[..n])
  {
    hide Unhurried, Clean;
    forall i | 0 <= i < n
      ensures tr[..n][i] == tr[i] && tr[..n][..i] == tr[..i]
    {
    }
  }

  /** Fed the same packets, all of which they count alike, with no RST cap and every window at least a
      second long, the two monitors hold equal counts, baselines and CUSUM after every packet and fire
      the same classes. */
  lemma {:induction false} MonitorsAgree(cfg: Config, root: real -> real, tr: seq<Arrival>)
    requires cfg.thRst <= 0.0 && cfg.ewmaK >= 0.0 && Suited(cfg, root, tr) && AllAlike(tr)
    ensures Agree(BrokerRun(cfg, root, tr), AgentRun(cfg, root, tr))
    ensures tr != [] ==>
              var before, a := tr[..|tr| - 1], tr[|tr| - 1];
              SameAlarms(BrokerStep(cfg, root, BrokerRun(cfg, root, before), a).1,
                         AgentStep(cfg, root, AgentRun(cfg, root, before), a).1)
  {
    if tr != [] {
      var n := |tr| - 1;
      var before, a := tr[..n], tr[n];
      SuitedInit(cfg, root, tr, n);
      MonitorsAgree(cfg, root, before);
      hide Agree, SameAlarms, BrokerStep, AgentStep, Unhurried, Clean, Alike;
      StepAgrees(cfg, root, BrokerRun(cfg, root, before), AgentRun(cfg, root, before), a);
    }
  }

  lemma RunSnoc(cfg: Config, root: real -> real, tr: seq<Arrival>, i: nat)
    requires i < |tr|
    ensures BrokerRun(cfg, root, tr[..i + 1]) == BrokerStep(cfg, root, BrokerRun(cfg, root, tr[..i]), tr[i]).0
    ensures AgentRun(cfg, root, tr[..i + 1]) == AgentStep(cfg, root, AgentRun(cfg, root, tr[..i]), tr[i]).0
  {
    assert tr[..i + 1][..i] == tr[..i] && tr[..i + 1][i] == tr[i];
    hide BrokerStep, AgentStep;
  }

  ghost predicate AgreeThrough(cfg: Config, root: real -> real, tr: seq<Arrival>, n: nat)
    requires n <= |tr|
  {
    forall k :: 0 <= k <= n ==> Agree(BrokerRun(cfg, root, tr[..k]), AgentRun(cfg, root, tr[..k]))
  }

  ghost predicate HarmlessThrough(cfg: Config, root: real -> real, tr: seq<Arrival>, n: nat)
    requires n <= |tr|
  {
    forall i :: 0 <= i < n ==>
      Harmless(cfg, root, BrokerRun(cfg, root, tr[..i]), AgentRun(cfg, root, tr[..i]), tr[i])
  }

  /** Whatever the packets, IPv6 and other protocols among them, the monitors agree all along exactly
      when each packet is harmless. */
  lemma {:induction false} MonitorsAgreeIff(cfg: Config, root: real -> real, tr: seq<Arrival>, n: nat)
    requires cfg.thRst <= 0.0 && cfg.ewmaK >= 0.0 && Suited(cfg, root, tr) && n <= |tr|
    ensures AgreeThrough(cfg, root, tr, n) <==> HarmlessThrough(cfg, root, tr, n)
  {
    hide *;
    if n == 0 {
      ThroughNone(cfg, root, tr);
    } else {
      var s, t := BrokerRun(cfg, root, tr[..n - 1]), AgentRun(cfg, root, tr[..n - 1]);
      MonitorsAgreeIff(cfg, root, tr, n - 1);
      RunSnoc(cfg, root, tr, n - 1);
      ThroughSnoc(cfg, root, tr, n);
      if AgreeThrough(cfg, root, tr, n - 1) {
        StepAgrees(cfg, root, s, t, tr[n - 1]);
      }
    }
  }

  lemma ThroughNone(cfg: Config, root: real -> real, tr: seq<Arrival>)
    ensures AgreeThrough(cfg, root, tr, 0) && HarmlessThrough(cfg, root, tr, 0)
  {
    hide Harmless;
    assert tr[..0] == [];
  }

  lemma ThroughSnoc(cfg: Config, root: real -> real, tr: seq<Arrival>, n: nat)
    requires Suited(cfg, root, tr) && 0 < n <= |tr|
    ensures var s, t := BrokerRun(cfg, root, tr[..n - 1]), AgentRun(cfg, root, tr[..n - 1]);
            && (AgreeThrough(cfg, root, tr, n - 1) ==> Agree(s, t))
            && (AgreeThrough(cfg, root, tr, n) <==>
                  AgreeThrough(cfg, root, tr, n - 1) && Agree(BrokerRun(cfg, root, tr[..n]), AgentRun(cfg, root, tr[..n])))
            && (HarmlessThrough(cfg, root, tr, n) <==>
                  HarmlessThrough(cfg, root, tr, n - 1) && Harmless(cfg, root, s, t, tr[n - 1]))
            && Clean(tr[n - 1].packet) && Unhurried(cfg, s, tr[n - 1])
  {
    hide Harmless, Agree, BrokerRun, AgentRun, Clean, Unhurried;
  }
}
