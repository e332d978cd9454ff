// Who a holder says it is, and when its marker may be reclaimed
// (filelock/identity.go, filelock/probe.go, filelock/stale.go).

module Stale {
  import opened Wrappers
  import opened Decimal
  import opened Marker

  datatype Liveness = Alive | Dead | Inconclusive

  /** A running process: the start time the platform exposes (0 if none) and whether we may signal it. */
  datatype Proc = Proc(start: int, signalable: bool)

  /** What a process can ask its operating system: the clock, the hostname lookup and the process table. */
  datatype World = World(now: int, osHost: Option<string>, procs: map<int, Proc>)

  function Hostname(w: World): (h: string)
    ensures h != ""
  {
    match w.osHost
    case None => "unknown"
    case Some(h) => NameOf(h)
  }

  /** The name a host goes by: what its operating system answers, unless that is empty. */
  function NameOf(host: string): string {
    if host == "" then "unknown" else host
  }

  /** kill(pid, 0): ESRCH means dead, EPERM is inconclusive. */
  function IsAlive(w: World, pid: int): Liveness {
    if pid !in w.procs then Dead else if w.procs[pid].signalable then Alive else Inconclusive
  }

  function ProcessStart(w: World, pid: int): int {
    if pid in w.procs then w.procs[pid].start else 0
  }

  function ProbePID(w: World, pid: int, expectedStart: int): Liveness {
    if pid <= 0 then Dead
    else if IsAlive(w, pid) != Alive then IsAlive(w, pid)
    else if expectedStart == 0 then Alive
    else if ProcessStart(w, pid) == 0 then Alive
    else if ProcessStart(w, pid) != expectedStart then Dead
    else Alive
  }

  function ProbeMarker(w: World, m: Marker): Liveness {
    if m.pid <= 0 then Inconclusive
    else if m.host == "" then Inconclusive
    else if Hostname(w) == "unknown" || m.host != Hostname(w) then Inconclusive
    else ProbePID(w, m.pid, m.pidStart)
  }

  datatype Strategy = PIDFirst | PIDOnly | TimeOnly

  datatype Config = Config(
    strategy: Strategy,
    staleAfterIsOn: bool,
    staleAfter: int,
    staleAfterText: string,
    maxConcurrent: int,
    slot: Option<nat>,
    traceID: string)

  function StrategyName(s: Strategy): string {
    match s
    case PIDFirst => "pid-first"
    case PIDOnly => "pid-only"
    case TimeOnly => "time-only"
  }

  /** time.Time.Sub saturates at the ends of int64. */
  function Sub(t: int, u: int): int {
    if t - u > MAX_INT64 then MAX_INT64 else if t - u < MIN_INT64 then MIN_INT64 else t - u
  }

  predicate TimeExpired(w: World, m: Marker, cfg: Config) {
    cfg.staleAfterIsOn && m.acquired != 0 && Sub(w.now, m.acquired) > cfg.staleAfter
  }

  /** Saturation does not matter: the window is over when more time has passed, except that the longest never is. */
  lemma SaturationIsHarmless(w: World, m: Marker, cfg: Config)
    requires MIN_INT64 <= cfg.staleAfter <= MAX_INT64
    ensures TimeExpired(w, m, cfg) <==>
      cfg.staleAfterIsOn && m.acquired != 0 && w.now - m.acquired > cfg.staleAfter && cfg.staleAfter < MAX_INT64
  {
  }

  /** May the marker be reclaimed? */
  predicate IsStale(w: World, m: Marker, cfg: Config) {
    match cfg.strategy
    case TimeOnly => TimeExpired(w, m, cfg)
    case _ =>
      match ProbeMarker(w, m)
      case Dead => true
      case Alive => false
      case Inconclusive => cfg.strategy != PIDOnly && TimeExpired(w, m, cfg)
  }

  /** PID strategies whose time window is never consulted. */
  predicate NoWindow(cfg: Config) {
    cfg.strategy == PIDOnly || (cfg.strategy == PIDFirst && !cfg.staleAfterIsOn)
  }

  lemma WithoutWindowOnlyTheDeadAreStale(w: World, m: Marker, cfg: Config)
    requires NoWindow(cfg)
    ensures IsStale(w, m, cfg) <==> ProbeMarker(w, m) == Dead
  {
  }

  /** Under a PID strategy, exactly the configurations without a window spare every marker that no probe calls dead. */
  lemma NoWindowExactly(cfg: Config)
    requires cfg.strategy != TimeOnly && MIN_INT64 <= cfg.staleAfter < MAX_INT64
    ensures NoWindow(cfg) <==> forall w, m :: IsStale(w, m, cfg) ==> ProbeMarker(w, m) == Dead
  {
    if !NoWindow(cfg) {
      var m := NO_MARKER.(acquired := 1);
      var w := World(if cfg.staleAfter < 0 then 1 else cfg.staleAfter + 2, None, map[]);
      assert IsStale(w, m, cfg) && ProbeMarker(w, m) != Dead;
    }
  }

  /** The marker a process writes about itself. */
  function OwnMarker(w: World, pid: int, cfg: Config): Marker {
    Marker(pid, ProcessStart(w, pid), Hostname(w), w.now, StrategyName(cfg.strategy),
           if cfg.staleAfterIsOn then cfg.staleAfterText else "none",
           if cfg.maxConcurrent > 1 then cfg.maxConcurrent else 0,
           if cfg.slot.Some? then cfg.slot.value else 0,
           cfg.traceID)
  }

  /** buildMarker: fills in a record field by field. */
  method BuildMarker(w: World, pid: int, cfg: Config) returns (m: Marker)
    ensures m == OwnMarker(w, pid, cfg)
  {
    m := NO_MARKER.(pid := pid, pidStart := ProcessStart(w, pid), host := Hostname(w), acquired := w.now,
                    strategy := StrategyName(cfg.strategy));
    if cfg.staleAfterIsOn {
      m := m.(staleAfter := cfg.staleAfterText);
    } else {
      m := m.(staleAfter := "none");
    }
    if cfg.maxConcurrent > 1 {
      m := m.(maxConcurrent := cfg.maxConcurrent);
    }
    if cfg.slot.Some? {
      m := m.(slot := cfg.slot.value);
    }
    m := m.(traceID := cfg.traceID);
  }

  /** Later, on the same host, the same process is still running; either time its start may be unreadable. */
  predicate StillRunning(w: World, w': World, pid: int) {
    && Hostname(w') == Hostname(w) && pid in w.procs && pid in w'.procs
    && (w.procs[pid].start == 0 || w'.procs[pid].start == 0 || w'.procs[pid].start == w.procs[pid].start)
  }

  /** As long as a process runs, a probe by anyone on its host does not call its marker dead. */
  lemma RunningProcessIsNotDead(w: World, w': World, pid: int, cfg: Config)
    requires StillRunning(w, w', pid)
    ensures ProbeMarker(w', OwnMarker(w, pid, cfg)) != Dead
  {
  }

  /** What a probe on the writer's host concludes, once the writer is gone. */
  lemma GoneProcessIsDeadExactly(w: World, w': World, pid: int, cfg: Config)
    requires pid > 0 && Hostname(w') == Hostname(w) != "unknown"
    ensures ProbeMarker(w', OwnMarker(w, pid, cfg)) == Dead <==>
      || pid !in w'.procs
      || (w'.procs[pid].signalable
          && ProcessStart(w, pid) != 0 && w'.procs[pid].start != 0 && w'.procs[pid].start != ProcessStart(w, pid))
  {
  }
}
