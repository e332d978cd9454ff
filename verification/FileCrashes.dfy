// filelock with crashes and reused PIDs: any number of hosts share one lock directory; an Acquire, a Release and a
// Sweep each run as one step, and a process may crash or a PID come back between any two of them. Hosts go by the
// name their operating system gives them. One lock name, singleton mode.

module FileCrashes {
  import opened Wrappers
  import opened Decimal
  import opened Marker
  import opened MarkerLaws
  import opened Stale
  import opened FileLock

  /** A successful acquire: who, with which marker, and whether its process has crashed or it was released since. */
  datatype Grant = Grant(host: string, pid: int, marker: Marker, token: nat, crashed: bool, released: bool)

  /** The marker file and the grant that wrote it. */
  datatype Placed = Placed(author: nat, bytes: string)

  datatype State = State(
    file: Option<Placed>,
    fence: Option<string>,
    tables: map<string, map<int, Proc>>,
    grants: seq<Grant>)

  datatype Step =
    | Spawn(host: string, pid: int, proc: Proc)
    | Crash(host: string, pid: int)
    | Acquire(host: string, pid: int, cfg: Config, now: int, fence: FenceFault)
    | Release(id: nat, stuck: bool)
    | Sweep(host: string, cfg: Config, now: int)

  function Initial(tables: map<string, map<int, Proc>>): State {
    State(None, None, tables, [])
  }

  function WorldOf(s: State, host: string, now: int): World {
    World(now, Some(host), if host in s.tables then s.tables[host] else map[])
  }

  function FileBytes(s: State): Option<string> {
    match s.file case None => None case Some(f) => Some(f.bytes)
  }

  predicate Running(s: State, host: string, pid: int) {
    host in s.tables && pid in s.tables[host]
  }

  /** May a process on this host take the lock now? */
  predicate CanTake(s: State, host: string, cfg: Config, now: int) {
    Decide(FileBytes(s), WorldOf(s, host, now), cfg) in {Fresh, Takeover}
  }

  predicate Takes(s: State, e: Step)
    requires e.Acquire?
  {
    && Running(s, e.host, e.pid)
    && RoundTrippable(OwnMarker(WorldOf(s, e.host, e.now), e.pid, e.cfg))
    && CanTake(s, e.host, e.cfg, e.now)
  }

  /** The grants of a process all die with it. */
  function Bury(grants: seq<Grant>, host: string, pid: int): (r: seq<Grant>)
    ensures |r| == |grants|
    ensures forall i :: 0 <= i < |grants| ==>
      r[i] == if grants[i].host == host && grants[i].pid == pid then grants[i].(crashed := true) else grants[i]
  {
    seq(|grants|, i requires 0 <= i < |grants| =>
      if grants[i].host == host && grants[i].pid == pid then grants[i].(crashed := true) else grants[i])
  }

  /** One step; a step that is not possible in s changes nothing. */
  function Apply(s: State, e: Step): State {
    match e
    case Spawn(host, pid, proc) =>
      if host in s.tables && pid !in s.tables[host] then s.(tables := s.tables[host := s.tables[host][pid := proc]]) else s
    case Crash(host, pid) =>
      if Running(s, host, pid)
      then s.(tables := s.tables[host := s.tables[host] - {pid}], grants := Bury(s.grants, host, pid)) else s
    case Acquire(host, pid, cfg, now, fault) =>
      if Takes(s, e) then
        var m := OwnMarker(WorldOf(s, host, now), pid, cfg);
        s.(file := Some(Placed(|s.grants|, Content(m))),
           fence := if StoresFence(fault) then Some(FenceBytes(TokenFor(s.fence, fault))) else s.fence,
           grants := s.grants + [Grant(host, pid, m, TokenFor(s.fence, fault), false, false)])
      else s
    case Release(id, stuck) =>
      if id < |s.grants| && Live(s.grants[id]) then
        s.(file := if stuck then s.file else None, grants := s.grants[id := s.grants[id].(released := true)])
      else s
    case Sweep(host, cfg, now) =>
      if Decide(FileBytes(s), WorldOf(s, host, now), cfg) == Takeover then s.(file := None) else s
  }

  function Run(s: State, es: seq<Step>): State
    decreases |es|
  {
    if es == [] then s else Run(Apply(s, es[0]), es[1..])
  }

  /** A holder whose process runs and that has not been released. */
  predicate Live(g: Grant) {
    !g.crashed && !g.released
  }

  // ---------------------------------------------------------------- the step is what the code does

  /** The directory shows the state of this lock. */
  predicate Shows(files: map<string, string>, name: string, s: State) {
    At(files, MarkerName(name)) == FileBytes(s) && At(files, FenceName(name)) == s.fence
  }

  /** No call on the marker fails. */
  function Smooth(fence: FenceFault): Faults {
    Faults(false, false, 0, false, false, false, false, fence)
  }

  /**
   * A singleton FileLock.Acquire of a running process whose marker can be read back acquires exactly when the step
   * does. Then it leaves the directory that the step's state describes and returns its token; otherwise neither the
   * directory nor the state changes.
   */
  lemma AcquireSimulates(s: State, e: Step, name: string, before: map<string, string>, after: map<string, string>,
                         tmp: string, token: nat)
    requires e.Acquire? && Shows(before, name, s) && Running(s, e.host, e.pid)
    requires CanWrite(WorldOf(s, e.host, e.now), e.pid, e.cfg)
    requires RoundTrippable(OwnMarker(WorldOf(s, e.host, e.now), e.pid, e.cfg))
    ensures var w := WorldOf(s, e.host, e.now);
      Takes(s, e) <==> AttemptOutcome(SlotDecision(before, name, -1, w, e.cfg), Smooth(e.fence)) == FileLock.Acquired
    ensures var w := WorldOf(s, e.host, e.now);
      if Takes(s, e) then
        GrantedFiles(before, after, name, -1, w, e.pid, e.cfg, e.fence, token) ==>
          Shows(after, name, Apply(s, e))
          && Apply(s, e).grants == s.grants + [Grant(e.host, e.pid, OwnMarker(w, e.pid, e.cfg), token, false, false)]
      else
        FailedFiles(before, name, -1, w, e.pid, e.cfg, tmp, Smooth(e.fence)) == before && Apply(s, e) == s
  {
    hide Content, Decide, TokenFor, FenceBytes, RoundTrippable, OwnMarker, StoresFence, Running, Printable, MarkerName, FenceName;
    MarkerIsNotFence(name, -1);
  }

  /** FileLock.Holder.Release by a live holder does to the directory what the step does to the state. */
  lemma ReleaseSimulates(s: State, id: nat, stuck: bool, name: string, before: map<string, string>)
    requires id < |s.grants| && !s.grants[id].crashed && !s.grants[id].released && Shows(before, name, s)
    ensures Shows(if stuck then before else before - {MarkerName(name)}, name, Apply(s, Release(id, stuck)))
  {
    hide MarkerName, FenceName;
    MarkerIsNotFence(name, -1);
    assert MarkerName(name) == PathFor(name, -1);
  }

  /**
   * FileLock.Sweep over a listing does to this lock what the step does, if it reaches the marker and can remove it,
   * and nothing otherwise.
   */
  lemma SweepSimulates(s: State, host: string, cfg: Config, now: int, name: string, before: map<string, string>,
                       names: set<string>, stuck: set<string>)
    requires Shows(before, name, s)
    ensures Shows(before - (Reclaimable(before, names, WorldOf(s, host, now), cfg) - stuck), name,
                  if MarkerName(name) in names - stuck then Apply(s, Sweep(host, cfg, now)) else s)
  {
    hide Decide, Reclaimable;
    var w := WorldOf(s, host, now);
    var marker, fence := MarkerName(name), FenceName(name);
    assert marker[|marker| - |LOCK_SUFFIX|..] == LOCK_SUFFIX;
    assert fence[|fence| - |LOCK_SUFFIX|..][4] == 'e' && LOCK_SUFFIX[4] == 'k';
    hide MarkerName, FenceName, HasSuffix;
    ReclaimableAt(before, names, w, cfg, marker);
    ReclaimableAt(before, names, w, cfg, fence);
  }

  lemma ReclaimableAt(files: map<string, string>, names: set<string>, w: World, cfg: Config, n: string)
    ensures n in Reclaimable(files, names, w, cfg) <==>
      n in names && HasSuffix(n, LOCK_SUFFIX) && Decide(At(files, n), w, cfg) == Takeover
  {
    hide HasSuffix, Read, IsStale;
  }

  // ---------------------------------------------------------------- assumptions

  /** PID strategies without a window, a readable fence file and no rename collision on it. */
  predicate Allowed(e: Step) {
    match e
    case Acquire(_, _, cfg, _, fault) => NoWindow(cfg) && !fault.FenceCollides? && !fault.FenceUnread?
    case Sweep(_, cfg, _) => NoWindow(cfg)
    case _ => true
  }

  // ---------------------------------------------------------------- the invariant

  predicate GrantOk(s: State, g: Grant) {
    && RoundTrippable(g.marker) && g.marker.pid == g.pid && g.marker.host == NameOf(g.host)
    && g.host in s.tables
    && (!g.crashed ==> g.pid in s.tables[g.host] && s.tables[g.host][g.pid].start == g.marker.pidStart)
  }

  predicate FileOk(s: State, f: Placed) {
    && f.author < |s.grants|
    && Printable(s.grants[f.author].marker)
    && f.bytes == Content(s.grants[f.author].marker)
  }

  ghost predicate Inv(s: State) {
    && (forall i :: 0 <= i < |s.grants| ==> GrantOk(s, s.grants[i]))
    && (s.file.Some? ==> FileOk(s, s.file.value))
    && (forall i :: 0 <= i < |s.grants| && Live(s.grants[i]) ==> s.file.Some? && s.file.value.author == i)
  }

  // ---------------------------------------------------------------- a live holder's marker is safe

  lemma HostnameIsName(s: State, host: string, now: int)
    ensures Hostname(WorldOf(s, host, now)) == NameOf(host)
  {
  }

  /** What any probe concludes from the marker at the path. */
  lemma ProbeOfFile(s: State, host: string, now: int, cfg: Config)
    requires Inv(s) && s.file.Some? && NoWindow(cfg)
    ensures var m := s.grants[s.file.value.author].marker;
      Decide(FileBytes(s), WorldOf(s, host, now), cfg)
      == if ProbeMarker(WorldOf(s, host, now), m) == Dead then Takeover else Held
  {
    hide Read, Content, ProbeMarker, GrantOk;
    var g := s.grants[s.file.value.author];
    assert GrantOk(s, g);
    assert RoundTrippable(g.marker) by { GrantRoundTrips(s, g); }
    ReadsWhatWasWritten(g.marker);
    WithoutWindowOnlyTheDeadAreStale(WorldOf(s, host, now), g.marker, cfg);
    hide RoundTrippable, IsStale;
  }

  lemma GrantRoundTrips(s: State, g: Grant)
    requires GrantOk(s, g)
    ensures RoundTrippable(g.marker)
  {
  }

  lemma LiveIsNotDead(s: State, g: Grant, host: string, now: int)
    requires GrantOk(s, g) && Live(g) && host in s.tables
    ensures ProbeMarker(WorldOf(s, host, now), g.marker) != Dead
  {
    hide RoundTrippable;
    HostnameIsName(s, host, now);
  }

  lemma NobodyTakesFromTheLiving(s: State, host: string, now: int, cfg: Config, id: nat)
    requires Inv(s) && NoWindow(cfg) && host in s.tables && id < |s.grants| && Live(s.grants[id])
    ensures Decide(FileBytes(s), WorldOf(s, host, now), cfg) == Held
  {
    hide GrantOk, ProbeMarker;
    ProbeOfFile(s, host, now, cfg);
    LiveIsNotDead(s, s.grants[id], host, now);
  }

  // ---------------------------------------------------------------- every step keeps the invariant

  lemma TablesKeep(s: State, tables: map<string, map<int, Proc>>, grants: seq<Grant>)
    requires Inv(s) && tables.Keys == s.tables.Keys && |grants| == |s.grants|
    requires forall i :: 0 <= i < |grants| ==> GrantOk(s.(tables := tables), grants[i])
    requires forall i :: 0 <= i < |grants| ==>
      grants[i] == s.grants[i] || grants[i] == s.grants[i].(crashed := true)
    ensures Inv(s.(tables := tables, grants := grants))
  {
    hide Content, RoundTrippable, NameOf, Printable;
    assert forall g :: GrantOk(s.(tables := tables), g) ==> GrantOk(s.(tables := tables, grants := grants), g);
  }

  lemma SpawnKeeps(s: State, host: string, pid: int, proc: Proc)
    requires Inv(s) && host in s.tables && pid !in s.tables[host]
    ensures Inv(Apply(s, Spawn(host, pid, proc)))
  {
    hide RoundTrippable, NameOf, FileOk;
    var tables := s.tables[host := s.tables[host][pid := proc]];
    assert forall g :: GrantOk(s, g) ==> GrantOk(s.(tables := tables), g);
    TablesKeep(s, tables, s.grants);
  }

  lemma CrashKeeps(s: State, host: string, pid: int)
    requires Inv(s) && Running(s, host, pid)
    ensures Inv(Apply(s, Crash(host, pid)))
  {
    hide RoundTrippable, NameOf, FileOk;
    var tables := s.tables[host := s.tables[host] - {pid}];
    var grants := Bury(s.grants, host, pid);
    assert forall i :: 0 <= i < |grants| ==> GrantOk(s, s.grants[i]) && GrantOk(s.(tables := tables), grants[i]);
    TablesKeep(s, tables, grants);
  }

  lemma AcquireKeeps(s: State, e: Step)
    requires Inv(s) && e.Acquire? && Takes(s, e) && NoWindow(e.cfg)
    ensures Inv(Apply(s, e))
  {
    hide Content, RoundTrippable, Decide, FenceBytes, FenceValue, StrategyName;
    var s' := Apply(s, e);
    forall i | 0 <= i < |s.grants| ensures !Live(s.grants[i]) {
      if Live(s.grants[i]) {
        NobodyTakesFromTheLiving(s, e.host, e.now, e.cfg, i);
      }
    }
    HostnameIsName(s, e.host, e.now);
    RoundTripPrintable(OwnMarker(WorldOf(s, e.host, e.now), e.pid, e.cfg));
    hide NameOf;
    assert forall g :: GrantOk(s, g) ==> GrantOk(s', g);
    assert GrantOk(s', s'.grants[|s.grants|]);
    assert FileOk(s', s'.file.value);
  }

  lemma RoundTripPrintable(m: Marker)
    requires RoundTrippable(m)
    ensures Printable(m)
  {
  }

  lemma ReleaseKeeps(s: State, id: nat, stuck: bool)
    requires Inv(s) && id < |s.grants| && Live(s.grants[id])
    ensures Inv(Apply(s, Release(id, stuck)))
  {
    hide Content, RoundTrippable, NameOf, Printable;
    var s' := Apply(s, Release(id, stuck));
    assert forall i :: 0 <= i < |s.grants| ==> GrantOk(s, s.grants[i]);
    assert forall i :: 0 <= i < |s'.grants| ==> GrantOk(s', s'.grants[i]);
  }

  lemma SweepKeeps(s: State, e: Step)
    requires Inv(s) && e.Sweep? && NoWindow(e.cfg) && e.host in s.tables
    ensures Inv(Apply(s, e))
  {
    hide Content, RoundTrippable, NameOf, FileOk, Decide;
    var s' := Apply(s, e);
    if s' != s {
      forall i | 0 <= i < |s.grants| ensures !Live(s.grants[i]) {
        if Live(s.grants[i]) {
          NobodyTakesFromTheLiving(s, e.host, e.now, e.cfg, i);
        }
      }
      assert forall i :: 0 <= i < |s'.grants| ==> GrantOk(s', s'.grants[i]) by {
        assert forall i :: 0 <= i < |s.grants| ==> GrantOk(s, s.grants[i]);
      }
    }
  }

  /** Sweeps come from hosts that exist. */
  predicate FromHost(tables: map<string, map<int, Proc>>, e: Step) {
    Allowed(e) && (e.Sweep? ==> e.host in tables)
  }

  lemma StepKeeps(s: State, e: Step)
    requires Inv(s) && FromHost(s.tables, e)
    ensures Inv(Apply(s, e)) && Apply(s, e).tables.Keys == s.tables.Keys
  {
    hide Inv, Decide, Content, FenceBytes, FenceValue, Bury;
    match e
    case Spawn(host, pid, proc) =>
      if host in s.tables && pid !in s.tables[host] { SpawnKeeps(s, host, pid, proc); }
    case Crash(host, pid) => if Running(s, host, pid) { CrashKeeps(s, host, pid); }
    case Acquire(_, _, _, _, _) => if Takes(s, e) { AcquireKeeps(s, e); }
    case Release(id, stuck) => if id < |s.grants| && Live(s.grants[id]) { ReleaseKeeps(s, id, stuck); }
    case Sweep(_, _, _) => SweepKeeps(s, e);
  }

  lemma {:induction false} RunKeeps(s: State, es: seq<Step>)
    requires Inv(s) && forall i :: 0 <= i < |es| ==> FromHost(s.tables, es[i])
    ensures Inv(Run(s, es))
    decreases |es|
  {
    hide Inv, Apply;
    if es != [] {
      StepKeeps(s, es[0]);
      RunKeeps(Apply(s, es[0]), es[1..]);
    }
  }

  ghost predicate Reachable(s: State, tables: map<string, map<int, Proc>>, es: seq<Step>) {
    (forall i :: 0 <= i < |es| ==> FromHost(tables, es[i])) && s == Run(Initial(tables), es)
  }

  lemma ReachableInv(s: State, tables: map<string, map<int, Proc>>, es: seq<Step>)
    requires Reachable(s, tables, es)
    ensures Inv(s)
  {
    hide Run;
    RunKeeps(Initial(tables), es);
  }

  // ---------------------------------------------------------------- the theorems

  /** Through crashes, PID reuse, takeovers and sweeps there is never more than one live holder. */
  lemma OneLiveHolder(s: State, tables: map<string, map<int, Proc>>, es: seq<Step>, a: nat, b: nat)
    requires Reachable(s, tables, es)
    requires a < |s.grants| && !s.grants[a].crashed && !s.grants[a].released
    requires b < |s.grants| && !s.grants[b].crashed && !s.grants[b].released
    ensures a == b
  {
    hide Reachable;
    ReachableInv(s, tables, es);
  }

  /**
   * While the marker of grant id is at the path, a process on the holder's host can take the lock exactly when the
   * holder has crashed and its PID is free, or was given to a process we may signal whose start time is known and
   * differs from the recorded one.
   */
  lemma RecoveryExactly(s: State, tables: map<string, map<int, Proc>>, es: seq<Step>, id: nat, cfg: Config, now: int)
    requires Reachable(s, tables, es) && NoWindow(cfg)
    requires id < |s.grants| && s.file.Some? && s.file.value.author == id
    requires s.grants[id].pid > 0 && NameOf(s.grants[id].host) != "unknown"
    ensures var g := s.grants[id];
      CanTake(s, g.host, cfg, now) <==> g.crashed && (!Running(s, g.host, g.pid) || ReuseIsVisible(s, g))
  {
    hide Reachable, RoundTrippable, Decide, Content;
    ReachableInv(s, tables, es);
    var g := s.grants[id];
    assert GrantOk(s, g);
    ProbeOfFile(s, g.host, now, cfg);
    HostnameIsName(s, g.host, now);
  }

  lemma {:induction false} RunSnoc(s: State, es: seq<Step>, e: Step)
    ensures Run(s, es + [e]) == Apply(Run(s, es), e)
    decreases |es|
  {
    hide Apply;
    if es == [] {
      assert (es + [e])[1..] == [];
      assert Run(Apply(s, e), []) == Apply(s, e);
    } else {
      assert (es + [e])[1..] == es[1..] + [e];
      RunSnoc(Apply(s, es[0]), es[1..], e);
    }
  }

  lemma ReachedByOneMore(s: State, tables: map<string, map<int, Proc>>, es: seq<Step>, e: Step)
    requires Reachable(s, tables, es) && FromHost(tables, e)
    ensures Reachable(Apply(s, e), tables, es + [e])
  {
    hide Run, Apply, FromHost;
    RunSnoc(Initial(tables), es, e);
  }

  /** A crash ends the process and all its holders, and nothing else. */
  lemma CrashEnds(s: State, host: string, pid: int)
    requires Running(s, host, pid)
    ensures var s' := Apply(s, Crash(host, pid));
      && !Running(s', host, pid) && s'.tables.Keys == s.tables.Keys
      && (forall h, p :: (h != host || p != pid) ==> (Running(s', h, p) <==> Running(s, h, p)))
      && |s'.grants| == |s.grants| && s'.file == s.file && s'.fence == s.fence
      && (forall i :: 0 <= i < |s.grants| ==>
            s'.grants[i] == if s.grants[i].host == host && s.grants[i].pid == pid then s.grants[i].(crashed := true) else s.grants[i])
  {
  }

  /**
   * When a holder crashes, the next caller on its host can take the lock at once; and when its PID has been given to
   * another process meanwhile, exactly if that process may be signalled and both start times are known and differ.
   */
  lemma CrashedHolderIsReplaced(s: State, tables: map<string, map<int, Proc>>, es: seq<Step>, id: nat, proc: Proc,
                                cfg: Config, now: int)
    requires Reachable(s, tables, es) && NoWindow(cfg)
    requires id < |s.grants| && !s.grants[id].crashed && !s.grants[id].released
    requires s.grants[id].pid > 0 && NameOf(s.grants[id].host) != "unknown"
    ensures var g := s.grants[id]; var s1 := Apply(s, Crash(g.host, g.pid)); var s2 := Apply(s1, Spawn(g.host, g.pid, proc));
      && CanTake(s1, g.host, cfg, now)
      && (CanTake(s2, g.host, cfg, now) <==>
            proc.signalable && g.marker.pidStart != 0 && proc.start != 0 && proc.start != g.marker.pidStart)
  {
    hide Reachable, RoundTrippable, CanTake, Content, Apply;
    ReachableInv(s, tables, es);
    var g := s.grants[id];
    assert GrantOk(s, g);
    CrashEnds(s, g.host, g.pid);
    var s1 := Apply(s, Crash(g.host, g.pid));
    ReachedByOneMore(s, tables, es, Crash(g.host, g.pid));
    RecoveryExactly(s1, tables, es + [Crash(g.host, g.pid)], id, cfg, now);
    SpawnRuns(s1, g.host, g.pid, proc);
    var s2 := Apply(s1, Spawn(g.host, g.pid, proc));
    ReachedByOneMore(s1, tables, es + [Crash(g.host, g.pid)], Spawn(g.host, g.pid, proc));
    RecoveryExactly(s2, tables, es + [Crash(g.host, g.pid)] + [Spawn(g.host, g.pid, proc)], id, cfg, now);
  }

  /** A new process runs, and nothing else changes. */
  lemma SpawnRuns(s: State, host: string, pid: int, proc: Proc)
    requires host in s.tables && pid !in s.tables[host]
    ensures var s' := Apply(s, Spawn(host, pid, proc));
      && Running(s', host, pid) && s'.tables[host][pid] == proc && s'.tables.Keys == s.tables.Keys
      && (forall h, p :: (h != host || p != pid) && Running(s, h, p) ==> Running(s', h, p) && s'.tables[h][p] == s.tables[h][p])
      && s'.grants == s.grants && s'.file == s.file && s'.fence == s.fence
  {
  }

  /** The PID of g belongs to a process that can be told from the one that wrote the marker. */
  predicate ReuseIsVisible(s: State, g: Grant)
    requires Running(s, g.host, g.pid)
  {
    var p := s.tables[g.host][g.pid];
    p.signalable && g.marker.pidStart != 0 && p.start != 0 && p.start != g.marker.pidStart
  }

  /** From any other host, or without a hostname, the lock of a crashed holder cannot be taken. */
  lemma OtherHostsMustWait(s: State, tables: map<string, map<int, Proc>>, es: seq<Step>, id: nat, host: string, cfg: Config, now: int)
    requires Reachable(s, tables, es) && NoWindow(cfg)
    requires id < |s.grants| && s.file.Some? && s.file.value.author == id
    requires host in s.tables && (host != s.grants[id].host || NameOf(host) == "unknown")
    ensures !CanTake(s, host, cfg, now)
  {
    hide Reachable, RoundTrippable, Decide, Content;
    ReachableInv(s, tables, es);
    assert GrantOk(s, s.grants[id]);
    ProbeOfFile(s, host, now, cfg);
    HostnameIsName(s, host, now);
  }

  /** Once the live holder has released, the path is free and anyone may acquire. */
  lemma ReleasedIsFree(s: State, id: nat, host: string, cfg: Config, now: int)
    requires id < |s.grants| && !s.grants[id].crashed && !s.grants[id].released
    ensures CanTake(Apply(s, Release(id, false)), host, cfg, now)
  {
    hide Read, IsStale;
  }

  // ---------------------------------------------------------------- tokens

  /** The tokens handed out, without the zeros of failed fence writes, in the order of the acquires. */
  function Tokens(grants: seq<Grant>): seq<nat> {
    if grants == [] then [] else
      var last := grants[|grants| - 1].token;
      Tokens(grants[..|grants| - 1]) + if last == 0 then [] else [last]
  }

  ghost predicate Increasing(tokens: seq<nat>, limit: nat) {
    && (forall i, j :: 0 <= i < j < |tokens| ==> tokens[i] < tokens[j])
    && (forall i :: 0 <= i < |tokens| ==> tokens[i] <= limit)
  }

  lemma {:induction false} TokensUnchanged(a: seq<Grant>, b: seq<Grant>)
    requires |a| == |b| && forall i :: 0 <= i < |a| ==> a[i].token == b[i].token
    ensures Tokens(a) == Tokens(b)
  {
    if a != [] {
      TokensUnchanged(a[..|a| - 1], b[..|b| - 1]);
    }
  }

  lemma OneMoreToken(grants: seq<Grant>, g: Grant, prev: nat, limit: nat)
    requires Increasing(Tokens(grants), prev) && (g.token == 0 || g.token > prev) && limit >= prev && limit >= g.token
    ensures Increasing(Tokens(grants + [g]), limit)
  {
    var more := grants + [g];
    assert more[..|more| - 1] == grants;
  }

  lemma StepIncreasesTokens(s: State, e: Step)
    requires Allowed(e) && FenceValue(s.fence) < TWO_64 - 1
    requires Increasing(Tokens(s.grants), FenceValue(s.fence))
    ensures Increasing(Tokens(Apply(s, e).grants), FenceValue(Apply(s, e).fence))
    ensures FenceValue(Apply(s, e).fence) <= FenceValue(s.fence) + 1
  {
    hide FenceValue, FenceBytes, Content, Decide, RoundTrippable, Increasing, Tokens, Takes, OwnMarker;
    var s' := Apply(s, e);
    if e.Acquire? && Takes(s, e) {
      FenceReadsBack(TokenFor(s.fence, e.fence));
      OneMoreToken(s.grants, s'.grants[|s.grants|], FenceValue(s.fence), FenceValue(s'.fence));
    } else {
      TokensUnchanged(s.grants, s'.grants);
    }
  }

  lemma {:induction false} RunIncreasesTokens(s: State, es: seq<Step>)
    requires (forall i :: 0 <= i < |es| ==> Allowed(es[i])) && FenceValue(s.fence) + |es| < TWO_64
    requires Increasing(Tokens(s.grants), FenceValue(s.fence))
    ensures Increasing(Tokens(Run(s, es).grants), FenceValue(Run(s, es).fence))
    decreases |es|
  {
    hide Apply, FenceValue, Increasing, Allowed;
    if es != [] {
      StepIncreasesTokens(s, es[0]);
      RunIncreasesTokens(Apply(s, es[0]), es[1..]);
    }
  }

  /** Through releases, takeovers, crashes and failed fence writes, the tokens strictly increase. */
  lemma TokensStrictlyIncrease(tables: map<string, map<int, Proc>>, es: seq<Step>)
    requires (forall i :: 0 <= i < |es| ==> Allowed(es[i])) && |es| < TWO_64
    ensures var tokens := Tokens(Run(Initial(tables), es).grants);
      forall i, j :: 0 <= i < j < |tokens| ==> tokens[i] < tokens[j]
  {
    hide Run;
    RunIncreasesTokens(Initial(tables), es);
  }
}
