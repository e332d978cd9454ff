// filelock one system call at a time: any number of acquirers, holders and sweepers, on any number of hosts that
// share one lock directory, interleaved in any order while no process terminates. One lock name, singleton mode.
// A marker is only ever appended to, so a reader who needs several read calls finds some prefix of it as well. The
// temporary files of a takeover and of the fence have one user and appear only when they are renamed.

module FileSteps {
  import opened Wrappers
  import opened Decimal
  import opened Text
  import opened Marker
  import opened MarkerLaws
  import opened Stale
  import opened TornMarker
  import opened FileLock

  // ---------------------------------------------------------------- the state

  /** A marker file: who created it, what its creator is writing, and how many bytes have arrived. */
  datatype Inode = Inode(author: nat, marker: Option<Marker>, len: nat)

  /** Where a call is between two system calls. */
  datatype Phase =
    | Start                                        // before open(O_CREATE|O_EXCL)
    | Created(ino: nat)                            // created, marker not built yet
    | Writing(ino: nat)                            // marker built, bytes going out
    | Undo(ino: nat)                               // the write failed, remove comes next
    | Opening                                      // the path existed, open for reading comes next
    | Retry                                        // the path was gone, one more create comes next
    | Reading(from: nat)                           // opened this file, read comes next
    | Deciding(seen: Marker)                       // read this, the decision comes next
    | TakingOver                                   // judged stale, rename comes next
    | Marked(ino: nat)                             // marker complete, fence comes next
    | Bumping(ino: nat, prev: nat)                 // fence read, fence write comes next
    | Holding(ino: nat, token: nat)
    | Releasing(ino: nat)                          // released flag won, remove comes next
    | SweepOpen
    | SweepReading(from: nat)
    | SweepDeciding(seen: Marker)
    | SweepReopen(first: Marker)                   // judged stale, second open comes next
    | SweepRereading(from: nat, first: Marker)
    | SweepRemove                                  // same identity twice, remove comes next
    | Done

  datatype Actor = Actor(host: string, pid: int, cfg: Config, phase: Phase)

  /**
   * The directory, the calls in progress, the process table of every host, and the tokens handed out so far. windows:
   * callers may set a time window.
   */
  datatype State = State(
    windows: bool,
    path: Option<nat>,
    inodes: map<nat, Inode>,
    actors: map<nat, Actor>,
    tables: map<string, map<int, Proc>>,
    fence: Option<string>,
    tokens: seq<nat>)

  function Initial(tables: map<string, map<int, Proc>>, windows: bool): State {
    State(windows, None, map[], map[], tables, None, [])
  }

  function WorldOf(s: State, host: string, now: int): World {
    World(now, Some(host), if host in s.tables then s.tables[host] else map[])
  }

  /** What a reader finds in a file. */
  function Bytes(f: Inode): string
    requires f.marker.Some? ==> Printable(f.marker.value) && f.len <= |Content(f.marker.value)|
  {
    if f.marker.None? then "" else Content(f.marker.value)[..f.len]
  }

  // ---------------------------------------------------------------- the steps

  datatype Step =
    | Spawn(host: string, pid: int, proc: Proc)
    | Acquire(id: nat, host: string, pid: int, cfg: Config)
    | Sweep(id: nat, host: string, pid: int, cfg: Config)
    | Create(id: nat, ino: nat)
    | Build(id: nat, now: int)
    | Write(id: nat, len: nat)
    | Close(id: nat)
    | WriteFails(id: nat)
    | UndoRemove(id: nat, ok: bool)
    | Open(id: nat)
    | Scan(id: nat)
    | Judge(id: nat, now: int)
    | Rename(id: nat, ino: nat, now: int)
    | FenceRead(id: nat)
    | FenceWrite(id: nat, ok: bool)
    | Release(id: nat)
    | ReleaseRemove(id: nat, ok: bool)
    | SweepUnlink(id: nat, ok: bool)

  function Phased(s: State, id: nat, phase: Phase): State
    requires id in s.actors
  {
    s.(actors := s.actors[id := s.actors[id].(phase := phase)])
  }

  /** The marker actor id writes at this time. */
  function MarkerOf(s: State, id: nat, now: int): Marker
    requires id in s.actors
  {
    OwnMarker(WorldOf(s, s.actors[id].host, now), s.actors[id].pid, s.actors[id].cfg)
  }

  predicate CanPrint(m: Marker) {
    Printable(m) && NewlineFree(m)
  }

  function DoCreate(s: State, id: nat, ino: nat, whenTaken: Phase): State
    requires id in s.actors
  {
    if s.path.Some? then Phased(s, id, whenTaken)
    else if ino in s.inodes then s
    else Phased(s.(path := Some(ino), inodes := s.inodes[ino := Inode(id, None, 0)]), id, Created(ino))
  }

  /** os.Remove of the path, which may fail. */
  function Unlinked(s: State, ok: bool): State {
    if ok then s.(path := None) else s
  }

  predicate Readable(f: Inode) {
    f.marker.Some? ==> Printable(f.marker.value) && f.len <= |Content(f.marker.value)|
  }

  predicate ReadsAs(f: Inode, t: Marker) {
    Readable(f) && Read(Bytes(f)) == Ok(t)
  }

  /** What reading the opened file leads to; unreadable bytes end the call. */
  function Scanned(s: State, phase: Phase): Phase
    requires phase.Reading? || phase.SweepReading? || phase.SweepRereading?
  {
    if phase.from !in s.inodes || !Readable(s.inodes[phase.from]) then Done else
      match Read(Bytes(s.inodes[phase.from]))
      case Err(_) => Done
      case Ok(m) =>
        match phase
        case Reading(_) => Deciding(m)
        case SweepReading(_) => SweepDeciding(m)
        case SweepRereading(_, first) => if m.acquired == first.acquired && m.pid == first.pid then SweepRemove else Done
  }

  /** The decision on what was read, by the clock and the process table of now. */
  function Judged(s: State, a: Actor, now: int): Phase
    requires a.phase.Deciding? || a.phase.SweepDeciding?
  {
    if !IsStale(WorldOf(s, a.host, now), a.phase.seen, a.cfg) then Done
    else if a.phase.Deciding? then TakingOver
    else SweepReopen(a.phase.seen)
  }

  /** One step; a step that is not possible in s changes nothing. */
  function Apply(s: State, e: Step): State {
    match e
    case Spawn(host, pid, proc) =>
      if host in s.tables && pid !in s.tables[host] then s.(tables := s.tables[host := s.tables[host][pid := proc]]) else s
    case Acquire(id, host, pid, cfg) =>
      if id !in s.actors && host in s.tables && pid in s.tables[host]
      then s.(actors := s.actors[id := Actor(host, pid, cfg, Start)]) else s
    case Sweep(id, host, pid, cfg) =>
      if id !in s.actors && host in s.tables && pid in s.tables[host]
      then s.(actors := s.actors[id := Actor(host, pid, cfg, SweepOpen)]) else s
    case _ => if e.id in s.actors then Act(s, e) else s
  }

  /** A step of an actor that exists. */
  function Act(s: State, e: Step): State
    requires !e.Spawn? && !e.Acquire? && !e.Sweep? && e.id in s.actors
  {
    var id := e.id;
    var phase := s.actors[id].phase;
    match e
    case Create(_, ino) =>
      if phase.Start? then DoCreate(s, id, ino, Opening)
      else if phase.Retry? then DoCreate(s, id, ino, Done)
      else s
    case Build(_, now) =>
      if phase.Created? && phase.ino in s.inodes && CanPrint(MarkerOf(s, id, now))
      then Phased(s.(inodes := s.inodes[phase.ino := Inode(id, Some(MarkerOf(s, id, now)), 0)]), id, Writing(phase.ino)) else s
    case Write(_, len) =>
      if phase.Writing? && phase.ino in s.inodes && Readable(s.inodes[phase.ino]) && s.inodes[phase.ino].marker.Some?
         && s.inodes[phase.ino].len <= len <= |Content(s.inodes[phase.ino].marker.value)|
      then s.(inodes := s.inodes[phase.ino := s.inodes[phase.ino].(len := len)]) else s
    case Close(_) =>
      if phase.Writing? && phase.ino in s.inodes && Readable(s.inodes[phase.ino]) && s.inodes[phase.ino].marker.Some?
         && s.inodes[phase.ino].len == |Content(s.inodes[phase.ino].marker.value)|
      then Phased(s, id, Marked(phase.ino)) else s
    case WriteFails(_) => if phase.Writing? then Phased(s, id, Undo(phase.ino)) else s
    case UndoRemove(_, ok) => if phase.Undo? then Phased(Unlinked(s, ok), id, Done) else s
    case Open(_) =>
      if phase.Opening? then Phased(s, id, if s.path.None? then Retry else Reading(s.path.value))
      else if phase.SweepOpen? then Phased(s, id, if s.path.None? then Done else SweepReading(s.path.value))
      else if phase.SweepReopen? then Phased(s, id, if s.path.None? then Done else SweepRereading(s.path.value, phase.first))
      else s
    case Scan(_) =>
      if phase.Reading? || phase.SweepReading? || phase.SweepRereading? then Phased(s, id, Scanned(s, phase)) else s
    case Judge(_, now) =>
      if phase.Deciding? || phase.SweepDeciding? then Phased(s, id, Judged(s, s.actors[id], now)) else s
    case Rename(_, ino, now) =>
      if phase.TakingOver? && ino !in s.inodes && CanPrint(MarkerOf(s, id, now))
      then Phased(s.(path := Some(ino),
                     inodes := s.inodes[ino := Inode(id, Some(MarkerOf(s, id, now)), |Content(MarkerOf(s, id, now))|)]),
                  id, Marked(ino)) else s
    case FenceRead(_) => if phase.Marked? then Phased(s, id, Bumping(phase.ino, FenceValue(s.fence))) else s
    case FenceWrite(_, ok) =>
      if phase.Bumping? then
        if ok then Phased(s.(fence := Some(FenceBytes(NextToken(phase.prev))), tokens := s.tokens + [NextToken(phase.prev)]),
                          id, Holding(phase.ino, NextToken(phase.prev)))
        else Phased(s, id, Holding(phase.ino, 0))
      else s
    case Release(_) => if phase.Holding? then Phased(s, id, Releasing(phase.ino)) else s
    case ReleaseRemove(_, ok) => if phase.Releasing? then Phased(Unlinked(s, ok), id, Done) else s
    case SweepUnlink(_, ok) => if phase.SweepRemove? then Phased(Unlinked(s, ok), id, Done) else s
    case _ => s
  }

  function Run(s: State, es: seq<Step>): State
    decreases |es|
  {
    if es == [] then s else Run(Apply(s, es[0]), es[1..])
  }

  // ---------------------------------------------------------------- what is assumed

  /** No host's name can be read off a cut of another host's name. */
  ghost predicate HostsTellApart(tables: map<string, map<int, Proc>>) {
    forall h, g, k :: h in tables && g in tables && 0 <= k <= |NameOf(g)| && Confusable(h, g, k) ==> h == g
  }

  /** The first k bytes of the name of g, which fit into a marker, read as the name of h. */
  predicate Confusable(h: string, g: string, k: int)
    requires 0 <= k <= |NameOf(g)|
  {
    && NameOf(h) != "unknown" && OneLine(NameOf(g)) && HOST_LINE + k < SCAN_LIMIT
    && Trim(NameOf(g)[..k]) == NameOf(h)
  }

  /** One host that knows its name and whose processes may signal each other. */
  ghost predicate Neighbours(tables: map<string, map<int, Proc>>) {
    && (forall h, g :: h in tables && g in tables ==> h == g)
    && (forall h :: h in tables ==> NameOf(h) != "unknown" && Trimmed(NameOf(h)))
    && (forall h, p :: h in tables && p in tables[h] ==> p > 0 && tables[h][p].signalable)
  }

  predicate Careful(windows: bool, cfg: Config) {
    NoWindow(cfg) || (windows && cfg.strategy == PIDFirst)
  }

  /** Every call uses a PID strategy, without a window unless windows are allowed among neighbours. */
  predicate Permitted(windows: bool, e: Step) {
    match e
    case Spawn(_, pid, proc) => windows ==> pid > 0 && proc.signalable
    case Acquire(_, _, _, cfg) => Careful(windows, cfg)
    case Sweep(_, _, _, cfg) => Careful(windows, cfg)
    case _ => true
  }

  // ---------------------------------------------------------------- the invariant

  /** The file an actor is entitled to: from creating it to removing it. */
  function Owned(phase: Phase): Option<nat> {
    match phase
    case Created(i) => Some(i)
    case Writing(i) => Some(i)
    case Undo(i) => Some(i)
    case Marked(i) => Some(i)
    case Bumping(i, _) => Some(i)
    case Holding(i, _) => Some(i)
    case Releasing(i) => Some(i)
    case _ => None
  }

  /** Phases that only a stale verdict leads to. */
  predicate Stalled(phase: Phase) {
    phase.TakingOver? || phase.SweepReopen? || phase.SweepRereading? || phase.SweepRemove?
  }

  /** A reading of some part of a marker whose author's process runs. */
  ghost predicate Seen(s: State, t: Marker) {
    exists f :: InodeOk(s, f) && ReadsAs(f, t)
  }

  ghost predicate PhaseOk(s: State, phase: Phase) {
    !Stalled(phase) && (phase.Deciding? || phase.SweepDeciding? ==> Seen(s, phase.seen))
  }

  ghost predicate ActorOk(s: State, a: Actor) {
    a.host in s.tables && a.pid in s.tables[a.host] && Careful(s.windows, a.cfg) && PhaseOk(s, a.phase)
  }

  /** A file carries the marker of its author, whose process runs. */
  predicate InodeOk(s: State, f: Inode) {
    && f.author in s.actors
    && Readable(f)
    && (f.marker.Some? ==>
          var m := f.marker.value; var a := s.actors[f.author];
          && CanPrint(m) && m.pid == a.pid && m.host == NameOf(a.host)
          && a.host in s.tables && a.pid in s.tables[a.host] && m.pidStart == s.tables[a.host][a.pid].start)
  }

  /** An actor's own file is the one at the path. */
  predicate OwnsPath(s: State, id: nat)
    requires id in s.actors
  {
    Owned(s.actors[id].phase).Some? ==>
      var i := Owned(s.actors[id].phase).value;
      s.path == Some(i) && i in s.inodes && s.inodes[i].author == id
  }

  predicate BumpsCurrent(s: State, a: Actor) {
    a.phase.Bumping? ==> a.phase.prev == FenceValue(s.fence)
  }

  ghost predicate Apart(s: State) {
    HostsTellApart(s.tables) && (s.windows ==> Neighbours(s.tables))
  }

  ghost predicate Inv(s: State) {
    && Apart(s)
    && (forall id :: id in s.actors ==> ActorOk(s, s.actors[id]))
    && (forall i :: i in s.inodes ==> InodeOk(s, s.inodes[i]))
    && (forall id :: id in s.actors ==> OwnsPath(s, id))
    && (forall id :: id in s.actors ==> BumpsCurrent(s, s.actors[id]))
  }

  // ---------------------------------------------------------------- nobody is ever judged stale

  lemma NameIsHostname(s: State, host: string, now: int)
    ensures Hostname(WorldOf(s, host, now)) == NameOf(host)
  {
  }

  /** Whatever has arrived of a marker is not read as that of a dead process. */
  lemma FileIsNotDead(s: State, f: Inode, host: string, now: int)
    requires HostsTellApart(s.tables) && InodeOk(s, f) && host in s.tables
    ensures !ReadsDead(WorldOf(s, host, now), Bytes(f))
  {
    hide Read, Content, Trim, NameOf, Hostname, Printable, NewlineFree;
    var w := WorldOf(s, host, now);
    NameIsHostname(s, host, now);
    if f.marker.None? {
      EmptyFileIsNotDead(w);
    } else {
      var m := f.marker.value;
      TornMarkerReadsDeadExactly(w, m);
      NamesFitMarkers(m);
      assert forall k :: 0 <= k <= |m.host| && Hostname(w) != "unknown" && ReadsAsLocal(w, m, k) ==>
        Confusable(host, s.actors[f.author].host, k);
    }
  }

  lemma NamesFitMarkers(m: Marker)
    requires NewlineFree(m)
    ensures OneLine(m.host)
  {
  }

  /** Among neighbours, a reading that has the acquired time shows a process that is alive. */
  lemma NeighbourIsAlive(s: State, f: Inode, host: string, now: int, t: Marker)
    requires Neighbours(s.tables) && InodeOk(s, f) && host in s.tables && ReadsAs(f, t) && t.acquired != 0
    ensures ProbeMarker(WorldOf(s, host, now), t) == Alive
  {
    hide Read, Content, Trim, NameOf, Hostname, Printable, NewlineFree, TornIdentity, AcquiredEnd;
    NameIsHostname(s, host, now);
    if f.marker.None? {
      EmptyFileIsNotDead(WorldOf(s, host, now));
    } else {
      var m := f.marker.value;
      ReadTorn(m, f.len);
      assert WholeIdentity(m, t);
      TrimKeepsTrimmed(m.host);
    }
  }

  /** What was read of a marker while it was written is never judged stale, however much later the decision comes. */
  lemma SeenIsNeverStale(s: State, t: Marker, reader: Actor, now: int)
    requires Apart(s) && Seen(s, t) && ActorOk(s, reader)
    ensures !IsStale(WorldOf(s, reader.host, now), t, reader.cfg)
  {
    hide Read, ProbeMarker, HostsTellApart, Neighbours, InodeOk, PhaseOk;
    var w := WorldOf(s, reader.host, now);
    var f :| InodeOk(s, f) && ReadsAs(f, t);
    FileIsNotDead(s, f, reader.host, now);
    assert ProbeMarker(w, t) != Dead;
    if s.windows && t.acquired != 0 {
      NeighbourIsAlive(s, f, reader.host, now, t);
    }
  }

  lemma EmptyFileIsNotDead(w: World)
    ensures Read("") == Ok(NO_MARKER) && ProbeMarker(w, NO_MARKER) != Dead && NO_MARKER.acquired == 0
  {
  }

  // ---------------------------------------------------------------- every step keeps the invariant

  /** Files and actors stay in order while hosts, processes and the identities of the actors stay. */
  lemma StillOk(s: State, s': State)
    requires s'.windows == s.windows && s'.tables.Keys == s.tables.Keys
    requires forall h, p :: h in s.tables && p in s.tables[h] ==> p in s'.tables[h] && s'.tables[h][p] == s.tables[h][p]
    requires forall id :: id in s.actors ==>
      id in s'.actors && s'.actors[id].host == s.actors[id].host && s'.actors[id].pid == s.actors[id].pid
    ensures forall f :: InodeOk(s, f) ==> InodeOk(s', f)
    ensures forall a :: ActorOk(s, a) ==> ActorOk(s', a)
  {
    hide Content, Printable, NewlineFree, CanPrint, Readable, NameOf, ReadsAs;
    assert forall f :: InodeOk(s, f) ==> InodeOk(s', f);
    hide InodeOk;
    assert forall t :: Seen(s, t) ==> Seen(s', t);
    hide Seen, Careful;
  }

  lemma SpawnKeeps(s: State, host: string, pid: int, proc: Proc)
    requires Inv(s) && Permitted(s.windows, Spawn(host, pid, proc))
    ensures Inv(Apply(s, Spawn(host, pid, proc)))
  {
    hide FenceValue, Inv, InodeOk, ActorOk, Confusable, NameOf, Trimmed;
    var s' := Apply(s, Spawn(host, pid, proc));
    KeepParts(s);
    assert s'.tables.Keys == s.tables.Keys;
    assert forall h, p :: h in s.tables && p in s.tables[h] ==> p in s'.tables[h] && s'.tables[h][p] == s.tables[h][p];
    StillOk(s, s');
    PartsMakeInv(s');
  }

  lemma ArrivalKeeps(s: State, id: nat, a: Actor)
    requires Inv(s) && id !in s.actors && ActorOk(s, a) && (a.phase.Start? || a.phase.SweepOpen?)
    ensures Inv(s.(actors := s.actors[id := a]))
  {
    hide FenceValue, Inv, InodeOk, ActorOk, Apart;
    var s' := s.(actors := s.actors[id := a]);
    KeepParts(s);
    StillOk(s, s');
    PartsMakeInv(s');
  }

  lemma PhaseIsOk(s: State, a: Actor, phase: Phase)
    requires ActorOk(s, a) && PhaseOk(s, phase)
    ensures ActorOk(s, a.(phase := phase))
  {
  }

  /** A change of phase of one actor, who keeps the file it owns, if any. */
  lemma PhaseKeeps(s: State, id: nat, phase: Phase)
    requires Inv(s) && id in s.actors && PhaseOk(s, phase)
    requires Owned(phase).Some? ==> Owned(phase) == Owned(s.actors[id].phase)
    requires phase.Bumping? ==> phase.prev == FenceValue(s.fence)
    ensures Inv(Phased(s, id, phase))
  {
    hide FenceValue, Inv, InodeOk, ActorOk, Apart;
    var s' := Phased(s, id, phase);
    KeepParts(s);
    StillOk(s, s');
    assert ActorOk(s, s.actors[id]);
    PhaseIsOk(s, s.actors[id], phase);
    PartsMakeInv(s');
  }

  /** Only the owner of the path owns anything. */
  lemma OneOwner(s: State, a: nat, b: nat)
    requires Inv(s) && a in s.actors && b in s.actors
    requires Owned(s.actors[a].phase).Some? && Owned(s.actors[b].phase).Some?
    ensures a == b
  {
    assert OwnsPath(s, a) && OwnsPath(s, b);
  }

  /** The owner gives up its file and with it, unless the removal fails, the path. */
  lemma RemoveKeeps(s: State, id: nat, ok: bool)
    requires Inv(s) && id in s.actors && Owned(s.actors[id].phase).Some?
    ensures Inv(Phased(Unlinked(s, ok), id, Done))
  {
    hide Inv, FenceValue;
    if ok { UnlinkKeeps(s, id); } else { PhaseKeeps(s, id, Done); }
  }

  lemma UnlinkKeeps(s: State, id: nat)
    requires Inv(s) && id in s.actors && Owned(s.actors[id].phase).Some?
    ensures Inv(Phased(s.(path := None), id, Done))
  {
    hide FenceValue, InodeOk, ActorOk, Apart, Inv;
    var s' := Phased(s.(path := None), id, Done);
    forall b | b in s.actors && b != id ensures Owned(s.actors[b].phase).None? {
      if Owned(s.actors[b].phase).Some? { OneOwner(s, id, b); }
    }
    KeepParts(s);
    StillOk(s, s');
    assert ActorOk(s, s.actors[id]);
    PhaseIsOk(s, s.actors[id], Done);
    PartsMakeInv(s');
  }

  lemma KeepParts(s: State)
    requires Inv(s)
    ensures Apart(s)
    ensures forall id :: id in s.actors ==> ActorOk(s, s.actors[id])
    ensures forall i :: i in s.inodes ==> InodeOk(s, s.inodes[i])
    ensures forall id :: id in s.actors ==> OwnsPath(s, id) && BumpsCurrent(s, s.actors[id])
  {
  }

  lemma PartsMakeInv(s: State)
    requires Apart(s)
    requires forall id :: id in s.actors ==> ActorOk(s, s.actors[id])
    requires forall i :: i in s.inodes ==> InodeOk(s, s.inodes[i])
    requires forall id :: id in s.actors ==> OwnsPath(s, id) && BumpsCurrent(s, s.actors[id])
    ensures Inv(s)
  {
  }

  lemma EmptyFileIsOk(s: State, id: nat)
    requires id in s.actors
    ensures InodeOk(s, Inode(id, None, 0))
  {
  }

  lemma CreateKeeps(s: State, id: nat, ino: nat, other: Phase)
    requires Inv(s) && id in s.actors && (other.Opening? || other.Done?) && Owned(s.actors[id].phase).None?
    ensures Inv(DoCreate(s, id, ino, other))
  {
    hide FenceValue, InodeOk, ActorOk, Apart, Inv;
    if s.path.Some? {
      PhaseKeeps(s, id, other);
    } else if ino !in s.inodes {
      KeepParts(s);
      var s' := DoCreate(s, id, ino, other);
      assert forall b :: b in s.actors ==> OwnsPath(s, b) && Owned(s.actors[b].phase).None?;
      StillOk(s, s');
      assert ActorOk(s, s.actors[id]);
      PhaseIsOk(s, s.actors[id], Created(ino));
      EmptyFileIsOk(s', id);
      PartsMakeInv(s');
    }
  }

  /** The owner changes its own file and phase. */
  lemma FileKeeps(s: State, id: nat, f: Inode, phase: Phase)
    requires Inv(s) && id in s.actors && Owned(s.actors[id].phase).Some? && Owned(phase) == Owned(s.actors[id].phase)
    requires !phase.Bumping? && InodeOk(s, f) && f.author == id
    ensures Inv(Phased(s.(inodes := s.inodes[Owned(phase).value := f]), id, phase))
  {
    hide FenceValue, InodeOk, ActorOk, Apart, Inv;
    var s' := Phased(s.(inodes := s.inodes[Owned(phase).value := f]), id, phase);
    KeepParts(s);
    assert OwnsPath(s, id) && ActorOk(s, s.actors[id]);
    StillOk(s, s');
    PhaseIsOk(s, s.actors[id], phase);
    PartsMakeInv(s');
  }

  lemma OwnMarkerFits(s: State, id: nat, now: int)
    requires id in s.actors && ActorOk(s, s.actors[id]) && CanPrint(MarkerOf(s, id, now))
    ensures InodeOk(s, Inode(id, Some(MarkerOf(s, id, now)), 0))
  {
    hide Content, Printable, NewlineFree, StrategyName;
    NameIsHostname(s, s.actors[id].host, now);
  }

  lemma FenceKeeps(s: State, id: nat, ok: bool)
    requires Inv(s) && id in s.actors && s.actors[id].phase.Bumping?
    ensures Inv(Act(s, FenceWrite(id, ok)))
  {
    hide FenceValue, FenceBytes, InodeOk, ActorOk, Apart, Inv;
    var phase := s.actors[id].phase;
    if !ok {
      PhaseKeeps(s, id, Holding(phase.ino, 0));
    } else {
      forall b | b in s.actors && b != id ensures Owned(s.actors[b].phase).None? {
        if Owned(s.actors[b].phase).Some? { OneOwner(s, id, b); }
      }
      var s' := Act(s, FenceWrite(id, ok));
      KeepParts(s);
      StillOk(s, s');
      assert ActorOk(s, s.actors[id]);
      PhaseIsOk(s, s.actors[id], Holding(phase.ino, NextToken(phase.prev)));
      PartsMakeInv(s');
    }
  }

  lemma ScanKeeps(s: State, id: nat)
    requires Inv(s) && id in s.actors
    requires s.actors[id].phase.Reading? || s.actors[id].phase.SweepReading? || s.actors[id].phase.SweepRereading?
    ensures Inv(Phased(s, id, Scanned(s, s.actors[id].phase)))
  {
    hide FenceValue, InodeOk, Apart, Inv, Read;
    KeepParts(s);
    assert ActorOk(s, s.actors[id]);
    var phase := Scanned(s, s.actors[id].phase);
    if phase.Deciding? || phase.SweepDeciding? {
      var f := s.inodes[s.actors[id].phase.from];
      assert InodeOk(s, f) && ReadsAs(f, phase.seen);
    }
    PhaseKeeps(s, id, phase);
  }

  lemma JudgeKeeps(s: State, id: nat, now: int)
    requires Inv(s) && id in s.actors && (s.actors[id].phase.Deciding? || s.actors[id].phase.SweepDeciding?)
    ensures Judged(s, s.actors[id], now) == Done && Inv(Phased(s, id, Done))
  {
    hide FenceValue, InodeOk, Apart, Inv, Seen, IsStale;
    KeepParts(s);
    var a := s.actors[id];
    assert ActorOk(s, a);
    SeenIsNeverStale(s, a.phase.seen, a, now);
    PhaseKeeps(s, id, Done);
  }

  lemma StepKeeps(s: State, e: Step)
    requires Inv(s) && Permitted(s.windows, e)
    ensures Inv(Apply(s, e))
  {
    hide Inv, FenceValue, FenceBytes, Content, CanPrint, IsStale, MarkerOf, Judged, Scanned, Readable, Bytes, InodeOk, Seen, Apart;
    KeepParts(s);
    match e
    case Spawn(host, pid, proc) => SpawnKeeps(s, host, pid, proc);
    case Acquire(id, host, pid, cfg) =>
      if id !in s.actors && host in s.tables && pid in s.tables[host] {
        ArrivalKeeps(s, id, Actor(host, pid, cfg, Start));
      }
    case Sweep(id, host, pid, cfg) =>
      if id !in s.actors && host in s.tables && pid in s.tables[host] {
        ArrivalKeeps(s, id, Actor(host, pid, cfg, SweepOpen));
      }
    case _ =>
      if e.id in s.actors {
        ActKeeps(s, e);
      }
  }

  lemma ActKeeps(s: State, e: Step)
    requires Inv(s) && !e.Spawn? && !e.Acquire? && !e.Sweep? && e.id in s.actors
    ensures Inv(Act(s, e))
  {
    hide Inv, FenceValue, FenceBytes, Content, CanPrint, IsStale, MarkerOf, Judged, Scanned, Readable, Bytes, InodeOk, Seen, Apart;
    KeepParts(s);
    var id, phase := e.id, s.actors[e.id].phase;
    assert ActorOk(s, s.actors[id]) && OwnsPath(s, id);
    match e
    case Create(_, ino) =>
      if phase.Start? { CreateKeeps(s, id, ino, Opening); }
      if phase.Retry? { CreateKeeps(s, id, ino, Done); }
    case Build(_, now) =>
      if phase.Created? && CanPrint(MarkerOf(s, id, now)) {
        OwnMarkerFits(s, id, now);
        FileKeeps(s, id, Inode(id, Some(MarkerOf(s, id, now)), 0), Writing(phase.ino));
      }
    case Write(_, len) => WriteKeeps(s, id, len);
    case Close(_) => if phase.Writing? { PhaseKeeps(s, id, Marked(phase.ino)); }
    case WriteFails(_) => if phase.Writing? { PhaseKeeps(s, id, Undo(phase.ino)); }
    case UndoRemove(_, ok) => if phase.Undo? { RemoveKeeps(s, id, ok); }
    case Open(_) => OpenKeeps(s, id);
    case Scan(_) =>
      if phase.Reading? || phase.SweepReading? || phase.SweepRereading? { ScanKeeps(s, id); }
    case Judge(_, now) => if phase.Deciding? || phase.SweepDeciding? { JudgeKeeps(s, id, now); }
    case Rename(_, _, _) =>
    case FenceRead(_) => if phase.Marked? { PhaseKeeps(s, id, Bumping(phase.ino, FenceValue(s.fence))); }
    case FenceWrite(_, ok) => if phase.Bumping? { FenceKeeps(s, id, ok); }
    case Release(_) => if phase.Holding? { PhaseKeeps(s, id, Releasing(phase.ino)); }
    case ReleaseRemove(_, ok) => if phase.Releasing? { RemoveKeeps(s, id, ok); }
    case SweepUnlink(_, _) =>
  }

  lemma OpenKeeps(s: State, id: nat)
    requires Inv(s) && id in s.actors
    ensures Inv(Act(s, Open(id)))
  {
    hide Inv, FenceValue;
    KeepParts(s);
    var phase := s.actors[id].phase;
    assert ActorOk(s, s.actors[id]);
    if phase.Opening? { PhaseKeeps(s, id, if s.path.None? then Retry else Reading(s.path.value)); }
    if phase.SweepOpen? { PhaseKeeps(s, id, if s.path.None? then Done else SweepReading(s.path.value)); }
  }

  lemma WriteKeeps(s: State, id: nat, len: nat)
    requires Inv(s) && id in s.actors
    ensures Inv(Act(s, Write(id, len)))
  {
    hide Inv, FenceValue, Content, CanPrint, NameOf;
    KeepParts(s);
    var s' := Act(s, Write(id, len));
    if s' != s {
      var phase := s.actors[id].phase;
      assert OwnsPath(s, id);
      var f := s.inodes[phase.ino].(len := len);
      assert InodeOk(s, f);
      FileKeeps(s, id, f, phase);
      assert s' == Phased(s.(inodes := s.inodes[phase.ino := f]), id, phase);
    }
  }

  lemma WindowsStay(s: State, e: Step)
    ensures Apply(s, e).windows == s.windows
  {
    hide FenceValue, FenceBytes, Content, CanPrint, MarkerOf, Judged, Scanned, Readable;
  }

  lemma {:induction false} RunKeeps(s: State, es: seq<Step>)
    requires Inv(s) && forall i :: 0 <= i < |es| ==> Permitted(s.windows, es[i])
    ensures Inv(Run(s, es))
    decreases |es|
  {
    hide Inv, Apply, Permitted;
    if es != [] {
      StepKeeps(s, es[0]);
      WindowsStay(s, es[0]);
      RunKeeps(Apply(s, es[0]), es[1..]);
    }
  }

  lemma InitialOk(tables: map<string, map<int, Proc>>, windows: bool)
    requires HostsTellApart(tables) && (windows ==> Neighbours(tables))
    ensures Inv(Initial(tables, windows)) && TokensGrow(Initial(tables, windows)) && FenceValue(None) == 0
  {
    hide Neighbours, HostsTellApart;
  }

  // ---------------------------------------------------------------- the theorems

  predicate HoldsLock(s: State, id: nat) {
    id in s.actors && s.actors[id].phase.Holding?
  }

  /** Either nobody uses a window and hosts tell each other apart, or everyone is a neighbour. */
  ghost predicate StartsOk(tables: map<string, map<int, Proc>>, windows: bool, es: seq<Step>) {
    HostsTellApart(tables) && (windows ==> Neighbours(tables)) && forall i :: 0 <= i < |es| ==> Permitted(windows, es[i])
  }

  /** Mutual exclusion: in every interleaving at most one call holds the lock. */
  lemma Exclusion(tables: map<string, map<int, Proc>>, windows: bool, es: seq<Step>, a: nat, b: nat)
    requires StartsOk(tables, windows, es)
    requires HoldsLock(Run(Initial(tables, windows), es), a) && HoldsLock(Run(Initial(tables, windows), es), b)
    ensures a == b
  {
    hide Run, ActorOk, InodeOk, BumpsCurrent;
    RunKeeps(Initial(tables, windows), es);
    OneOwner(Run(Initial(tables, windows), es), a, b);
  }

  /** Every removal in every interleaving removes the file its own call created, and nothing else is ever removed. */
  lemma RemovesOnlyItsOwn(tables: map<string, map<int, Proc>>, windows: bool, es: seq<Step>, e: Step)
    requires StartsOk(tables, windows, es) && Permitted(windows, e)
    ensures var s := Run(Initial(tables, windows), es);
      s.path.Some? && Apply(s, e).path != s.path ==>
        && (e.ReleaseRemove? || e.UndoRemove?)
        && e.id in s.actors && Owned(s.actors[e.id].phase) == s.path
        && s.path.value in s.inodes && s.inodes[s.path.value].author == e.id
  {
    hide Run, Apply, Act;
    RunFromStart(tables, windows, es);
    StepRemovesOnlyItsOwn(Run(Initial(tables, windows), es), e);
  }

  lemma StepRemovesOnlyItsOwn(s: State, e: Step)
    requires Inv(s)
    ensures s.path.Some? && Apply(s, e).path != s.path ==>
      && (e.ReleaseRemove? || e.UndoRemove?)
      && e.id in s.actors && Owned(s.actors[e.id].phase) == s.path
      && s.path.value in s.inodes && s.inodes[s.path.value].author == e.id
  {
    hide InodeOk, BumpsCurrent, Apart, Inv, Apply, Seen;
    KeepParts(s);
    if s.path.Some? && Apply(s, e).path != s.path {
      WhoUnlinks(s, e);
      assert OwnsPath(s, e.id) && ActorOk(s, s.actors[e.id]);
    }
  }

  /** The steps that can take the file at the path away. */
  lemma WhoUnlinks(s: State, e: Step)
    requires s.path.Some? && Apply(s, e).path != s.path
    ensures !e.Spawn? && !e.Acquire? && !e.Sweep? && e.id in s.actors
    ensures var phase := s.actors[e.id].phase;
      || (e.UndoRemove? && phase.Undo?)
      || (e.ReleaseRemove? && phase.Releasing?)
      || (e.SweepUnlink? && phase.SweepRemove?)
      || (e.Rename? && phase.TakingOver?)
  {
    hide FenceValue, FenceBytes, Content, CanPrint, MarkerOf, Judged, Scanned, Readable;
  }

  lemma RunFromStart(tables: map<string, map<int, Proc>>, windows: bool, es: seq<Step>)
    requires StartsOk(tables, windows, es)
    ensures Inv(Run(Initial(tables, windows), es))
  {
    hide Run;
    RunKeeps(Initial(tables, windows), es);
  }

  /** A call that is over does nothing. */
  lemma OverDoesNothing(s: State, id: nat, e: Step)
    requires id in s.actors && s.actors[id].phase.Done?
    requires !e.Spawn? && !e.Acquire? && !e.Sweep? && e.id == id
    ensures Apply(s, e) == s
  {
    hide FenceValue, FenceBytes, Content, CanPrint, MarkerOf, Judged, Scanned, Readable;
  }

  /** The steps that make a marker. */
  predicate Makes(e: Step) {
    e.Create? || e.Build? || e.Write? || e.Close? || e.WriteFails? || e.UndoRemove? || e.Rename?
  }

  lemma MakerSparesOthers(s: State, id: nat, e: Step)
    requires Makes(e) && e.id in s.actors && e.id != id && id in s.actors
    ensures id in Act(s, e).actors && Act(s, e).actors[id] == s.actors[id]
  {
    hide Content, CanPrint, MarkerOf, Readable;
  }

  lemma RestSparesOthers(s: State, id: nat, e: Step)
    requires !Makes(e) && !e.Spawn? && !e.Acquire? && !e.Sweep? && e.id in s.actors && e.id != id && id in s.actors
    ensures id in Act(s, e).actors && Act(s, e).actors[id] == s.actors[id]
  {
    hide FenceValue, FenceBytes, NextToken, Judged, Scanned;
  }

  lemma StepKeepsDone(s: State, e: Step, id: nat)
    requires id in s.actors && s.actors[id].phase.Done?
    ensures id in Apply(s, e).actors && Apply(s, e).actors[id].phase.Done?
  {
    hide Act;
    if !e.Spawn? && !e.Acquire? && !e.Sweep? && e.id in s.actors {
      if e.id == id {
        OverDoesNothing(s, id, e);
      } else if Makes(e) {
        MakerSparesOthers(s, id, e);
      } else {
        RestSparesOthers(s, id, e);
      }
    }
  }

  lemma {:induction false} RunKeepsDone(s: State, es: seq<Step>, id: nat)
    requires id in s.actors && s.actors[id].phase.Done?
    ensures id in Run(s, es).actors && Run(s, es).actors[id].phase.Done?
    decreases |es|
  {
    hide Apply;
    if es != [] {
      StepKeepsDone(s, es[0], id);
      RunKeepsDone(Apply(s, es[0]), es[1..], id);
    }
  }

  /**
   * Once a call is over, because its holder released or for any other reason, no step of it, a repeated Release
   * included, ever changes anything again.
   */
  lemma OverForGood(s: State, later: seq<Step>, id: nat, e: Step)
    requires id in s.actors && s.actors[id].phase.Done?
    requires !e.Spawn? && !e.Acquire? && !e.Sweep? && e.id == id
    ensures Apply(Run(s, later), e) == Run(s, later)
  {
    hide Run, Apply;
    RunKeepsDone(s, later, id);
    OverDoesNothing(Run(s, later), id, e);
  }

  // ---------------------------------------------------------------- tokens

  /** Each token is larger than those before it, and none exceeds the stored counter. */
  ghost predicate TokensGrow(s: State) {
    && (forall i, j :: 0 <= i < j < |s.tokens| ==> s.tokens[i] < s.tokens[j])
    && (forall i :: 0 <= i < |s.tokens| ==> 0 < s.tokens[i] <= FenceValue(s.fence))
  }

  predicate Stores(s: State, e: Step) {
    e.FenceWrite? && e.ok && e.id in s.actors && s.actors[e.id].phase.Bumping?
  }

  lemma OnlyStoresCount(s: State, e: Step)
    ensures !Stores(s, e) ==> Apply(s, e).tokens == s.tokens && Apply(s, e).fence == s.fence
    ensures Stores(s, e) ==>
      var next := NextToken(s.actors[e.id].phase.prev);
      Apply(s, e).tokens == s.tokens + [next] && Apply(s, e).fence == Some(FenceBytes(next))
  {
    hide FenceValue, FenceBytes, Content, CanPrint, MarkerOf, Judged, Scanned, Readable, NextToken;
  }

  lemma StepGrowsTokens(s: State, e: Step)
    requires Inv(s) && TokensGrow(s) && FenceValue(s.fence) < TWO_64 - 1
    ensures TokensGrow(Apply(s, e)) && FenceValue(Apply(s, e).fence) <= FenceValue(s.fence) + 1
  {
    hide FenceValue, FenceBytes, Apply, Inv, InodeOk, ActorOk, Apart, OwnsPath;
    OnlyStoresCount(s, e);
    if Stores(s, e) {
      KeepParts(s);
      assert BumpsCurrent(s, s.actors[e.id]);
      FenceReadsBack(NextToken(s.actors[e.id].phase.prev));
    }
  }

  lemma {:induction false} RunGrowsTokens(s: State, es: seq<Step>)
    requires Inv(s) && TokensGrow(s) && FenceValue(s.fence) + |es| < TWO_64
    requires forall i :: 0 <= i < |es| ==> Permitted(s.windows, es[i])
    ensures TokensGrow(Run(s, es))
    decreases |es|
  {
    hide Inv, Apply, FenceValue, TokensGrow, Permitted;
    if es != [] {
      StepKeeps(s, es[0]);
      WindowsStay(s, es[0]);
      StepGrowsTokens(s, es[0]);
      RunGrowsTokens(Apply(s, es[0]), es[1..]);
    }
  }

  /** The marker serialises the fence's read-increment-write: tokens strictly increase in every interleaving. */
  lemma TokensStrictlyIncrease(tables: map<string, map<int, Proc>>, windows: bool, es: seq<Step>)
    requires StartsOk(tables, windows, es) && |es| < TWO_64
    ensures TokensGrow(Run(Initial(tables, windows), es))
  {
    hide Run, Inv, TokensGrow, FenceValue, Permitted;
    InitialOk(tables, windows);
    RunGrowsTokens(Initial(tables, windows), es);
  }
}
