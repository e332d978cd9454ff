// The calls of FileSteps when nobody comes between their system calls: they do what FileLock's methods promise.

module FileSolo {
  import opened Wrappers
  import opened Marker
  import opened MarkerLaws
  import opened Stale
  import opened FileLock
  import opened FileSteps

  /** Call id wrote marker m to file ino, which is at the path. */
  predicate Placed(s: State, id: nat, ino: nat, m: Marker) {
    && s.path == Some(ino) && ino in s.inodes
    && CanPrint(m) && s.inodes[ino] == Inode(id, Some(m), |Content(m)|)
  }

  lemma WholeMarker(m: Marker, id: nat)
    requires CanPrint(m)
    ensures Readable(Inode(id, Some(m), 0)) && Readable(Inode(id, Some(m), |Content(m)|))
    ensures Bytes(Inode(id, Some(m), |Content(m)|)) == Content(m)
  {
    hide Content;
  }

  // ---------------------------------------------------------------- single system calls

  lemma PhasedTwice(s: State, id: nat, p: Phase, q: Phase)
    requires id in s.actors
    ensures Phased(Phased(s, id, p), id, q) == Phased(s, id, q)
  {
  }

  lemma CreateOnFree(s: State, id: nat, ino: nat)
    requires id in s.actors && s.actors[id].phase.Start? && s.path.None? && ino !in s.inodes
    ensures Apply(s, Create(id, ino))
         == Phased(s.(path := Some(ino), inodes := s.inodes[ino := Inode(id, None, 0)]), id, Created(ino))
  {
  }

  lemma CreateOnTaken(s: State, id: nat, ino: nat)
    requires id in s.actors && s.actors[id].phase.Start? && s.path.Some?
    ensures Apply(s, Create(id, ino)) == Phased(s, id, Opening)
  {
  }

  lemma OpenOnTaken(s: State, id: nat)
    requires id in s.actors && s.path.Some?
    ensures var p := s.actors[id].phase; var f := s.path.value;
      && (p.Opening? ==> Apply(s, Open(id)) == Phased(s, id, Reading(f)))
      && (p.SweepOpen? ==> Apply(s, Open(id)) == Phased(s, id, SweepReading(f)))
      && (p.SweepReopen? ==> Apply(s, Open(id)) == Phased(s, id, SweepRereading(f, p.first)))
  {
  }

  lemma ScanIs(s: State, id: nat)
    requires id in s.actors
    requires s.actors[id].phase.Reading? || s.actors[id].phase.SweepReading? || s.actors[id].phase.SweepRereading?
    ensures Apply(s, Scan(id)) == Phased(s, id, Scanned(s, s.actors[id].phase))
  {
    hide Scanned;
  }

  lemma JudgeIs(s: State, id: nat, now: int)
    requires id in s.actors
    ensures var p := s.actors[id].phase;
      Apply(s, Judge(id, now)) == if p.Deciding? || p.SweepDeciding? then Phased(s, id, Judged(s, s.actors[id], now)) else s
  {
    hide Judged;
  }

  lemma MarkerStays(s: State, s': State, id: nat, now: int)
    requires id in s.actors && id in s'.actors && s'.tables == s.tables
    requires s'.actors[id].host == s.actors[id].host && s'.actors[id].pid == s.actors[id].pid && s'.actors[id].cfg == s.actors[id].cfg
    ensures MarkerOf(s', id, now) == MarkerOf(s, id, now)
  {
    hide OwnMarker;
  }

  lemma BuildIs(s: State, id: nat, ino: nat, now: int)
    requires id in s.actors && s.actors[id].phase == Created(ino) && ino in s.inodes && CanPrint(MarkerOf(s, id, now))
    ensures Apply(s, Build(id, now))
         == Phased(s.(inodes := s.inodes[ino := Inode(id, Some(MarkerOf(s, id, now)), 0)]), id, Writing(ino))
  {
    hide CanPrint, MarkerOf;
  }

  lemma WriteIs(s: State, id: nat, ino: nat, f: Inode, len: nat)
    requires id in s.actors && s.actors[id].phase == Writing(ino) && ino in s.inodes && s.inodes[ino] == f
    requires f.marker.Some? && Readable(f) && f.len <= len <= |Content(f.marker.value)|
    ensures Apply(s, Write(id, len)) == s.(inodes := s.inodes[ino := f.(len := len)])
  {
    hide Content;
  }

  lemma CloseIs(s: State, id: nat, ino: nat, f: Inode)
    requires id in s.actors && s.actors[id].phase == Writing(ino) && ino in s.inodes && s.inodes[ino] == f
    requires f.marker.Some? && Readable(f) && f.len == |Content(f.marker.value)|
    ensures Apply(s, Close(id)) == Phased(s, id, Marked(ino))
  {
    hide Content;
  }

  lemma WriteAll(s: State, id: nat, ino: nat, m: Marker)
    requires id in s.actors && s.actors[id].phase == Writing(ino) && ino in s.inodes
    requires CanPrint(m) && s.inodes[ino] == Inode(id, Some(m), 0)
    ensures Apply(Apply(s, Write(id, |Content(m)|)), Close(id))
         == Phased(s.(inodes := s.inodes[ino := Inode(id, Some(m), |Content(m)|)]), id, Marked(ino))
  {
    WholeMarker(m, id);
    hide Apply, Content, Readable, CanPrint;
    WriteIs(s, id, ino, s.inodes[ino], |Content(m)|);
    var s1 := Apply(s, Write(id, |Content(m)|));
    CloseIs(s1, id, ino, s1.inodes[ino]);
  }

  // ---------------------------------------------------------------- whole calls

  /** On a free path, an acquire puts its whole marker there. */
  lemma CreateAlone(s: State, id: nat, ino: nat, now: int)
    requires id in s.actors && s.actors[id].phase.Start? && s.path.None? && ino !in s.inodes
    requires CanPrint(MarkerOf(s, id, now))
    ensures var m := MarkerOf(s, id, now);
      var s4 := Apply(Apply(Apply(Apply(s, Create(id, ino)), Build(id, now)), Write(id, |Content(m)|)), Close(id));
      && Placed(s4, id, ino, m) && id in s4.actors && s4.actors[id].phase == Marked(ino)
      && s4.fence == s.fence && s4.tokens == s.tokens
      && Bytes(s4.inodes[ino]) == Content(m)
  {
    hide Apply, Content, CanPrint, MarkerOf, Readable, Bytes;
    var m := MarkerOf(s, id, now);
    WholeMarker(m, id);
    CreateOnFree(s, id, ino);
    var s1 := Apply(s, Create(id, ino));
    MarkerStays(s, s1, id, now);
    BuildIs(s1, id, ino, now);
    WriteAll(Apply(s1, Build(id, now)), id, ino, m);
  }

  /** With its marker in place, a call counts the fence up and holds the lock with the new token. */
  lemma DrawAlone(s: State, id: nat)
    requires id in s.actors && s.actors[id].phase.Marked?
    ensures var token := NextToken(FenceValue(s.fence)); var s2 := Apply(Apply(s, FenceRead(id)), FenceWrite(id, true));
      && id in s2.actors && s2.actors[id].phase == Holding(s.actors[id].phase.ino, token)
      && s2.fence == Some(FenceBytes(token)) && s2.tokens == s.tokens + [token]
      && s2.path == s.path && s2.inodes == s.inodes
  {
    hide FenceValue, FenceBytes, NextToken;
  }

  /** What the file at the path holds. */
  function PathBytes(s: State): Option<string> {
    if s.path.Some? && s.path.value in s.inodes && Readable(s.inodes[s.path.value]) then Some(Bytes(s.inodes[s.path.value])) else None
  }

  /**
   * On a taken path, an acquire goes on to take over exactly if that is FileLock's decision on the bytes there, and
   * otherwise is over; so far it has changed nothing.
   */
  lemma LookAlone(s: State, id: nat, ino: nat, now: int)
    requires id in s.actors && s.actors[id].phase.Start? && PathBytes(s).Some?
    ensures var s4 := Apply(Apply(Apply(Apply(s, Create(id, ino)), Open(id)), Scan(id)), Judge(id, now));
      var verdict := Decide(PathBytes(s), WorldOf(s, s.actors[id].host, now), s.actors[id].cfg);
      s4 == Phased(s, id, if verdict == Takeover then TakingOver else Done)
  {
    hide Apply, IsStale, Read, Bytes;
    var verdict := Decide(PathBytes(s), WorldOf(s, s.actors[id].host, now), s.actors[id].cfg);
    CreateOnTaken(s, id, ino);
    var s1 := Apply(s, Create(id, ino));
    OpenOnTaken(s1, id);
    var s2 := Apply(s1, Open(id));
    PhasedTwice(s, id, Opening, Reading(s.path.value));
    ScanIs(s2, id);
    var s3 := Apply(s2, Scan(id));
    var p := Scanned(s2, s2.actors[id].phase);
    PhasedTwice(s, id, Reading(s.path.value), p);
    JudgeIs(s3, id, now);
    PhasedTwice(s, id, p, if verdict == Takeover then TakingOver else Done);
  }

  /** A takeover replaces the file at the path by its own marker in one step. */
  lemma SeizeAlone(s: State, id: nat, ino: nat, now: int)
    requires id in s.actors && s.actors[id].phase.TakingOver? && ino !in s.inodes && CanPrint(MarkerOf(s, id, now))
    ensures var s' := Apply(s, Rename(id, ino, now));
      && Placed(s', id, ino, MarkerOf(s, id, now)) && id in s'.actors && s'.actors[id].phase == Marked(ino) && s'.fence == s.fence
  {
    hide Content, CanPrint, MarkerOf;
  }

  /** A sweeper that finds a file goes on exactly if FileLock would reclaim it. */
  lemma SweepLooks(s: State, id: nat, now: int)
    requires id in s.actors && s.actors[id].phase.SweepOpen? && PathBytes(s).Some?
    ensures var s3 := Apply(Apply(Apply(s, Open(id)), Scan(id)), Judge(id, now));
      var verdict := Decide(PathBytes(s), WorldOf(s, s.actors[id].host, now), s.actors[id].cfg);
      if verdict == Takeover
      then Read(PathBytes(s).value).Ok? && s3 == Phased(s, id, SweepReopen(Read(PathBytes(s).value).value))
      else s3 == Phased(s, id, Done)
  {
    hide Apply, IsStale, Read, Bytes;
    OpenOnTaken(s, id);
    var s1 := Apply(s, Open(id));
    ScanIs(s1, id);
    var s2 := Apply(s1, Scan(id));
    var p := Scanned(s1, s1.actors[id].phase);
    PhasedTwice(s, id, SweepReading(s.path.value), p);
    JudgeIs(s2, id, now);
    PhasedTwice(s, id, p, Done);
    if p.SweepDeciding? { PhasedTwice(s, id, p, SweepReopen(p.seen)); }
  }

  /** The second look finds the same file, and removes it. */
  lemma SweepRemoves(s: State, id: nat)
    requires id in s.actors && PathBytes(s).Some? && Read(PathBytes(s).value).Ok?
    requires s.actors[id].phase == SweepReopen(Read(PathBytes(s).value).value)
    ensures Apply(Apply(Apply(s, Open(id)), Scan(id)), SweepUnlink(id, true)) == Phased(s.(path := None), id, Done)
  {
    hide Apply, Read, Bytes;
    OpenOnTaken(s, id);
    var s1 := Apply(s, Open(id));
    ScanIs(s1, id);
    PhasedTwice(s, id, s1.actors[id].phase, SweepRemove);
    UnlinkIs(Apply(s1, Scan(id)), id);
  }

  lemma UnlinkIs(s: State, id: nat)
    requires id in s.actors && s.actors[id].phase.SweepRemove?
    ensures Apply(s, SweepUnlink(id, true)) == Phased(s.(path := None), id, Done)
  {
  }

  /** A sweep removes the file at the path exactly if FileLock would reclaim it, and changes nothing else. */
  lemma SweepAlone(s: State, id: nat, now: int)
    requires id in s.actors && s.actors[id].phase.SweepOpen? && PathBytes(s).Some?
    ensures var s3 := Apply(Apply(Apply(s, Open(id)), Scan(id)), Judge(id, now));
      var s6 := Apply(Apply(Apply(s3, Open(id)), Scan(id)), SweepUnlink(id, true));
      var verdict := Decide(PathBytes(s), WorldOf(s, s.actors[id].host, now), s.actors[id].cfg);
      s6 == Phased(if verdict == Takeover then s.(path := None) else s, id, Done)
  {
    hide Apply, Decide, Read;
    SweepLooks(s, id, now);
    var s3 := Apply(Apply(Apply(s, Open(id)), Scan(id)), Judge(id, now));
    if Decide(PathBytes(s), WorldOf(s, s.actors[id].host, now), s.actors[id].cfg) == Takeover {
      assert PathBytes(s3) == PathBytes(s);
      SweepRemoves(s3, id);
    } else {
      DoneStays(s3, id);
    }
  }

  lemma DoneStays(s: State, id: nat)
    requires id in s.actors && s.actors[id].phase.Done?
    ensures Apply(s, Open(id)) == s && Apply(s, Scan(id)) == s && Apply(s, SweepUnlink(id, true)) == s
  {
    hide Apply;
    OverDoesNothing(s, id, Open(id));
    OverDoesNothing(s, id, Scan(id));
    OverDoesNothing(s, id, SweepUnlink(id, true));
  }

  /**
   * A sweeper that judged a file stale looks again before it removes: if another marker is at the path by then, which
   * means another time or PID, the file stays.
   */
  lemma SweepLooksAgain(s: State, id: nat, m: Marker)
    requires id in s.actors && s.actors[id].phase.SweepReopen? && PathBytes(s).Some? && Read(PathBytes(s).value) == Ok(m)
    ensures var first := s.actors[id].phase.first;
      var s3 := Apply(Apply(Apply(s, Open(id)), Scan(id)), SweepUnlink(id, true));
      s3 == Phased(if m.acquired == first.acquired && m.pid == first.pid then s.(path := None) else s, id, Done)
  {
    hide Apply, Read, Bytes;
    var first := s.actors[id].phase.first;
    OpenOnTaken(s, id);
    var s1 := Apply(s, Open(id));
    ScanIs(s1, id);
    var p := Scanned(s1, s1.actors[id].phase);
    var s2 := Apply(s1, Scan(id));
    PhasedTwice(s, id, SweepRereading(s.path.value, first), p);
    if m.acquired == first.acquired && m.pid == first.pid {
      UnlinkIs(s2, id);
      PhasedTwice(s, id, SweepRemove, Done);
    } else {
      OverDoesNothing(s2, id, SweepUnlink(id, true));
    }
  }

  /** New processes and calls: an acquire starts before its create, a sweep before its open, and nothing else changes. */
  lemma Arrivals(s: State, id: nat, host: string, pid: int, cfg: Config, proc: Proc)
    requires host in s.tables
    ensures pid !in s.tables[host] ==>
      var s' := Apply(s, Spawn(host, pid, proc));
      pid in s'.tables[host] && s'.tables[host][pid] == proc && s'.(tables := s.tables) == s
    ensures pid in s.tables[host] && id !in s.actors ==>
      && Apply(s, Acquire(id, host, pid, cfg)) == s.(actors := s.actors[id := Actor(host, pid, cfg, Start)])
      && Apply(s, Sweep(id, host, pid, cfg)) == s.(actors := s.actors[id := Actor(host, pid, cfg, SweepOpen)])
  {
  }

  /** When the file has gone before it could be opened, the call creates it after all, or gives up if it is back. */
  lemma RacedAway(s: State, id: nat, ino: nat, back: Option<nat>)
    requires id in s.actors && s.actors[id].phase.Opening? && s.path.None? && ino !in s.inodes
    ensures var s1 := Apply(s, Open(id)).(path := back); var s2 := Apply(s1, Create(id, ino));
      if back.None? then
        s2 == Phased(s.(path := Some(ino), inodes := s.inodes[ino := Inode(id, None, 0)]), id, Created(ino))
      else
        s2 == Phased(s.(path := back), id, Done)
  {
  }

  /** When its marker cannot be written, the call removes the file again; when the fence cannot, it holds with token 0. */
  lemma FailsAlone(s: State, id: nat)
    requires id in s.actors
    ensures s.actors[id].phase.Writing? ==>
      Apply(Apply(s, WriteFails(id)), UndoRemove(id, true)) == Phased(s.(path := None), id, Done)
    ensures s.actors[id].phase.Marked? ==>
      Apply(Apply(s, FenceRead(id)), FenceWrite(id, false)) == Phased(s, id, Holding(s.actors[id].phase.ino, 0))
  {
    hide FenceValue;
  }

  /** A Release frees the path. */
  lemma ReleaseAlone(s: State, id: nat)
    requires id in s.actors && s.actors[id].phase.Holding?
    ensures Apply(Apply(s, Release(id)), ReleaseRemove(id, true)) == Phased(s.(path := None), id, Done)
  {
  }
}
