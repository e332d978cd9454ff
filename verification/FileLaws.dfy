// What filelock's decisions, names, tokens and markers are, in terms of clocks, process tables and bytes
// (filelock/stale.go, filelock/probe.go, filelock/lock.go, filelock/fence.go, filelock/identity.go).

module FileLaws {
  import opened Wrappers
  import opened Decimal
  import opened Text
  import opened Marker
  import opened MarkerLaws
  import opened Stale
  import opened FileLock

  // ---------------------------------------------------------------- the decision, case by case

  /** No probe can tell whether the writer of m lives: no PID, no hostname, another host, or a process of another user. */
  predicate Unprobeable(w: World, m: Marker) {
    || m.pid <= 0 || w.osHost.None? || w.osHost.value in {"", "unknown"} || m.host != w.osHost.value
    || (m.pid in w.procs && !w.procs[m.pid].signalable)
  }

  /**
   * Under TimeOnly, and under PIDFirst when no probe can tell, the clock alone decides: the marker is taken over
   * exactly when a window is set, the marker has its time, and more than the window has passed since. The longest
   * window never passes.
   */
  lemma ClockDecides(w: World, bytes: string, m: Marker, cfg: Config)
    requires Read(bytes) == Ok(m) && MIN_INT64 <= cfg.staleAfter <= MAX_INT64
    requires cfg.strategy == TimeOnly || (cfg.strategy == PIDFirst && Unprobeable(w, m))
    ensures Decide(Some(bytes), w, cfg) ==
      if cfg.staleAfterIsOn && m.acquired != 0 && w.now - m.acquired > cfg.staleAfter && cfg.staleAfter < MAX_INT64
      then Takeover else Held
  {
    hide Read, TimeExpired;
    SaturationIsHarmless(w, m, cfg);
  }

  /** Under PIDOnly such a marker is never taken over, however old it is. */
  lemma WithoutProbeHeldForEver(w: World, bytes: string, m: Marker, cfg: Config)
    requires Read(bytes) == Ok(m) && cfg.strategy == PIDOnly && Unprobeable(w, m)
    ensures Decide(Some(bytes), w, cfg) == Held
  {
    hide Read, TimeExpired;
  }

  /**
   * In every other case the process table decides, and the clock never: the marker of a process of this host that is
   * gone, or whose PID now belongs to one with another start time, is taken over, and no other.
   */
  lemma ProcessTableDecides(w: World, bytes: string, m: Marker, cfg: Config)
    requires Read(bytes) == Ok(m) && cfg.strategy != TimeOnly && !Unprobeable(w, m)
    ensures Decide(Some(bytes), w, cfg) ==
      if m.pid !in w.procs || (m.pidStart != 0 && w.procs[m.pid].start != 0 && w.procs[m.pid].start != m.pidStart)
      then Takeover else Held
  {
    hide Read, TimeExpired;
  }

  /** Without faults, exactly a free or stale marker is acquired, a live one is Locked, and an unreadable one Failed. */
  lemma OutcomeWithoutFaults(files: map<string, string>, path: string, w: World, cfg: Config, faults: Faults)
    requires Works(faults)
    ensures var r := AttemptOutcome(Decide(At(files, path), w, cfg), faults);
      && (r.Failed? <==> path in files && Read(files[path]).Err?)
      && (r.Locked? <==> path in files && Read(files[path]).Ok? && !IsStale(w, Read(files[path]).value, cfg))
  {
    hide Read, IsStale;
  }

  /** An expired marker of another host is taken over by AcquireMarker, a fresh one is not. */
  lemma AcquireByClock(files: map<string, string>, path: string, w: World, cfg: Config, faults: Faults, m: Marker)
    requires Works(faults)
    requires path in files && Read(files[path]) == Ok(m) && MIN_INT64 <= cfg.staleAfter < MAX_INT64
    requires cfg.strategy == TimeOnly || (cfg.strategy == PIDFirst && Unprobeable(w, m))
    ensures AttemptOutcome(Decide(At(files, path), w, cfg), faults) ==
      if cfg.staleAfterIsOn && m.acquired != 0 && w.now - m.acquired > cfg.staleAfter then Acquired else Locked
  {
    hide Read;
    ClockDecides(w, files[path], m, cfg);
  }

  // ---------------------------------------------------------------- what a holder's marker says

  /** The marker of an acquire at time t by process pid reads back with just that, and with the caller's settings. */
  lemma OwnMarkerReadsBack(w: World, pid: int, cfg: Config)
    requires CanWrite(w, pid, cfg) && RoundTrippable(OwnMarker(w, pid, cfg))
    ensures Read(OwnContent(w, pid, cfg)).Ok?
    ensures var m := Read(OwnContent(w, pid, cfg)).value;
      && m.acquired == w.now && m.pid == pid
      && m.pidStart == (if pid in w.procs then w.procs[pid].start else 0)
      && m.host == (if w.osHost.None? || w.osHost.value == "" then "unknown" else w.osHost.value)
      && m.strategy == (match cfg.strategy case PIDFirst => "pid-first" case PIDOnly => "pid-only" case TimeOnly => "time-only")
      && m.staleAfter == (if cfg.staleAfterIsOn then cfg.staleAfterText else "none")
      && m.maxConcurrent == (if cfg.maxConcurrent > 1 then cfg.maxConcurrent else 0)
      && m.slot == (if cfg.slot.Some? then cfg.slot.value else 0)
      && m.traceID == cfg.traceID
  {
    hide Read, Content, RoundTrippable, Printable;
    ReadsWhatWasWritten(OwnMarker(w, pid, cfg));
  }

  /** After a granted acquire of a slot, the file of that slot reads as a marker of this process with that slot's number. */
  lemma GrantIsRecorded(before: map<string, string>, after: map<string, string>, name: string, slot: nat, w: World, pid: int,
                        cfg: Config, fence: FenceFault, token: nat)
    requires CanWrite(w, pid, WithSlot(cfg, slot)) && RoundTrippable(OwnMarker(w, pid, cfg.(slot := Some(slot))))
    requires GrantedFiles(before, after, name, slot, w, pid, cfg, fence, token)
    ensures var path := name + "." + Dec(slot) + ".lock";
      && path in after && Read(after[path]).Ok?
      && (var m := Read(after[path]).value;
          m.slot == slot && m.pid == pid && m.acquired == w.now && m.traceID == cfg.traceID)
  {
    hide Read, Content, RoundTrippable, Printable, TokenFor, StoresFence, FenceBytes, FenceName, CanWrite;
    MarkerIsNotFence(name, slot);
    OwnMarkerReadsBack(w, pid, cfg.(slot := Some(slot)));
  }

  // ---------------------------------------------------------------- names and tokens

  /** The files of a lock. */
  lemma FileNames(name: string, slot: nat)
    ensures PathFor(name, -1) == name + ".lock"
    ensures PathFor(name, slot) == name + "." + Dec(slot) + ".lock"
    ensures FenceName(name) == name + ".fence"
  {
  }

  /** A sweep looks at nothing but files whose names end in .lock. */
  lemma SweepSuffix(files: map<string, string>, names: set<string>, n: string, w: World, cfg: Config)
    ensures n in Reclaimable(files, names, w, cfg) ==> |n| >= 5 && n[|n| - 5..] == ".lock"
    ensures n in names && n in files && |n| >= 5 && n[|n| - 5..] == ".lock" && Decide(Some(files[n]), w, cfg) == Takeover ==>
      n in Reclaimable(files, names, w, cfg)
  {
    hide Decide;
  }

  /**
   * Tokens start at 1 when there is no fence file or none that can be read as a number, count up by one, and start over
   * at 0 behind 2^64 - 1.
   */
  lemma TokensCountUp(bytes: string, v: nat)
    requires v < 0x1_0000_0000_0000_0000
    ensures TokenFor(None, FenceOk) == 1
    ensures ParseUint64(Trim(bytes)).None? ==> TokenFor(Some(bytes), FenceOk) == 1
    ensures TokenFor(Some(bytes), FenceUnread) == 1
    ensures TokenFor(Some(Dec(v) + "\n"), FenceOk) == if v == 0xFFFF_FFFF_FFFF_FFFF then 0 else v + 1
  {
    hide Dec, Trim, ParseUint64;
    FenceReadsBack(v);
    hide FenceValue;
  }
}
