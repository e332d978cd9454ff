// Acquire, takeover, release, fence and sweep over one lock directory, each run without interference
// (filelock/lock.go, filelock/fence.go, filelock/holder.go, filelock/sweep.go). FileSteps interleaves them.

module FileLock {
  import opened Wrappers
  import opened Decimal
  import opened Text
  import opened Marker
  import opened MarkerLaws
  import opened Stale
  import opened TornMarker

  // ---------------------------------------------------------------- names

  const LOCK_SUFFIX := ".lock"

  function MarkerName(name: string): string {
    name + LOCK_SUFFIX
  }

  function SlotMarkerName(name: string, slot: nat): string {
    name + "." + Dec(slot) + LOCK_SUFFIX
  }

  function FenceName(name: string): string {
    name + ".fence"
  }

  predicate HasSuffix(s: string, t: string) {
    |s| >= |t| && s[|s| - |t|..] == t
  }

  /** The marker an acquire of slot (-1 in singleton mode) goes for. */
  function PathFor(name: string, slot: int): string {
    if slot < 0 then MarkerName(name) else SlotMarkerName(name, slot)
  }

  function WithSlot(cfg: Config, slot: int): Config {
    if slot < 0 then cfg else cfg.(slot := Some(slot))
  }

  // ---------------------------------------------------------------- what an existing file means

  datatype Decision = Fresh | Takeover | Held | Unreadable

  /** What acquireMarker finds at a path. */
  function Decide(existing: Option<string>, w: World, cfg: Config): Decision {
    match existing
    case None => Fresh
    case Some(bytes) =>
      match Read(bytes)
      case Err(_) => Unreadable
      case Ok(m) => if IsStale(w, m, cfg) then Takeover else Held
  }

  function At(files: map<string, string>, name: string): Option<string> {
    if name in files then Some(files[name]) else None
  }

  // ---------------------------------------------------------------- the fence file

  /** readFence: 0 for a missing or malformed file. */
  function FenceValue(file: Option<string>): (v: nat)
    ensures v < TWO_64
  {
    match file
    case None => 0
    case Some(bytes) => match ParseUint64(Trim(bytes)) case None => 0 case Some(v) => v
  }

  /** prev + 1 in uint64 arithmetic. */
  function NextToken(prev: nat): (next: nat)
    ensures next < TWO_64
  {
    (prev + 1) % TWO_64
  }

  /** How reading and writing the fence can go: a lost rename collision is ignored, an unreadable file counts as 0. */
  datatype FenceFault = FenceOk | FenceUnread | FenceFails | FenceCollides

  /** The token of an acquire that finds this fence file. */
  function TokenFor(file: Option<string>, fault: FenceFault): (token: nat)
    ensures token < TWO_64
  {
    if fault.FenceFails? then 0 else NextToken(if fault.FenceUnread? then 0 else FenceValue(file))
  }

  predicate StoresFence(fault: FenceFault) {
    fault.FenceOk? || fault.FenceUnread?
  }

  function FenceBytes(v: nat): string {
    Dec(v) + "\n"
  }

  lemma FenceReadsBack(v: nat)
    requires v < TWO_64
    ensures FenceValue(Some(FenceBytes(v))) == v
  {
    hide Dec, Trim;
    var s := Dec(v);
    DigitsAreSolid(s);
    TrimNewline(s);
    ParseUintReadsDec(v);
  }

  lemma DigitsAreSolid(s: string)
    requires AllDigits(s)
    ensures forall i :: 0 <= i < |s| ==> Solid(s[i])
  {
  }

  lemma TrimRightNewline(s: string)
    ensures TrimRight(s + "\n") == TrimRight(s)
  {
    var t := s + "\n";
    assert SpaceBack(t) == 1 && t[..|t| - 1] == s;
    hide SpaceBack;
  }

  lemma TrimNewline(s: string)
    requires s != "" && Solid(s[0]) && Solid(s[|s| - 1])
    ensures Trim(s + "\n") == s
  {
    hide SpaceFront, SpaceBack, TrimLeft, TrimRight, Solid;
    assert (s + "\n")[0] == s[0];
    SolidFront(s + "\n");
    SolidFront(s);
    SolidEnds(s);
    TrimRightNewline(s);
  }

  // ---------------------------------------------------------------- the directory

  /**
   * The calls of one attempt on a marker that fail, besides the file being there. cut is how much of the marker
   * arrives when writing fails; remove is the clean-up after a failure, whose own failure is ignored.
   */
  datatype Faults = Faults(open: bool, write: bool, cut: nat, remove: bool, read: bool, temp: bool, rename: bool, fence: FenceFault)

  class Directory {
    var files: map<string, string>
    const subdirs: set<string>

    constructor (subdirs: set<string>)
      ensures files == map[] && this.subdirs == subdirs
    {
      files := map[];
      this.subdirs := subdirs;
    }

    /** open(O_CREATE|O_EXCL). */
    method CreateExclusive(name: string) returns (ok: bool)
      modifies this
      ensures ok <==> name !in old(files)
      ensures files == if ok then old(files)[name := ""] else old(files)
    {
      ok := name !in files;
      if ok {
        files := files[name := ""];
      }
    }

    method Write(name: string, bytes: string)
      requires name in files
      modifies this
      ensures files == old(files)[name := bytes]
    {
      files := files[name := bytes];
    }

    method Remove(name: string) returns (ok: bool)
      modifies this
      ensures ok <==> name in old(files)
      ensures files == old(files) - {name}
    {
      ok := name in files;
      files := files - {name};
    }

    /** rename(2): replaces the target in one step. */
    method Rename(source: string, target: string)
      requires source in files && source != target
      modifies this
      ensures files == (old(files) - {source})[target := old(files)[source]]
    {
      files := files[target := files[source]] - {source};
    }
  }

  // ---------------------------------------------------------------- acquire

  datatype Outcome = Acquired | Locked | Failed

  datatype Created = Made | Exists | Broken

  /** What an attempt on a marker comes to, given what it finds and which calls fail. */
  function AttemptOutcome(found: Decision, faults: Faults): Outcome {
    if faults.open then Failed
    else if found.Fresh? then (if faults.write then Failed else Acquired)
    else if faults.read then Failed
    else
      match found
      case Held => Locked
      case Takeover => if faults.temp || faults.write || faults.rename then Failed else Acquired
      case _ => Failed
  }

  /** No call on the marker fails. */
  predicate Works(faults: Faults) {
    !faults.open && !faults.write && !faults.read && !faults.temp && !faults.rename
  }

  function Cut(bytes: string, n: nat): string {
    if n < |bytes| then bytes[..n] else bytes
  }

  /** The file an attempt that failed leaves behind when its clean-up fails too, and its contents. */
  function Leftover(path: string, tmp: string, found: Decision, faults: Faults, bytes: string): Option<(string, string)> {
    if !faults.remove || faults.open then None
    else if found.Fresh? then (if faults.write then Some((path, Cut(bytes, faults.cut))) else None)
    else if faults.read || !found.Takeover? || faults.temp then None
    else if faults.write then Some((tmp, Cut(bytes, faults.cut)))
    else if faults.rename then Some((tmp, bytes))
    else None
  }

  /** The directory after an attempt to put bytes at path. */
  function AfterAttempt(files: map<string, string>, path: string, tmp: string, found: Decision, faults: Faults, bytes: string)
    : map<string, string>
  {
    if AttemptOutcome(found, faults).Acquired? then files[path := bytes] else
      match Leftover(path, tmp, found, faults, bytes)
      case None => files
      case Some(f) => files[f.0 := f.1]
  }

  /** The marker an acquirer writes can be printed. */
  predicate CanWrite(w: World, pid: int, cfg: Config) {
    Printable(OwnMarker(w, pid, cfg))
  }

  function OwnContent(w: World, pid: int, cfg: Config): string
    requires CanWrite(w, pid, cfg)
  {
    Content(OwnMarker(w, pid, cfg))
  }

  /** The bytes of the marker, through the buffered writer. */
  method PrintMarker(w: World, pid: int, cfg: Config) returns (bytes: string)
    requires CanWrite(w, pid, cfg)
    ensures bytes == OwnContent(w, pid, cfg)
  {
    hide Content, OwnMarker, Printable;
    var m := BuildMarker(w, pid, cfg);
    var b := new Buffer();
    WriteMarker(b, m);
    return b.bytes;
  }

  /** tryCreateMarker. */
  method TryCreateMarker(dir: Directory, path: string, w: World, pid: int, cfg: Config, faults: Faults) returns (r: Created)
    requires CanWrite(w, pid, cfg)
    modifies dir
    ensures r == if faults.open then Broken else if path in old(dir.files) then Exists else if faults.write then Broken else Made
    ensures r.Made? ==> dir.files == old(dir.files)[path := OwnContent(w, pid, cfg)]
    ensures !r.Made? ==>
      dir.files == if path !in old(dir.files) && !faults.open && faults.remove
                   then old(dir.files)[path := Cut(OwnContent(w, pid, cfg), faults.cut)] else old(dir.files)
  {
    hide OwnContent, CanWrite, Cut;
    if faults.open {
      return Broken;
    }
    var created := dir.CreateExclusive(path);
    if !created {
      return Exists;
    }
    var bytes := PrintMarker(w, pid, cfg);
    dir.Write(path, if faults.write then Cut(bytes, faults.cut) else bytes);
    if !faults.write {
      return Made;
    }
    if !faults.remove {
      var _ := dir.Remove(path);
      assert dir.files == old(dir.files);
    }
    return Broken;
  }

  /** takeoverMarker: a new file under a fresh name, renamed over the stale one. */
  method TakeoverMarker(dir: Directory, path: string, w: World, pid: int, cfg: Config, tmp: string, faults: Faults)
    returns (ok: bool)
    requires CanWrite(w, pid, cfg) && path in dir.files && tmp !in dir.files
    modifies dir
    ensures ok <==> !faults.temp && !faults.write && !faults.rename
    ensures ok ==> dir.files == old(dir.files)[path := OwnContent(w, pid, cfg)]
    ensures !ok ==>
      dir.files == if faults.temp || !faults.remove then old(dir.files)
                   else old(dir.files)[tmp := if faults.write then Cut(OwnContent(w, pid, cfg), faults.cut) else OwnContent(w, pid, cfg)]
  {
    hide OwnContent, CanWrite, Cut;
    if faults.temp {
      return false;
    }
    var _ := dir.CreateExclusive(tmp);
    var bytes := PrintMarker(w, pid, cfg);
    dir.Write(tmp, if faults.write then Cut(bytes, faults.cut) else bytes);
    if faults.write || faults.rename {
      if !faults.remove {
        var _ := dir.Remove(tmp);
        assert dir.files == old(dir.files);
      }
      return false;
    }
    dir.Rename(tmp, path);
    assert dir.files == old(dir.files)[path := bytes];
    return true;
  }

  /**
   * acquireMarker: an absent marker is created, a stale one replaced; a live one means Locked and an unreadable
   * one Failed, whatever fails later. Only a grant changes the directory, unless even the clean-up fails.
   */
  method AcquireMarker(dir: Directory, path: string, w: World, pid: int, cfg: Config, tmp: string, faults: Faults)
    returns (r: Outcome)
    requires CanWrite(w, pid, cfg) && tmp !in dir.files
    modifies dir
    ensures r == AttemptOutcome(Decide(At(old(dir.files), path), w, cfg), faults)
    ensures dir.files == AfterAttempt(old(dir.files), path, tmp, Decide(At(old(dir.files), path), w, cfg), faults, OwnContent(w, pid, cfg))
  {
    hide OwnContent, CanWrite, Read, IsStale, Cut;
    var created := TryCreateMarker(dir, path, w, pid, cfg, faults);
    if created.Made? {
      return Acquired;
    }
    if created.Broken? || faults.read {
      return Failed;
    }
    var existing := ReadMarker(dir.files[path]);
    if existing.Err? {
      return Failed;
    }
    if !IsStale(w, existing.value, cfg) {
      return Locked;
    }
    var taken := TakeoverMarker(dir, path, w, pid, cfg, tmp, faults);
    return if taken then Acquired else Failed;
  }

  /** writeFence, through a temporary file. */
  method WriteFence(dir: Directory, path: string, v: nat, tmp: string, fault: FenceFault) returns (ok: bool)
    requires tmp !in dir.files && tmp != path
    modifies dir
    ensures ok <==> !fault.FenceFails?
    ensures dir.files == if StoresFence(fault) then old(dir.files)[path := FenceBytes(v)] else old(dir.files)
  {
    if fault.FenceFails? {
      return false;
    }
    var _ := dir.CreateExclusive(tmp);
    dir.Write(tmp, FenceBytes(v));
    if fault.FenceCollides? {
      var _ := dir.Remove(tmp);
      assert dir.files == old(dir.files);
      return true;
    }
    dir.Rename(tmp, path);
    assert dir.files == old(dir.files)[path := FenceBytes(v)];
    return true;
  }

  /** bumpFence: the new token, or 0 when it could not be stored. */
  method BumpFence(dir: Directory, name: string, tmp: string, fault: FenceFault) returns (token: nat)
    requires tmp !in dir.files && tmp != FenceName(name)
    modifies dir
    ensures token == TokenFor(At(old(dir.files), FenceName(name)), fault)
    ensures StoresFence(fault) ==> FenceValue(At(dir.files, FenceName(name))) == token
    ensures dir.files == if StoresFence(fault) then old(dir.files)[FenceName(name) := FenceBytes(token)] else old(dir.files)
  {
    hide FenceValue, FenceBytes;
    var prev := if fault.FenceUnread? then 0 else FenceValue(At(dir.files, FenceName(name)));
    var next := NextToken(prev);
    var ok := WriteFence(dir, FenceName(name), next, tmp, fault);
    FenceReadsBack(next);
    return if ok then next else 0;
  }

  /** A held lock. */
  class Holder {
    const path: string
    const token: nat
    var released: bool

    constructor (path: string, token: nat)
      ensures this.path == path && this.token == token && !released
    {
      this.path, this.token, released := path, token, false;
    }

    /**
     * Release: the first call removes the marker, or reports that it is stuck; every later one leaves the directory
     * alone and reports success.
     */
    method Release(dir: Directory, stuck: bool) returns (ok: bool)
      modifies this, dir
      ensures released
      ensures ok <==> old(released) || !stuck
      ensures dir.files == if old(released) || stuck then old(dir.files) else old(dir.files) - {path}
    {
      if released {
        return true;
      }
      released := true;
      if stuck {
        return false;
      }
      var _ := dir.Remove(path);
      return true;
    }
  }

  /** How the slot scan sees slot i. */
  function SlotDecision(files: map<string, string>, name: string, slot: int, w: World, cfg: Config): Decision {
    Decide(At(files, PathFor(name, slot)), w, WithSlot(cfg, slot))
  }

  /** The directory after an attempt on slot that was not granted. */
  function FailedFiles(files: map<string, string>, name: string, slot: int, w: World, pid: int, cfg: Config, tmp: string, faults: Faults)
    : map<string, string>
    requires CanWrite(w, pid, WithSlot(cfg, slot))
  {
    AfterAttempt(files, PathFor(name, slot), tmp, SlotDecision(files, name, slot, w, cfg), faults,
                 OwnContent(w, pid, WithSlot(cfg, slot)))
  }

  /** acquireSlot: marker first, fence second. */
  method AcquireSlot(dir: Directory, name: string, slot: int, w: World, pid: int, cfg: Config, tmp: string, faults: Faults)
    returns (r: Outcome, token: nat)
    requires CanWrite(w, pid, WithSlot(cfg, slot)) && tmp !in dir.files
    requires tmp != FenceName(name) && tmp != PathFor(name, slot)
    modifies dir
    ensures r == AttemptOutcome(SlotDecision(old(dir.files), name, slot, w, cfg), faults)
    ensures !r.Acquired? ==> dir.files == FailedFiles(old(dir.files), name, slot, w, pid, cfg, tmp, faults)
    ensures r.Acquired? ==> GrantedFiles(old(dir.files), dir.files, name, slot, w, pid, cfg, faults.fence, token)
  {
    hide OwnContent, CanWrite, Decide, FenceBytes, TokenFor, StoresFence, Leftover;
    token := 0;
    r := AcquireMarker(dir, PathFor(name, slot), w, pid, WithSlot(cfg, slot), tmp, faults);
    if r.Acquired? {
      MarkerIsNotFence(name, slot);
      token := BumpFence(dir, name, tmp, faults.fence);
    }
  }

  /** The directory after a grant: our marker in place and the fence moved on. */
  ghost predicate GrantedFiles(before: map<string, string>, after: map<string, string>, name: string, slot: int,
                               w: World, pid: int, cfg: Config, fault: FenceFault, token: nat)
    requires CanWrite(w, pid, WithSlot(cfg, slot))
  {
    var marked := before[PathFor(name, slot) := OwnContent(w, pid, WithSlot(cfg, slot))];
    && token == TokenFor(At(before, FenceName(name)), fault)
    && after == if StoresFence(fault) then marked[FenceName(name) := FenceBytes(token)] else marked
  }

  lemma MarkerIsNotFence(name: string, slot: int)
    ensures PathFor(name, slot) != FenceName(name)
  {
    var p, f := PathFor(name, slot), FenceName(name);
    assert p[|p| - 1] == 'k' && f[|f| - 1] == 'e';
  }

  /** The slots an acquire may try; -1 stands for singleton mode. */
  predicate InScan(cfg: Config, slot: int) {
    if cfg.maxConcurrent <= 1 then slot == -1 else 0 <= slot < cfg.maxConcurrent
  }

  /** Slots 0 to n - 1 are all held. */
  ghost predicate AllHeld(files: map<string, string>, name: string, n: int, w: World, cfg: Config) {
    forall i :: 0 <= i < n ==> SlotDecision(files, name, i, w, cfg) == Held
  }

  /** The first slot that is not held is free or stale. */
  ghost predicate Grantable(files: map<string, string>, name: string, w: World, cfg: Config) {
    exists i :: InScan(cfg, i) && AllHeld(files, name, i, w, cfg) && SlotDecision(files, name, i, w, cfg) in {Fresh, Takeover}
  }

  ghost predicate EveryHeld(files: map<string, string>, name: string, w: World, cfg: Config) {
    forall i :: InScan(cfg, i) ==> SlotDecision(files, name, i, w, cfg) == Held
  }

  /** The slot that decides, decides alone. */
  lemma FirstDecides(files: map<string, string>, name: string, w: World, cfg: Config, slot: int, faults: Faults)
    requires InScan(cfg, slot) && AllHeld(files, name, slot, w, cfg) && Works(faults)
    requires cfg.maxConcurrent > 1 ==> SlotDecision(files, name, slot, w, cfg) != Held
    ensures var r := AttemptOutcome(SlotDecision(files, name, slot, w, cfg), faults);
      (r.Acquired? <==> Grantable(files, name, w, cfg)) && (r.Locked? <==> EveryHeld(files, name, w, cfg))
  {
    hide SlotDecision;
    forall i | InScan(cfg, i) && AllHeld(files, name, i, w, cfg) && SlotDecision(files, name, i, w, cfg) in {Fresh, Takeover}
      ensures SlotDecision(files, name, slot, w, cfg) in {Fresh, Takeover}
    {
      assert i == slot || i < slot || slot < i;
    }
  }

  function SlotIndex(slot: int): nat {
    if slot < 0 then 0 else slot
  }

  /**
   * acquire: the first slot that is not held decides, and Locked means that every slot is held. slot is the one
   * that decided. entry: the context is cancelled already, or the directory cannot be made. faults says for each slot
   * which calls would fail.
   */
  method Acquire(dir: Directory, name: string, w: World, pid: int, cfg: Config, tmp: string, entry: bool, faults: seq<Faults>)
    returns (r: Outcome, holder: Option<Holder>, ghost slot: int)
    requires forall s :: InScan(cfg, s) ==> CanWrite(w, pid, WithSlot(cfg, s))
    requires tmp !in dir.files && tmp != FenceName(name)
    requires forall s :: InScan(cfg, s) ==> tmp != PathFor(name, s)
    requires |faults| >= 1 && |faults| >= cfg.maxConcurrent
    modifies dir
    ensures r.Acquired? <==> holder.Some?
    ensures entry ==> r.Failed?
    ensures entry || r.Locked? ==> dir.files == old(dir.files)
    ensures !entry && r.Locked? && cfg.maxConcurrent > 1 ==>
      forall i :: 0 <= i < cfg.maxConcurrent ==>
        AttemptOutcome(SlotDecision(old(dir.files), name, i, w, cfg), faults[i]) == Locked
    ensures !entry && !(r.Locked? && cfg.maxConcurrent > 1) ==>
      && InScan(cfg, slot)
      && AllHeld(old(dir.files), name, slot, w, cfg)
      && r == AttemptOutcome(SlotDecision(old(dir.files), name, slot, w, cfg), faults[SlotIndex(slot)])
    ensures !entry && (forall f :: f in faults ==> Works(f)) ==>
      (r.Acquired? <==> Grantable(old(dir.files), name, w, cfg)) && (r.Locked? <==> EveryHeld(old(dir.files), name, w, cfg))
    ensures !entry && r.Failed? ==>
      dir.files == FailedFiles(old(dir.files), name, slot, w, pid, cfg, tmp, faults[SlotIndex(slot)])
    ensures r.Acquired? ==>
      && holder.value.path == PathFor(name, slot) && !holder.value.released && fresh(holder.value)
      && GrantedFiles(old(dir.files), dir.files, name, slot, w, pid, cfg, faults[SlotIndex(slot)].fence, holder.value.token)
  {
    hide SlotDecision, GrantedFiles, CanWrite, AttemptOutcome, FailedFiles, Grantable, EveryHeld;
    holder, slot := None, -1;
    if entry {
      return Failed, None, slot;
    }
    var token: nat;
    if cfg.maxConcurrent <= 1 {
      r, token := AcquireSlot(dir, name, -1, w, pid, cfg, tmp, faults[0]);
      if r.Locked? { LockedChangesNothing(old(dir.files), name, -1, w, pid, cfg, tmp, faults[0]); }
      if Works(faults[0]) { FirstDecides(old(dir.files), name, w, cfg, -1, faults[0]); }
      if r.Acquired? {
        var h := new Holder(PathFor(name, -1), token);
        holder := Some(h);
      }
      return;
    }
    var i := 0;
    while i < cfg.maxConcurrent
      invariant 0 <= i <= cfg.maxConcurrent
      invariant dir.files == old(dir.files)
      invariant AllHeld(old(dir.files), name, i, w, cfg)
      invariant forall j :: 0 <= j < i ==>
        AttemptOutcome(SlotDecision(old(dir.files), name, j, w, cfg), faults[j]) == Locked
    {
      r, token := AcquireSlot(dir, name, i, w, pid, cfg, tmp, faults[i]);
      if r.Locked? {
        LockedChangesNothing(old(dir.files), name, i, w, pid, cfg, tmp, faults[i]);
      } else if Works(faults[i]) {
        HeldIsLocked(faults[i]);
        FirstDecides(old(dir.files), name, w, cfg, i, faults[i]);
      }
      if r.Acquired? {
        slot := i;
        var h := new Holder(PathFor(name, i), token);
        holder := Some(h);
        return;
      }
      if r.Failed? {
        slot := i;
        return;
      }
      i := i + 1;
    }
    r := Locked;
    AllHeldIsEvery(old(dir.files), name, w, cfg);
  }

  lemma HeldIsLocked(faults: Faults)
    requires Works(faults)
    ensures AttemptOutcome(Held, faults) == Locked
  {
  }

  lemma AllHeldIsEvery(files: map<string, string>, name: string, w: World, cfg: Config)
    requires cfg.maxConcurrent > 1 && AllHeld(files, name, cfg.maxConcurrent, w, cfg)
    ensures EveryHeld(files, name, w, cfg) && !Grantable(files, name, w, cfg)
  {
    hide SlotDecision;
  }

  lemma LockedChangesNothing(files: map<string, string>, name: string, slot: int, w: World, pid: int, cfg: Config,
                             tmp: string, faults: Faults)
    requires CanWrite(w, pid, WithSlot(cfg, slot))
    requires AttemptOutcome(SlotDecision(files, name, slot, w, cfg), faults).Locked?
    ensures SlotDecision(files, name, slot, w, cfg) == Held
    ensures FailedFiles(files, name, slot, w, pid, cfg, tmp, faults) == files
  {
    hide SlotDecision, OwnContent;
  }

  // ---------------------------------------------------------------- sweep

  /** The entries among names that a sweep reclaims. */
  function Reclaimable(files: map<string, string>, names: set<string>, w: World, cfg: Config): set<string> {
    set n | n in names && n in files && HasSuffix(n, LOCK_SUFFIX) && Decide(Some(files[n]), w, cfg) == Takeover
  }

  /** reclaimOne: reads, judges, reads again and removes. */
  method ReclaimOne(dir: Directory, name: string, w: World, cfg: Config, stuck: set<string>) returns (removed: bool)
    modifies dir
    ensures removed <==> name in old(dir.files) && Decide(Some(old(dir.files)[name]), w, cfg) == Takeover && name !in stuck
    ensures dir.files == if removed then old(dir.files) - {name} else old(dir.files)
  {
    if name !in dir.files {
      return false;
    }
    var first := ReadMarker(dir.files[name]);
    if first.Err? || !IsStale(w, first.value, cfg) {
      return false;
    }
    var second := ReadMarker(dir.files[name]);
    if second.Err? || second.value.acquired != first.value.acquired || second.value.pid != first.value.pid {
      return false;
    }
    if name in stuck {
      return false;
    }
    removed := dir.Remove(name);
  }

  function Names(entries: seq<string>): set<string> {
    set n | n in entries
  }

  /**
   * Sweep over a directory listing, stopping before entry cancelAt if the context is cancelled there. It removes
   * exactly the stale marker files among the entries it reached, except those whose removal fails, and counts them.
   */
  method Sweep(dir: Directory, entries: seq<string>, w: World, cfg: Config, stuck: set<string>, cancelAt: Option<nat>)
    returns (reclaimed: nat, cancelled: bool)
    requires forall i, j :: 0 <= i < j < |entries| ==> entries[i] != entries[j]
    requires dir.subdirs !! dir.files.Keys
    modifies dir
    ensures cancelled <==> cancelAt.Some? && cancelAt.value < |entries|
    ensures var reached := if cancelled then entries[..cancelAt.value] else entries;
      var gone := Reclaimable(old(dir.files), Names(reached), w, cfg) - stuck;
      dir.files == old(dir.files) - gone && reclaimed == |gone|
  {
    hide Reclaimable, HasSuffix, Decide, Names;
    reclaimed := 0;
    ghost var before := dir.files;
    ghost var gone := Doomed(before, entries, 0, w, cfg, stuck);
    SweepStart(before, entries, w, cfg, stuck);
    var n := 0;
    while n < |entries|
      invariant 0 <= n <= |entries|
      invariant cancelAt.Some? ==> n <= cancelAt.value || |entries| <= cancelAt.value
      invariant gone == Doomed(before, entries, n, w, cfg, stuck)
      invariant dir.files == before - gone && reclaimed == |gone|
    {
      if cancelAt == Some(n) {
        return reclaimed, true;
      }
      var name := entries[n];
      SweepStep(before, entries, n, w, cfg, stuck);
      if name !in dir.subdirs && HasSuffix(name, LOCK_SUFFIX) {
        var removed := ReclaimOne(dir, name, w, cfg, stuck);
        if removed {
          reclaimed := reclaimed + 1;
          gone := gone + {name};
        }
      }
      n := n + 1;
    }
    assert entries[..n] == entries;
    return reclaimed, false;
  }

  /** What a sweep has removed before it looks at entry n. */
  function Doomed(files: map<string, string>, entries: seq<string>, n: nat, w: World, cfg: Config, stuck: set<string>): set<string>
    requires n <= |entries|
  {
    Reclaimable(files, Names(entries[..n]), w, cfg) - stuck
  }

  lemma SweepStart(files: map<string, string>, entries: seq<string>, w: World, cfg: Config, stuck: set<string>)
    ensures Doomed(files, entries, 0, w, cfg, stuck) == {}
  {
  }

  /** One more entry adds itself to what is removed, if it is a stale marker. */
  lemma SweepStep(files: map<string, string>, entries: seq<string>, n: nat, w: World, cfg: Config, stuck: set<string>)
    requires n < |entries| && forall i, j :: 0 <= i < j < |entries| ==> entries[i] != entries[j]
    ensures entries[n] !in Doomed(files, entries, n, w, cfg, stuck)
    ensures var e := entries[n];
      Doomed(files, entries, n + 1, w, cfg, stuck)
      == Doomed(files, entries, n, w, cfg, stuck)
         + if e in files && HasSuffix(e, LOCK_SUFFIX) && Decide(Some(files[e]), w, cfg) == Takeover && e !in stuck then {e} else {}
  {
    hide Decide, HasSuffix;
    var e := entries[n];
    assert entries[..n + 1] == entries[..n] + [e];
    assert e !in Names(entries[..n]);
    assert Names(entries[..n + 1]) == Names(entries[..n]) + {e};
    hide Names;
    OneMoreName(files, Names(entries[..n]), e, w, cfg);
    hide Reclaimable;
  }

  lemma OneMoreName(files: map<string, string>, names: set<string>, e: string, w: World, cfg: Config)
    requires e !in names
    ensures e !in Reclaimable(files, names, w, cfg)
    ensures Reclaimable(files, names + {e}, w, cfg)
      == Reclaimable(files, names, w, cfg)
         + if e in files && HasSuffix(e, LOCK_SUFFIX) && Decide(Some(files[e]), w, cfg) == Takeover then {e} else {}
  {
    hide Decide, HasSuffix;
  }

  /** A second sweep with the same clock and process table finds nothing. */
  lemma SecondSweepRemovesNothing(files: map<string, string>, names: set<string>, w: World, cfg: Config)
    ensures Reclaimable(files - Reclaimable(files, names, w, cfg), names, w, cfg) == {}
  {
    hide Decide;
  }

  /** A sweep without a window spares every marker, even half written, whose writer runs on this host. */
  lemma SweepSparesRunningHolders(files: map<string, string>, names: set<string>, n: string, w: World, cfg: Config, m: Marker, i: nat)
    requires NoWindow(cfg) && Printable(m) && NewlineFree(m) && WriterRuns(w, m)
    requires n in files && i <= |Content(m)| && files[n] == Content(m)[..i]
    ensures n !in Reclaimable(files, names, w, cfg)
  {
    hide Read, Content, IsStale;
    TornMarkerIsNotStale(w, m, i, cfg);
  }

  // ---------------------------------------------------------------- which names collide

  lemma LastDotDecides(a: string, d: string, b: string, e: string)
    requires AllDigits(d) && AllDigits(e) && a + ['.'] + d == b + ['.'] + e
    ensures a == b && d == e
  {
    LastIndexBeforeTail(a, '.', d);
    LastIndexBeforeTail(b, '.', e);
    assert a == (a + ['.'] + d)[..|a|] && d == (a + ['.'] + d)[|a| + 1..];
  }

  /** Marker files of different slots, or of slots of different names, never coincide. */
  lemma SlotMarkersDiffer(name: string, slot: nat, other: string, slot': nat)
    ensures SlotMarkerName(name, slot) == SlotMarkerName(other, slot') <==> name == other && slot == slot'
  {
    if SlotMarkerName(name, slot) == SlotMarkerName(other, slot') {
      var a, b := name + "." + Dec(slot), other + "." + Dec(slot');
      assert a == (a + LOCK_SUFFIX)[..|a|] && b == (b + LOCK_SUFFIX)[..|b|];
      assert a == name + ['.'] + Dec(slot) && b == other + ['.'] + Dec(slot');
      LastDotDecides(name, Dec(slot), other, Dec(slot'));
    }
  }

  /** A singleton lock shares a file with a slot exactly when its name ends in that slot's number. */
  lemma SingletonMeetsSlot(name: string, other: string, slot: nat)
    ensures MarkerName(name) == SlotMarkerName(other, slot) <==> name == other + "." + Dec(slot)
  {
    var b := other + "." + Dec(slot);
    assert name == (name + LOCK_SUFFIX)[..|name|] && b == (b + LOCK_SUFFIX)[..|b|];
  }
}
