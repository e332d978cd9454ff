// When hosts that share a lock directory can tell each other apart: exactly then FileSteps keeps one holder.

module FileHosts {
  import opened Wrappers
  import opened Decimal
  import opened Text
  import opened Marker
  import opened MarkerLaws
  import opened Stale
  import opened TornMarker
  import opened FileLock
  import opened FileSteps

  /** In every run without windows there is at most one holder. */
  ghost predicate NeverTwo(tables: map<string, map<int, Proc>>) {
    forall es, a, b :: Windowless(es) && BothHold(tables, es, a, b) ==> a == b
  }

  ghost predicate Windowless(es: seq<Step>) {
    forall i :: 0 <= i < |es| ==> Permitted(false, es[i])
  }

  predicate BothHold(tables: map<string, map<int, Proc>>, es: seq<Step>, a: nat, b: nat) {
    var s := Run(Initial(tables, false), es);
    HoldsLock(s, a) && HoldsLock(s, b)
  }

  /**
   * Mutual exclusion holds in every run exactly when no host's name can be read off a part of another host's name
   * that fits into a marker.
   */
  lemma ExclusionExactly(tables: map<string, map<int, Proc>>)
    requires PidsFit(tables)
    ensures NeverTwo(tables) <==> HostsTellApart(tables)
  {
    hide Run, Confusable;
    if HostsTellApart(tables) {
      forall es, a, b | Windowless(es) && BothHold(tables, es, a, b) ensures a == b {
        Exclusion(tables, false, es, a, b);
      }
    } else {
      var h, g, k :| h in tables && g in tables && 0 <= k <= |NameOf(g)| && Confusable(h, g, k) && h != g;
      var es := TwoHolders(tables, h, g, k);
      assert BothHold(tables, es, 0, 1);
    }
  }

  // ---------------------------------------------------------------- runs step by step

  /** s is reached from Initial without windows. */
  ghost predicate Reached(tables: map<string, map<int, Proc>>, s: State) {
    exists es :: Windowless(es) && Run(Initial(tables, false), es) == s
  }

  lemma {:induction false} RunAppend(s: State, es: seq<Step>, e: Step)
    ensures Run(s, es + [e]) == Apply(Run(s, es), e)
    decreases |es|
  {
    hide Apply;
    if es == [] {
      assert (es + [e])[1..] == [];
      assert Run(Apply(s, e), []) == Apply(s, e);
    } else {
      assert (es + [e])[1..] == es[1..] + [e];
      RunAppend(Apply(s, es[0]), es[1..], e);
    }
  }

  lemma Next(tables: map<string, map<int, Proc>>, s: State, e: Step)
    requires Reached(tables, s) && Permitted(false, e)
    ensures Reached(tables, Apply(s, e))
  {
    hide Run, Apply, Permitted;
    var es :| Windowless(es) && Run(Initial(tables, false), es) == s;
    RunAppend(Initial(tables, false), es, e);
    assert Windowless(es + [e]);
  }

  lemma Start0(tables: map<string, map<int, Proc>>)
    ensures Reached(tables, Initial(tables, false))
  {
    hide Initial;
    assert Windowless([]) && Run(Initial(tables, false), []) == Initial(tables, false);
  }

  // ---------------------------------------------------------------- the run with two holders

  const PLAIN := Config(PIDOnly, false, 0, "", 1, None, "")

  const PROC := Proc(0, true)

  const P := MAX_INT64 - 1

  const Q := MAX_INT64

  /** PIDs leave room for two more in an int64. */
  ghost predicate PidsFit(tables: map<string, map<int, Proc>>) {
    forall h, p :: h in tables && p in tables[h] ==> p < P
  }

  /** Call 0 runs as process P on host g, call 1 as process Q on host h, where nobody has PID P. */
  predicate Scene(s: State, h: string, g: string, phase0: Phase, phase1: Phase) {
    && 0 in s.actors && s.actors[0] == Actor(g, P, PLAIN, phase0)
    && 1 in s.actors && s.actors[1] == Actor(h, Q, PLAIN, phase1)
    && h in s.tables && P !in s.tables[h] && Q in s.tables[h] && s.tables[h][Q] == PROC
    && g in s.tables && P in s.tables[g] && s.tables[g][P] == PROC
  }

  /** The marker of process pid on host g. */
  function MarkerOn(g: string, pid: int): Marker {
    Marker(pid, 0, NameOf(g), 0, "pid-only", "none", 0, 0, "")
  }

  lemma SceneMarkers(s: State, h: string, g: string, phase0: Phase, phase1: Phase)
    requires Scene(s, h, g, phase0, phase1)
    ensures MarkerOf(s, 0, 0) == MarkerOn(g, P) && MarkerOf(s, 1, 0) == MarkerOn(h, Q)
  {
    hide NameOf;
    NameIsHostname(s, g, 0);
    NameIsHostname(s, h, 0);
  }

  lemma MarkersPrint(h: string, pid: int)
    requires OneLine(NameOf(h)) && IsInt64(pid)
    ensures CanPrint(MarkerOn(h, pid))
  {
    hide NameOf;
  }

  lemma Arrive(tables: map<string, map<int, Proc>>, h: string, g: string) returns (s: State)
    requires h in tables && g in tables && h != g && PidsFit(tables)
    ensures Reached(tables, s) && Scene(s, h, g, Start, Start) && s.path.None? && s.inodes == map[]
  {
    hide Reached;
    Start0(tables);
    s := Initial(tables, false);
    var spawnG, spawnH, call0, call1 := Spawn(g, P, PROC), Spawn(h, Q, PROC), Acquire(0, g, P, PLAIN), Acquire(1, h, Q, PLAIN);
    Next(tables, s, spawnG);
    s := Apply(s, spawnG);
    Next(tables, s, spawnH);
    s := Apply(s, spawnH);
    Next(tables, s, call0);
    s := Apply(s, call0);
    Next(tables, s, call1);
    s := Apply(s, call1);
  }

  /** The markers of both processes can be printed, and the first i bytes of that on g read with k bytes of its host. */
  predicate CutReads(h: string, g: string, i: nat, k: nat) {
    && CanPrint(MarkerOn(g, P)) && CanPrint(MarkerOn(h, Q))
    && i <= |Content(MarkerOn(g, P))| && k <= |NameOf(g)|
    && (var r := Read(Content(MarkerOn(g, P))[..i]); r.Ok? && TornHost(MarkerOn(g, P), r.value, k))
  }

  /** What those bytes read as. */
  function Torn(g: string, i: nat): Marker {
    var m := MarkerOn(g, P);
    if CanPrint(m) && i <= |Content(m)| && Read(Content(m)[..i]).Ok? then Read(Content(m)[..i]).value else NO_MARKER
  }

  /** The file of call 0 holds the first i bytes of its marker. */
  predicate Partly(s: State, g: string, i: nat) {
    0 in s.inodes && s.inodes[0] == Inode(0, Some(MarkerOn(g, P)), i)
  }

  lemma PrintedIsReadable(m: Marker, author: nat, len: nat)
    requires CanPrint(m) && len <= |Content(m)|
    ensures Readable(Inode(author, Some(m), len)) && Bytes(Inode(author, Some(m), len)) == Content(m)[..len]
  {
    hide Content;
  }

  /** Call 0 creates its marker and writes the first i bytes. */
  lemma WritePart(tables: map<string, map<int, Proc>>, s0: State, h: string, g: string, i: nat) returns (s: State)
    requires Reached(tables, s0) && Scene(s0, h, g, Start, Start) && s0.path.None? && s0.inodes == map[]
    requires CanPrint(MarkerOn(g, P)) && i <= |Content(MarkerOn(g, P))|
    ensures Reached(tables, s) && Scene(s, h, g, Writing(0), Start)
    ensures s.path == Some(0) && s.inodes == map[0 := Inode(0, Some(MarkerOn(g, P)), i)]
  {
    hide Reached, MarkerOf, MarkerOn, CanPrint, Content, NameOf;
    var create, build, write := Create(0, 0), Build(0, 0), Write(0, i);
    s := s0;
    Next(tables, s, create);
    s := Apply(s, create);
    assert Scene(s, h, g, Created(0), Start);
    SceneMarkers(s, h, g, Created(0), Start);
    Next(tables, s, build);
    s := Apply(s, build);
    assert Scene(s, h, g, Writing(0), Start);
    assert Readable(s.inodes[0]) by { PrintedIsReadable(MarkerOn(g, P), 0, 0); }
    Next(tables, s, write);
    s := Apply(s, write);
  }

  /** Call 1 finds the path taken and reads those bytes. */
  lemma Look(tables: map<string, map<int, Proc>>, s0: State, h: string, g: string, i: nat, k: nat) returns (s: State)
    requires Reached(tables, s0) && Scene(s0, h, g, Writing(0), Start) && CutReads(h, g, i, k)
    requires s0.path == Some(0) && s0.inodes == map[0 := Inode(0, Some(MarkerOn(g, P)), i)]
    ensures Reached(tables, s) && Scene(s, h, g, Writing(0), Deciding(Torn(g, i)))
    ensures s.inodes == s0.inodes
  {
    hide Reached, MarkerOf, MarkerOn, CanPrint, Content, NameOf, Read, Trim, TornHost;
    PrintedIsReadable(MarkerOn(g, P), 0, i);
    hide Readable, Bytes;
    var create, open, scan := Create(1, 1), Open(1), Scan(1);
    s := s0;
    Next(tables, s, create);
    s := Apply(s, create);
    Next(tables, s, open);
    s := Apply(s, open);
    assert Scene(s, h, g, Writing(0), Reading(0));
    Next(tables, s, scan);
    s := Apply(s, scan);
  }

  /** It judges them to be of a dead process on its own host. */
  lemma Condemn(tables: map<string, map<int, Proc>>, s0: State, h: string, g: string, i: nat, k: nat) returns (s: State)
    requires Reached(tables, s0) && Scene(s0, h, g, Writing(0), Deciding(Torn(g, i))) && CutReads(h, g, i, k)
    requires Confusable(h, g, k)
    ensures Reached(tables, s) && Scene(s, h, g, Writing(0), TakingOver) && s.inodes == s0.inodes
  {
    hide Reached, CutReads, NameOf, IsStale, Confusable, Torn, Read, Content, MarkerOf, CanPrint;
    LooksDead(s0, h, g, i, k);
    Next(tables, s0, Judge(1, 0));
    s := Apply(s0, Judge(1, 0));
  }

  /** And takes over. */
  lemma Seize(tables: map<string, map<int, Proc>>, s0: State, h: string, g: string, i: nat) returns (s: State)
    requires Reached(tables, s0) && Scene(s0, h, g, Writing(0), TakingOver) && CanPrint(MarkerOn(h, Q))
    requires s0.inodes == map[0 := Inode(0, Some(MarkerOn(g, P)), i)]
    ensures Reached(tables, s) && Scene(s, h, g, Writing(0), Marked(1)) && Partly(s, g, i)
  {
    hide Reached, MarkerOf, MarkerOn, CanPrint, Content, NameOf;
    SceneMarkers(s0, h, g, Writing(0), TakingOver);
    Next(tables, s0, Rename(1, 1, 0));
    s := Apply(s0, Rename(1, 1, 0));
  }

  lemma LooksDead(s: State, h: string, g: string, i: nat, k: nat)
    requires Scene(s, h, g, Writing(0), Deciding(Torn(g, i))) && CutReads(h, g, i, k) && Confusable(h, g, k)
    ensures IsStale(WorldOf(s, h, 0), Torn(g, i), PLAIN)
  {
    hide NameOf, Trim, Read, Content, CanPrint;
    NameIsHostname(s, h, 0);
  }

  /** Call 0 finishes its marker. */
  lemma Finish(tables: map<string, map<int, Proc>>, s0: State, h: string, g: string, i: nat, k: nat) returns (s: State)
    requires Reached(tables, s0) && Scene(s0, h, g, Writing(0), Marked(1)) && Partly(s0, g, i) && CutReads(h, g, i, k)
    ensures Reached(tables, s) && Scene(s, h, g, Marked(0), Marked(1))
  {
    hide Reached, MarkerOn, CanPrint, Content, NameOf, TornHost, Read;
    CanPrintMeans(MarkerOn(g, P));
    var whole := |Content(MarkerOn(g, P))|;
    PrintedIsReadable(MarkerOn(g, P), 0, i);
    PrintedIsReadable(MarkerOn(g, P), 0, whole);
    hide Readable, CutReads;
    var write, close := Write(0, whole), Close(0);
    s := s0;
    Next(tables, s, write);
    s := Apply(s, write);
    assert Scene(s, h, g, Writing(0), Marked(1)) && Partly(s, g, whole);
    Next(tables, s, close);
    s := Apply(s, close);
  }

  /** A call whose marker is complete draws its token. */
  lemma Draw(tables: map<string, map<int, Proc>>, s0: State, id: nat) returns (s: State)
    requires Reached(tables, s0) && id in s0.actors && s0.actors[id].phase.Marked?
    ensures Reached(tables, s) && HoldsLock(s, id)
    ensures forall x :: x in s0.actors && x != id ==> x in s.actors && s.actors[x] == s0.actors[x]
  {
    hide Reached, FenceValue, FenceBytes, NextToken;
    var read, write := FenceRead(id), FenceWrite(id, true);
    s := s0;
    Next(tables, s, read);
    s := Apply(s, read);
    Next(tables, s, write);
    s := Apply(s, write);
  }

  lemma PartIsOneLine(s: string, k: nat)
    requires OneLine(s) && k <= |s|
    ensures OneLine(Trim(s[..k]))
  {
    var t := TrimLeft(s[..k]);
    assert forall c :: c in t ==> c in s[..k];
    assert forall c :: c in TrimRight(t) ==> c in t;
    hide TrimLeft, TrimRight;
  }

  lemma CutExists(h: string, g: string, k: nat) returns (i: nat)
    requires k <= |NameOf(g)| && Confusable(h, g, k)
    ensures CutReads(h, g, i, k)
  {
    hide CanPrint, Read, Content, NameOf, Trim, TornHost;
    PartIsOneLine(NameOf(g), k);
    MarkersPrint(g, P);
    MarkersPrint(h, Q);
    assert Printable(MarkerOn(g, P)) && NewlineFree(MarkerOn(g, P)) by { CanPrintMeans(MarkerOn(g, P)); }
    hide Printable, NewlineFree;
    i := CutInsideHost(MarkerOn(g, P), k);
  }

  lemma CanPrintMeans(m: Marker)
    requires CanPrint(m)
    ensures Printable(m) && NewlineFree(m)
  {
  }

  /** When the first k bytes of the name of g read as the name of h, one process on each ends up holding the lock. */
  lemma TwoHolders(tables: map<string, map<int, Proc>>, h: string, g: string, k: nat) returns (es: seq<Step>)
    requires h in tables && g in tables && h != g && PidsFit(tables) && k <= |NameOf(g)| && Confusable(h, g, k)
    ensures Windowless(es) && BothHold(tables, es, 0, 1)
  {
    var i := CutExists(h, g, k);
    var s := Arrive(tables, h, g);
    assert CanPrint(MarkerOn(g, P)) && CanPrint(MarkerOn(h, Q)) && i <= |Content(MarkerOn(g, P))|;
    hide Run, Apply, CutReads, CanPrint, Content, NameOf, Confusable, MarkerOn, Partly;
    s := WritePart(tables, s, h, g, i);
    s := Look(tables, s, h, g, i, k);
    s := Condemn(tables, s, h, g, i, k);
    s := Seize(tables, s, h, g, i);
    s := Finish(tables, s, h, g, i, k);
    s := Draw(tables, s, 0);
    s := Draw(tables, s, 1);
    es :| Windowless(es) && Run(Initial(tables, false), es) == s;
  }
}
