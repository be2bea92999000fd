/** The executor's coverage dump (docs/archive/old_fuzzer/kmod/cov.c): a linear-probe table gathers PCs by
    pid and writes them out in chunks. */
module Coverage {
  import opened Lists
  import opened Records

  const SLOTS := 2048              // PID_MAP_SIZE
  const CHUNK := 64                // SIG_CHUNK_SIZE
  const BUFFER := 32 * 1024        // COV_BUFFER_SIZE
  const FREE: U32 := 0xffff_ffff   // the pid of a free slot

  /** pcs is as long as the slot's count. */
  datatype Slot = Slot(pid: U32, pcs: seq<U64>)

  // ---- the table ----

  function Home(pid: int): (h: nat)
    ensures h < SLOTS
  {
    pid % SLOTS
  }

  /** The slot that the i-th probe for pid looks at. */
  function Probe(pid: int, i: int): (pos: nat)
    ensures pos < SLOTS
  {
    (Home(pid) + i) % SLOTS
  }

  /** How many probes for pid come before the one that looks at pos. */
  function Dist(pid: int, pos: int): (d: nat)
    ensures d < SLOTS
  {
    (pos - Home(pid)) % SLOTS
  }

  lemma ProbeDist(pid: int, pos: int, i: int)
    requires 0 <= pos < SLOTS && 0 <= i < SLOTS
    ensures Probe(pid, i) == pos <==> i == Dist(pid, pos)
  {}

  predicate Used(t: seq<Slot>, pos: int) { 0 <= pos < |t| && t[pos].pid != FREE }

  predicate Apart(t: seq<Slot>) {
    forall a, b :: 0 <= a < b < |t| && Used(t, a) && Used(t, b) ==> t[a].pid != t[b].pid
  }

  predicate Reached(t: seq<Slot>, pos: int)
    requires |t| == SLOTS && 0 <= pos < SLOTS
  {
    forall i :: 0 <= i < Dist(t[pos].pid, pos) ==> Used(t, Probe(t[pos].pid, i))
  }

  /** No pid twice, and no hole on any pid's way to its slot. */
  predicate Table(t: seq<Slot>) {
    && |t| == SLOTS
    && Apart(t)
    && (forall pos :: 0 <= pos < SLOTS && Used(t, pos) ==> Reached(t, pos))
  }

  /** There is room for one more PC everywhere. */
  predicate Roomy(t: seq<Slot>) { forall pos :: 0 <= pos < |t| ==> |t[pos].pcs| < CHUNK }

  predicate At(t: seq<Slot>, pid: int, pos: int) { 0 <= pos < |t| && t[pos].pid == pid }

  ghost predicate Present(t: seq<Slot>, pid: int) { exists pos :: At(t, pid, pos) }

  predicate Full(t: seq<Slot>) { forall pos :: 0 <= pos < |t| ==> Used(t, pos) }

  lemma HolderIsOnItsWay(t: seq<Slot>, pid: int, pos: int, i: nat)
    requires Table(t) && pid != FREE && At(t, pid, pos)
    ensures Probe(pid, Dist(pid, pos)) == pos
    ensures i <= Dist(pid, pos) ==> Used(t, Probe(pid, i))
  {
    ProbeDist(pid, pos, Dist(pid, pos));
    assert Reached(t, pos);
  }

  /** The first free slot on pid's way is where pid would be, if it were anywhere. */
  lemma FreeMeansAbsent(t: seq<Slot>, pid: int, i: nat)
    requires Table(t) && pid != FREE && i < SLOTS && !Used(t, Probe(pid, i))
    requires forall j :: 0 <= j < i ==> t[Probe(pid, j)].pid != pid
    ensures !Present(t, pid)
  {
    if Present(t, pid) {
      var pos :| At(t, pid, pos);
      HolderIsOnItsWay(t, pid, pos, i);
      assert false;
    }
  }

  /** After all the probes, every slot has been looked at. */
  lemma AllProbed(t: seq<Slot>, pid: int)
    requires |t| == SLOTS
    requires forall j :: 0 <= j < SLOTS ==> Used(t, Probe(pid, j)) && t[Probe(pid, j)].pid != pid
    ensures Full(t) && !Present(t, pid)
  {
    forall pos | 0 <= pos < SLOTS
      ensures Used(t, pos) && t[pos].pid != pid
    {
      ProbeDist(pid, pos, Dist(pid, pos));
      assert Used(t, Probe(pid, Dist(pid, pos)));
    }
  }

  /** Taking the first free slot on pid's way leaves a table. */
  lemma ClaimKeepsTable(t: seq<Slot>, pid: U32, i: nat)
    requires Table(t) && pid != FREE && i < SLOTS && !Used(t, Probe(pid, i))
    requires forall j :: 0 <= j < i ==> Used(t, Probe(pid, j)) && t[Probe(pid, j)].pid != pid
    ensures Table(t[Probe(pid, i) := Slot(pid, [])])
  {
    var pos := Probe(pid, i);
    var t' := t[pos := Slot(pid, [])];
    FreeMeansAbsent(t, pid, i);
    assert forall p :: 0 <= p < SLOTS ==> !At(t, pid, p);
    assert forall p :: 0 <= p < SLOTS && p != pos ==> t'[p] == t[p];
    assert Apart(t') by {
      forall a, b | 0 <= a < b < |t'| && Used(t', a) && Used(t', b)
        ensures t'[a].pid != t'[b].pid
      {
        assert !At(t, pid, a) && !At(t, pid, b);
        assert a != pos && b != pos ==> Used(t, a) && Used(t, b);
      }
    }
    assert forall p :: 0 <= p < SLOTS ==> (Used(t', p) <==> p == pos || Used(t, p));
    ProbeDist(pid, pos, i);
    forall p | 0 <= p < SLOTS && Used(t', p)
      ensures Reached(t', p)
    {
      if p != pos {
        assert Reached(t, p);
      }
    }
  }

  /** Only a slot's PCs change. */
  lemma PcsKeepTable(t: seq<Slot>, pos: nat, pcs: seq<U64>)
    requires Table(t) && pos < SLOTS
    ensures Table(t[pos := Slot(t[pos].pid, pcs)])
    ensures forall pid :: Present(t[pos := Slot(t[pos].pid, pcs)], pid) <==> Present(t, pid)
  {
    var t' := t[pos := Slot(t[pos].pid, pcs)];
    assert forall p :: 0 <= p < SLOTS ==> t'[p].pid == t[p].pid;
    assert forall p :: Used(t', p) <==> Used(t, p);
    assert forall pid, p :: At(t', pid, p) <==> At(t, pid, p);
    forall p | 0 <= p < SLOTS && Used(t', p)
      ensures Reached(t', p)
    {
      assert Reached(t, p);
    }
    forall pid
      ensures Present(t', pid) <==> Present(t, pid)
    {
      if Present(t, pid) {
        var p :| At(t, pid, p);
        assert At(t', pid, p);
      }
      if Present(t', pid) {
        var p :| At(t', pid, p);
        assert At(t, pid, p);
      }
    }
  }

  ghost function Where(t: seq<Slot>, pid: int): (pos: int)
    requires Present(t, pid)
    ensures At(t, pid, pos)
  {
    var pos :| At(t, pid, pos);
    pos
  }

  /** The PCs of a pid that wait in the table. */
  ghost function Pending(t: seq<Slot>, pid: int): seq<nat> {
    if Present(t, pid) then t[Where(t, pid)].pcs else []
  }

  lemma PendingAt(t: seq<Slot>, pid: int, pos: nat)
    requires Apart(t) && pid != FREE && At(t, pid, pos)
    ensures Pending(t, pid) == t[pos].pcs
  {
    assert Used(t, pos);
    assert Used(t, Where(t, pid));
  }

  // ---- which pids the table holds, and when it is full ----

  /** The pids of a buffer, in order of first appearance; one that looks like a free slot never gets one. */
  function Seen(es: seq<Entry>): seq<int> {
    if es == [] then []
    else
      var seen, pid := Seen(es[..|es| - 1]), es[|es| - 1].pid;
      if pid in seen || pid == FREE then seen else seen + [pid]
  }

  lemma {:induction false} SeenIsDistinct(es: seq<Entry>)
    ensures Distinct(Seen(es)) && FREE !in Seen(es)
  {
    if es != [] {
      SeenIsDistinct(es[..|es| - 1]);
    }
  }

  ghost predicate Holds(t: seq<Slot>, seen: seq<int>) {
    forall pid :: pid in seen <==> pid != FREE && Present(t, pid)
  }

  function Pids(t: seq<Slot>): seq<int> { seq(|t|, i requires 0 <= i < |t| => t[i].pid) }

  /** The table is full exactly when it holds as many pids as it has slots. */
  lemma FullExactly(t: seq<Slot>, seen: seq<int>)
    requires Table(t) && Distinct(seen) && Holds(t, seen)
    ensures Full(t) <==> |seen| >= SLOTS
  {
    var pids := Pids(t);
    if Full(t) {
      forall i, j | 0 <= i < j < |pids|
        ensures pids[i] != pids[j]
      {
        assert Used(t, i) && Used(t, j);
      }
      forall pid | pid in pids
        ensures pid in seen
      {
        var i :| 0 <= i < |pids| && pids[i] == pid;
        assert At(t, pid, i) && Used(t, i);
      }
      DistinctAmong(pids, seen);
    } else {
      var free :| 0 <= free < |t| && !Used(t, free);
      assert pids[free] == FREE;
      WithoutIsShorter(pids, FREE);
      forall pid | pid in seen
        ensures pid in Without(pids, FREE)
      {
        var pos :| At(t, pid, pos);
        assert pids[pos] == pid;
        WithoutHolds(pids, FREE, pid);
      }
      DistinctAmong(seen, Without(pids, FREE));
    }
  }

  // ---- what the table and the stream together account for ----

  /** Under cmd, what the stream says of pid and what still waits for it are what it said before and what has
      been taken from the buffers since; of all else the stream says what it did. */
  ghost predicate Accounts(before: seq<Byte>, stream: seq<Byte>, t: seq<Slot>, done: seq<Entry>, cmd: U32, c: nat, pid: nat)
    requires |before| % SIZE == 0 && |stream| % SIZE == 0
  {
    if c == cmd && pid != FREE
    then Says(stream, c, pid) + Pending(t, pid) == Says(before, c, pid) + Pcs(done, c, pid)
    else Says(stream, c, pid) == Says(before, c, pid)
  }

  ghost predicate AllAccounted(before: seq<Byte>, stream: seq<Byte>, t: seq<Slot>, done: seq<Entry>, cmd: U32) {
    && |before| % SIZE == 0 && |stream| % SIZE == 0
    && Table(t) && Holds(t, Seen(done))
    && forall c: nat, pid: nat :: Accounts(before, stream, t, done, cmd, c, pid)
  }

  /** A slot found or claimed for pid, empty if it was free. */
  ghost predicate Claimed(t: seq<Slot>, t': seq<Slot>, pid: U32, pos: nat) {
    && Table(t) && Table(t') && pos < SLOTS
    && (Used(t, pos) ==> t[pos].pid == pid && t' == t)
    && (!Used(t, pos) ==> t' == t[pos := Slot(pid, [])] && (pid != FREE ==> !Present(t, pid)))
  }

  lemma ClaimedPending(t: seq<Slot>, t': seq<Slot>, pid: U32, pos: nat, p: int)
    requires Claimed(t, t', pid, pos) && p != FREE
    ensures Present(t', p) <==> Present(t, p) || p == pid
    ensures Pending(t', p) == Pending(t, p)
  {
    if !Used(t, pos) {
      assert At(t', pid, pos);
      assert forall q :: q != pos ==> (At(t', p, q) <==> At(t, p, q));
      assert !At(t, p, pos);
      if Present(t, p) {
        var q := Where(t, p);
        assert At(t', p, q);
        PendingAt(t', p, q);
      } else if p == pid {
        PendingAt(t', p, pos);
      } else {
        assert forall q :: !At(t', p, q);
      }
    } else {
      assert At(t, pid, pos);
    }
  }

  /** One more PC in the slot claimed for its pid. */
  function Stashed(t: seq<Slot>, pos: nat, ip: U64): seq<Slot>
    requires pos < |t|
  {
    t[pos := Slot(t[pos].pid, t[pos].pcs + [ip])]
  }

  lemma StashedPending(t: seq<Slot>, pos: nat, ip: U64, p: int)
    requires Table(t) && pos < SLOTS && p != FREE
    ensures Present(Stashed(t, pos, ip), p) <==> Present(t, p)
    ensures Pending(Stashed(t, pos, ip), p) == Pending(t, p) + (if p == t[pos].pid then [ip] else [])
  {
    var t' := Stashed(t, pos, ip);
    PcsKeepTable(t, pos, t[pos].pcs + [ip]);
    if Present(t, p) {
      var q := Where(t, p);
      assert At(t', p, q);
      PendingAt(t', p, q);
      assert Used(t, q);
      assert p == t[pos].pid ==> q == pos by {
        assert p == t[pos].pid ==> Used(t, pos);
      }
    } else {
      assert !At(t, p, pos);
    }
  }

  /** The records that a flush writes for a slot. */
  function Chunk(cmd: U32, slot: Slot): seq<Entry> { seq(|slot.pcs|, i requires 0 <= i < |slot.pcs| => Entry(cmd, slot.pid, slot.pcs[i])) }

  lemma {:induction false} ChunkPcs(cmd: U32, slot: Slot, c: nat, pid: nat)
    ensures Pcs(Chunk(cmd, slot), c, pid) == if c == cmd && pid == slot.pid then slot.pcs else []
    decreases |slot.pcs|
  {
    if slot.pcs != [] {
      var n := |slot.pcs| - 1;
      var less := Slot(slot.pid, slot.pcs[..n]);
      assert Chunk(cmd, slot)[..n] == Chunk(cmd, less);
      ChunkPcs(cmd, less, c, pid);
      assert slot.pcs == slot.pcs[..n] + [slot.pcs[n]];
    }
  }

  lemma FlushAccounts(before: seq<Byte>, stream: seq<Byte>, t: seq<Slot>, done: seq<Entry>, cmd: U32, pos: nat)
    requires AllAccounted(before, stream, t, done, cmd) && pos < SLOTS && Used(t, pos)
    ensures AllAccounted(before, stream + AllBytes(Chunk(cmd, t[pos])), t[pos := Slot(t[pos].pid, [])], done, cmd)
  {
    var es := Chunk(cmd, t[pos]);
    var stream', t' := stream + AllBytes(es), t[pos := Slot(t[pos].pid, [])];
    PcsKeepTable(t, pos, []);
    StillWhole(stream, es);
    forall c: nat, pid: nat
      ensures Accounts(before, stream', t', done, cmd, c, pid)
    {
      assert Accounts(before, stream, t, done, cmd, c, pid);
      WriteAdds(stream, es, c, pid);
      ChunkPcs(cmd, t[pos], c, pid);
      FlushedPending(t, pos, pid);
    }
  }

  lemma FlushedPending(t: seq<Slot>, pos: nat, p: int)
    requires Table(t) && pos < SLOTS && Used(t, pos)
    ensures p != FREE ==> Pending(t[pos := Slot(t[pos].pid, [])], p) == if p == t[pos].pid then [] else Pending(t, p)
    ensures Pending(t, t[pos].pid) == t[pos].pcs
  {
    var t' := t[pos := Slot(t[pos].pid, [])];
    PcsKeepTable(t, pos, []);
    assert At(t, t[pos].pid, pos) && At(t', t[pos].pid, pos);
    PendingAt(t, t[pos].pid, pos);
    PendingAt(t', t[pos].pid, pos);
    if p != FREE && p != t[pos].pid && Present(t, p) {
      var q := Where(t, p);
      assert At(t', p, q);
      PendingAt(t', p, q);
    }
  }

  lemma BothGrow(a: seq<nat>, b: seq<nat>, c: seq<nat>, d: seq<nat>, x: seq<nat>)
    requires a + b == c + d
    ensures a + (b + x) == c + (d + x)
  {
    assert a + (b + x) == (a + b) + x;
    assert c + (d + x) == (c + d) + x;
  }

  lemma StashHolds(t: seq<Slot>, t1: seq<Slot>, done: seq<Entry>, e: Entry, pos: nat)
    requires Holds(t, Seen(done)) && Claimed(t, t1, e.pid, pos)
    ensures Table(Stashed(t1, pos, e.ip)) && Holds(Stashed(t1, pos, e.ip), Seen(done + [e]))
  {
    var t2, done' := Stashed(t1, pos, e.ip), done + [e];
    assert done'[..|done'| - 1] == done;
    PcsKeepTable(t1, pos, t1[pos].pcs + [e.ip]);
    forall pid
      ensures pid in Seen(done') <==> pid != FREE && Present(t2, pid)
    {
      if pid != FREE {
        ClaimedPending(t, t1, e.pid, pos, pid);
        StashedPending(t1, pos, e.ip, pid);
      }
    }
  }

  lemma StashAccountsOne(before: seq<Byte>, stream: seq<Byte>, t: seq<Slot>, t1: seq<Slot>, done: seq<Entry>, e: Entry, pos: nat, c: nat, pid: nat)
    requires |before| % SIZE == 0 && |stream| % SIZE == 0
    requires Accounts(before, stream, t, done, e.cmd, c, pid) && Claimed(t, t1, e.pid, pos)
    ensures Accounts(before, stream, Stashed(t1, pos, e.ip), done + [e], e.cmd, c, pid)
  {
    if c == e.cmd && pid != FREE {
      ClaimedPending(t, t1, e.pid, pos, pid);
      StashedPending(t1, pos, e.ip, pid);
      assert (done + [e])[..|done + [e]| - 1] == done;
      BothGrow(Says(stream, c, pid), Pending(t, pid), Says(before, c, pid), Pcs(done, c, pid), if pid == e.pid then [e.ip] else []);
      assert pid == e.pid || e.pid == FREE || t1[pos].pid != pid;
    }
  }

  lemma StashAccounts(before: seq<Byte>, stream: seq<Byte>, t: seq<Slot>, t1: seq<Slot>, done: seq<Entry>, e: Entry, pos: nat)
    requires AllAccounted(before, stream, t, done, e.cmd) && Claimed(t, t1, e.pid, pos)
    ensures AllAccounted(before, stream, Stashed(t1, pos, e.ip), done + [e], e.cmd)
  {
    StashHolds(t, t1, done, e, pos);
    forall c: nat, pid: nat
      ensures Accounts(before, stream, Stashed(t1, pos, e.ip), done + [e], e.cmd, c, pid)
    {
      StashAccountsOne(before, stream, t, t1, done, e, pos, c, pid);
    }
  }

  // ---- which buffers can be dumped ----

  /** Every CPU's buffer, CPU 0's first. */
  function Flat(buffers: seq<seq<Entry>>): seq<Entry> {
    if buffers == [] then [] else Flat(buffers[..|buffers| - 1]) + buffers[|buffers| - 1]
  }

  /** Entry k belongs to the command, and its pid has a slot or finds a free one. */
  predicate EntryFits(es: seq<Entry>, k: nat, cmd: U32)
    requires k < |es|
  {
    es[k].cmd == cmd && (es[k].pid in Seen(es[..k]) || |Seen(es[..k])| < SLOTS)
  }

  predicate Dumpable(es: seq<Entry>, cmd: U32) { forall k :: 0 <= k < |es| ==> EntryFits(es, k, cmd) }

  lemma {:induction false} FlatStep(buffers: seq<seq<Entry>>, cpu: nat, i: nat)
    requires cpu < |buffers| && i <= |buffers[cpu]|
    ensures var done := Flat(buffers[..cpu]) + buffers[cpu][..i];
      |done| <= |Flat(buffers)| && done == Flat(buffers)[..|done|]
      && (i < |buffers[cpu]| ==> |done| < |Flat(buffers)| && Flat(buffers)[|done|] == buffers[cpu][i])
    decreases |buffers|
  {
    var n := |buffers| - 1;
    if cpu < n {
      FlatStep(buffers[..n], cpu, i);
      assert buffers[..n][..cpu] == buffers[..cpu];
    }
  }

  predicate FitsUpTo(es: seq<Entry>, n: nat, cmd: U32) {
    n <= |es| && forall k :: 0 <= k < n ==> EntryFits(es, k, cmd)
  }

  lemma FitsMore(buffers: seq<seq<Entry>>, cpu: nat, i: nat, cmd: U32)
    requires cpu < |buffers| && i < |buffers[cpu]|
    requires FitsUpTo(Flat(buffers), |Flat(buffers[..cpu])| + i, cmd)
    ensures var done, e := Flat(buffers[..cpu]) + buffers[cpu][..i], buffers[cpu][i];
      var fits := e.cmd == cmd && (e.pid in Seen(done) || |Seen(done)| < SLOTS);
      if fits then FitsUpTo(Flat(buffers), |done| + 1, cmd) else !Dumpable(Flat(buffers), cmd)
  {
    FlatStep(buffers, cpu, i);
    var n := |Flat(buffers[..cpu])| + i;
    assert EntryFits(Flat(buffers), n, cmd) || !EntryFits(Flat(buffers), n, cmd);
  }

  /** What a dump adds to what the stream says of a command and a pid. */
  ghost predicate Dumped(before: seq<Byte>, after: seq<Byte>, flat: seq<Entry>, cmdId: U32, cmd: nat, pid: nat) {
    && |before| % SIZE == 0 && |after| % SIZE == 0
    && Says(after, cmd, pid) == Says(before, cmd, pid) + (if cmd == cmdId && pid != FREE then Pcs(flat, cmd, pid) else [])
  }

  ghost predicate DumpedAll(before: seq<Byte>, after: seq<Byte>, flat: seq<Entry>, cmdId: U32) {
    forall cmd: nat, pid: nat :: Dumped(before, after, flat, cmdId, cmd, pid)
  }

  /** Buffers with as many distinct pids as there are slots, or fewer, always have room. */
  lemma {:induction false} FewPidsFit(es: seq<Entry>, cmd: U32)
    requires |Seen(es)| <= SLOTS && forall k :: 0 <= k < |es| ==> es[k].cmd == cmd && es[k].pid != FREE
    ensures Dumpable(es, cmd)
    decreases |es|
  {
    if es != [] {
      var n := |es| - 1;
      FewPidsFit(es[..n], cmd);
      forall k | 0 <= k < |es|
        ensures EntryFits(es, k, cmd)
      {
        if k < n {
          assert EntryFits(es[..n], k, cmd);
          assert es[..n][..k] == es[..k];
        }
      }
    }
  }

  lemma EmptyTable(t: seq<Slot>, before: seq<Byte>, cmd: U32)
    requires |t| == SLOTS && |before| % SIZE == 0 && forall pos :: 0 <= pos < SLOTS ==> t[pos] == Slot(FREE, [])
    ensures AllAccounted(before, before, t, [], cmd) && Roomy(t)
  {
    assert forall pos :: !Used(t, pos);
    forall pid | pid != FREE
      ensures !Present(t, pid)
    {
      assert forall pos :: !At(t, pid, pos);
    }
  }

  // ---- the dump itself ----

  datatype Mode = Disabled | Enabled | EnabledWithController

  class Coverage {
    const slots: array<Slot>
    var buffers: seq<seq<Entry>>
    var cmdId: U32
    var mode: Mode
    var stream: seq<Byte>

    /** Between commands: an empty table, and nothing buffered that another command left. */
    ghost predicate Valid()
      reads this, slots
    {
      && slots.Length == SLOTS && |stream| % SIZE == 0
      && (forall pos :: 0 <= pos < SLOTS ==> slots[pos] == Slot(FREE, []))
      && (forall cpu, k :: 0 <= cpu < |buffers| && 0 <= k < |buffers[cpu]| ==> buffers[cpu][k].cmd == cmdId)
    }

    constructor (cpus: nat)
      ensures Valid() && stream == [] && cmdId == 0 && mode == Disabled && fresh(slots)
      ensures buffers == seq(cpus, _ => [])
    {
      slots := new Slot[SLOTS](_ => Slot(FREE, []));
      buffers := seq(cpus, _ => []);
      cmdId, mode, stream := 0, Disabled, [];
    }

    /** kstep_cov_record; false where it panics because the CPU's buffer is full. */
    method Record(cpu: nat, pid: U32, ip: U64) returns (ok: bool)
      requires Valid() && cpu < |buffers|
      modifies this`buffers
      ensures Valid()
      ensures ok == (old(Ignored(cpu, pid)) || old(|buffers[cpu]|) < BUFFER)
      ensures buffers == if ok && !old(Ignored(cpu, pid)) then old(buffers[cpu := buffers[cpu] + [Entry(cmdId, pid, ip)]]) else old(buffers)
    {
      if mode == Disabled || (cpu == 0 && (pid != 1 || mode != EnabledWithController)) {
        return true;
      }
      if |buffers[cpu]| >= BUFFER {
        return false;
      }
      buffers := buffers[cpu := buffers[cpu] + [Entry(cmdId, pid, ip)]];
      ok := true;
    }

    predicate Ignored(cpu: nat, pid: U32)
      reads this
    {
      match mode
      case Disabled => true
      case Enabled => cpu == 0
      case EnabledWithController => cpu == 0 && pid != 1
    }

    /** get_slot_by_pid; false where it panics. */
    method GetSlot(pid: U32) returns (ok: bool, pos: nat)
      requires slots.Length == SLOTS && Table(slots[..])
      modifies slots
      ensures ok ==> Claimed(old(slots[..]), slots[..], pid, pos)
      ensures !ok ==> slots[..] == old(slots[..]) && Full(slots[..]) && !Present(slots[..], pid)
    {
      ghost var t := slots[..];
      for i := 0 to SLOTS
        invariant slots[..] == t
        invariant forall j :: 0 <= j < i ==> Used(t, Probe(pid, j)) && t[Probe(pid, j)].pid != pid
      {
        pos := Probe(pid, i);
        if slots[pos].pid == FREE {
          if pid != FREE {
            FreeMeansAbsent(t, pid, i);
            ClaimKeepsTable(t, pid, i);
          } else {
            PcsKeepTable(t, pos, []);
          }
          slots[pos] := Slot(pid, []);
          assert slots[..] == t[pos := Slot(pid, [])];
          return true, pos;
        }
        if slots[pos].pid == pid {
          return true, pos;
        }
      }
      AllProbed(t, pid);
      return false, 0;
    }

    method Flush(pos: nat, ghost before: seq<Byte>, ghost done: seq<Entry>)
      requires slots.Length == SLOTS && pos < SLOTS && Used(slots[..], pos)
      requires AllAccounted(before, stream, slots[..], done, cmdId)
      modifies slots, this`stream
      ensures AllAccounted(before, stream, slots[..], done, cmdId)
      ensures slots[..] == old(slots[..])[pos := Slot(old(slots[pos].pid), [])]
    {
      FlushAccounts(before, stream, slots[..], done, cmdId, pos);
      if slots[pos].pcs == [] {
        assert slots[..] == slots[..][pos := Slot(slots[pos].pid, [])];
        return;
      }
      stream := stream + AllBytes(Chunk(cmdId, slots[pos]));
      slots[pos] := Slot(slots[pos].pid, []);
      assert slots[..] == old(slots[..])[pos := Slot(old(slots[pos].pid), [])];
    }

    /** One entry of a buffer; false where the dump panics at it. */
    method Gather(e: Entry, ghost before: seq<Byte>, ghost done: seq<Entry>) returns (ok: bool)
      requires slots.Length == SLOTS && Roomy(slots[..])
      requires AllAccounted(before, stream, slots[..], done, cmdId)
      modifies slots, this`stream
      ensures ok <==> e.cmd == cmdId && (e.pid in Seen(done) || |Seen(done)| < SLOTS)
      ensures ok ==> AllAccounted(before, stream, slots[..], done + [e], cmdId) && Roomy(slots[..])
    {
      if e.cmd != cmdId {
        return false;
      }
      ghost var t := slots[..];
      SeenIsDistinct(done);
      FullExactly(t, Seen(done));
      var pos;
      ok, pos := GetSlot(e.pid);
      if !ok {
        return;
      }
      assert e.pid in Seen(done) || |Seen(done)| < SLOTS by {
        if e.pid !in Seen(done) {
          FoundMeansRoom(t, slots[..], e.pid, pos);
        }
      }
      StashAccounts(before, stream, t, slots[..], done, e, pos);
      ghost var t1 := slots[..];
      slots[pos] := Slot(slots[pos].pid, slots[pos].pcs + [e.ip]);
      assert slots[..] == Stashed(t1, pos, e.ip);
      if |slots[pos].pcs| == CHUNK {
        ClaimedRoom(t, t1, e.pid, pos);
        Flush(pos, before, done + [e]);
      }
    }

    /** kstep_cov_dump; false where it panics. What has been buffered is then in the stream, each pid's PCs
        once and in CPU-then-time order, and the table and the buffers are ready for the next command. */
    method Dump() returns (ok: bool)
      requires Valid()
      modifies slots, this`stream, this`buffers
      ensures ok <==> Dumpable(Flat(old(buffers)), cmdId)
      ensures ok ==> Valid() && buffers == seq(|old(buffers)|, _ => [])
      ensures ok ==> DumpedAll(old(stream), stream, Flat(old(buffers)), cmdId)
    {
      ghost var before, flat := stream, Flat(buffers);
      EmptyTable(slots[..], before, cmdId);
      ghost var done: seq<Entry> := [];
      for cpu := 0 to |buffers|
        invariant buffers == old(buffers)
        invariant done == Flat(buffers[..cpu]) && FitsUpTo(flat, |done|, cmdId)
        invariant AllAccounted(before, stream, slots[..], done, cmdId) && Roomy(slots[..])
      {
        ok, done := GatherCpu(cpu, before, done);
        if !ok {
          return;
        }
        assert buffers[..cpu + 1][..cpu] == buffers[..cpu];
      }
      assert buffers[..|buffers|] == buffers;
      FlushAll(before, done);
      Reset(before, done);
      ok := true;
    }

    method GatherCpu(cpu: nat, ghost before: seq<Byte>, ghost start: seq<Entry>) returns (ok: bool, ghost done: seq<Entry>)
      requires slots.Length == SLOTS && cpu < |buffers| && start == Flat(buffers[..cpu])
      requires Roomy(slots[..]) && AllAccounted(before, stream, slots[..], start, cmdId)
      requires FitsUpTo(Flat(buffers), |start|, cmdId)
      modifies slots, this`stream
      ensures ok ==> done == start + buffers[cpu] && FitsUpTo(Flat(buffers), |done|, cmdId)
      ensures ok ==> Roomy(slots[..]) && AllAccounted(before, stream, slots[..], done, cmdId)
      ensures !ok ==> !Dumpable(Flat(buffers), cmdId)
    {
      done := start;
      for i := 0 to |buffers[cpu]|
        invariant done == start + buffers[cpu][..i] && FitsUpTo(Flat(buffers), |done|, cmdId)
        invariant AllAccounted(before, stream, slots[..], done, cmdId) && Roomy(slots[..])
      {
        FitsMore(buffers, cpu, i, cmdId);
        ok := Gather(buffers[cpu][i], before, done);
        if !ok {
          return;
        }
        assert done + [buffers[cpu][i]] == start + buffers[cpu][..i + 1];
        done := done + [buffers[cpu][i]];
      }
      assert buffers[cpu][..|buffers[cpu]|] == buffers[cpu];
      ok := true;
    }

    method FlushAll(ghost before: seq<Byte>, ghost done: seq<Entry>)
      requires slots.Length == SLOTS && AllAccounted(before, stream, slots[..], done, cmdId)
      modifies slots, this`stream
      ensures AllAccounted(before, stream, slots[..], done, cmdId)
      ensures forall pos :: 0 <= pos < SLOTS && Used(slots[..], pos) ==> slots[pos].pcs == []
    {
      for pos := 0 to SLOTS
        invariant AllAccounted(before, stream, slots[..], done, cmdId)
        invariant forall p :: 0 <= p < pos && Used(slots[..], p) ==> slots[p].pcs == []
      {
        if slots[pos].pid != FREE {
          Flush(pos, before, done);
        }
      }
    }

    method Reset(ghost before: seq<Byte>, ghost done: seq<Entry>)
      requires slots.Length == SLOTS && AllAccounted(before, stream, slots[..], done, cmdId)
      requires forall pos :: 0 <= pos < SLOTS && Used(slots[..], pos) ==> slots[pos].pcs == []
      modifies slots, this`buffers
      ensures Valid() && buffers == seq(|old(buffers)|, _ => [])
      ensures DumpedAll(before, stream, done, cmdId)
    {
      ghost var t := slots[..];
      forall cmd: nat, pid: nat
        ensures Dumped(before, stream, done, cmdId, cmd, pid)
      {
        assert Accounts(before, stream, t, done, cmdId, cmd, pid);
        assert pid != FREE && Present(t, pid) ==> Used(t, Where(t, pid));
      }
      for pos := 0 to SLOTS
        invariant buffers == old(buffers)
        invariant forall p :: 0 <= p < pos ==> slots[p] == Slot(FREE, [])
      {
        slots[pos] := Slot(FREE, []);
      }
      buffers := seq(|buffers|, _ => []);
    }

    /** kstep_cov_cmd_id_inc, once the buffers have been dumped. */
    method NextCommand()
      requires Valid() && forall cpu :: 0 <= cpu < |buffers| ==> buffers[cpu] == []
      modifies this`cmdId
      ensures Valid() && cmdId == (old(cmdId) + 1) % 0x1_0000_0000
    {
      cmdId := (cmdId + 1) % 0x1_0000_0000;
    }
  }

  lemma FoundMeansRoom(t: seq<Slot>, t1: seq<Slot>, pid: U32, pos: nat)
    requires Claimed(t, t1, pid, pos) && (pid == FREE || !Present(t, pid))
    ensures !Full(t)
  {
    if Used(t, pos) {
      assert At(t, pid, pos);
    }
  }

  /** A chunk fills up only under a pid of its own. */
  lemma ClaimedRoom(t: seq<Slot>, t1: seq<Slot>, pid: U32, pos: nat)
    requires Claimed(t, t1, pid, pos) && Roomy(t) && |t1[pos].pcs| + 1 == CHUNK
    ensures Used(t1, pos)
  {}

  /** One stream, dumped into command after command, each with buffers and an id of its own. */
  ghost predicate DumpRun(streams: seq<seq<Byte>>, flats: seq<seq<Entry>>, cmds: seq<U32>) {
    && |streams| == |flats| + 1 == |cmds| + 1 && streams[0] == []
    && (forall i, j :: 0 <= i < j < |cmds| ==> cmds[i] != cmds[j])
    && forall i :: 0 <= i < |cmds| ==> DumpedAll(streams[i], streams[i + 1], flats[i], cmds[i])
  }

  /** Of the stream that a run leaves, the parser gives under each command and pid exactly that pid's PCs. */
  lemma {:induction false} RunReadsBack(streams: seq<seq<Byte>>, flats: seq<seq<Entry>>, cmds: seq<U32>, i: nat, n: nat, pid: nat)
    requires DumpRun(streams, flats, cmds) && i < |cmds| && n <= |cmds| && pid != FREE
    ensures |streams[n]| % SIZE == 0 && Says(streams[n], cmds[i], pid) == if i < n then Pcs(flats[i], cmds[i], pid) else []
    decreases n
  {
    if n > 0 {
      RunReadsBack(streams, flats, cmds, i, n - 1, pid);
      assert DumpedAll(streams[n - 1], streams[n], flats[n - 1], cmds[n - 1]);
      assert Dumped(streams[n - 1], streams[n], flats[n - 1], cmds[n - 1], cmds[i], pid);
    }
  }

  /** A pid that looks like a free slot loses all its PCs, whatever else is dumped. */
  lemma {:induction false} FreePidIsLost(streams: seq<seq<Byte>>, flats: seq<seq<Entry>>, cmds: seq<U32>, n: nat, c: nat)
    requires DumpRun(streams, flats, cmds) && n <= |cmds|
    ensures |streams[n]| % SIZE == 0 && Says(streams[n], c, FREE) == []
    decreases n
  {
    if n > 0 {
      FreePidIsLost(streams, flats, cmds, n - 1, c);
      assert DumpedAll(streams[n - 1], streams[n], flats[n - 1], cmds[n - 1]);
      assert Dumped(streams[n - 1], streams[n], flats[n - 1], cmds[n - 1], c, FREE);
    }
  }
}
