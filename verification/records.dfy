/** The coverage stream of the old fuzzer: 16-byte records as the executor's module writes them, and the
    host's parser (docs/archive/old_fuzzer/scripts/cov.py) that regroups them by command and pid. */
module Records {

  type Byte = x: int | 0 <= x < 256
  type U32 = x: int | 0 <= x < 0x1_0000_0000
  type U64 = x: int | 0 <= x < 0x1_0000_0000_0000_0000

  datatype Entry = Entry(cmd: U32, pid: U32, ip: U64)

  const SIZE := 16

  // ---- little-endian numbers ----

  function Pow256(n: nat): (p: nat)
    ensures p > 0
  {
    if n == 0 then 1 else 256 * Pow256(n - 1)
  }

  function Little(v: nat, n: nat): (s: seq<Byte>)
    ensures |s| == n
    decreases v + n
  {
    if n == 0 then [] else [v % 256] + Little(v / 256, n - 1)
  }

  /** int.from_bytes(s, "little"). */
  function FromLittle(s: seq<Byte>): nat {
    if s == [] then 0 else s[0] + 256 * FromLittle(s[1..])
  }

  lemma {:induction false} LittleReadsBack(v: nat, n: nat)
    requires v < Pow256(n)
    ensures FromLittle(Little(v, n)) == v
    decreases n
  {
    if n > 0 {
      LittleReadsBack(v / 256, n - 1);
      assert Little(v, n)[1..] == Little(v / 256, n - 1);
    }
  }

  // ---- records ----

  function Bytes(e: Entry): (s: seq<Byte>)
    ensures |s| == SIZE
  {
    Little(e.cmd, 4) + Little(e.pid, 4) + Little(e.ip, 8)
  }

  function AllBytes(es: seq<Entry>): (s: seq<Byte>)
    ensures |s| == SIZE * |es|
  {
    if es == [] then [] else AllBytes(es[..|es| - 1]) + Bytes(es[|es| - 1])
  }

  /** A record as the host reads it: its numbers need no bound there. */
  datatype Record = Record(cmd: nat, pid: nat, ip: nat)

  function ReadRecord(s: seq<Byte>): Record
    requires |s| == SIZE
  {
    Record(FromLittle(s[..4]), FromLittle(s[4..8]), FromLittle(s[8..]))
  }

  function ReadAll(s: seq<Byte>): seq<Record>
    requires |s| % SIZE == 0
  {
    if s == [] then [] else ReadAll(s[..|s| - SIZE]) + [ReadRecord(s[|s| - SIZE..])]
  }

  function Same(e: Entry): Record { Record(e.cmd, e.pid, e.ip) }

  lemma RecordReadsBack(e: Entry)
    ensures ReadRecord(Bytes(e)) == Same(e)
  {
    assert Pow256(2) == 0x1_0000 && Pow256(4) == 0x1_0000_0000;
    assert Pow256(6) == 0x1_0000_0000_0000 && Pow256(8) == 0x1_0000_0000_0000_0000;
    LittleReadsBack(e.cmd, 4);
    LittleReadsBack(e.pid, 4);
    LittleReadsBack(e.ip, 8);
    assert Bytes(e)[..4] == Little(e.cmd, 4);
    assert Bytes(e)[4..8] == Little(e.pid, 4);
    assert Bytes(e)[8..] == Little(e.ip, 8);
  }

  // ---- regrouping ----

  /** The PCs of one command and pid, in the order of the stream. */
  function Of(rs: seq<Record>, cmd: nat, pid: nat): seq<nat> {
    if rs == [] then []
    else
      var last := rs[|rs| - 1];
      Of(rs[..|rs| - 1], cmd, pid) + (if last.cmd == cmd && last.pid == pid then [last.ip] else [])
  }

  /** What a stream says of one command and pid. */
  function Says(s: seq<Byte>, cmd: nat, pid: nat): seq<nat>
    requires |s| % SIZE == 0
  {
    Of(ReadAll(s), cmd, pid)
  }

  /** Writing one more record after a stream adds its PC to its own command and pid, and to no other. */
  lemma RecordAdds(s: seq<Byte>, e: Entry, cmd: nat, pid: nat)
    requires |s| % SIZE == 0
    ensures Says(s + Bytes(e), cmd, pid) == Says(s, cmd, pid) + (if e.cmd == cmd && e.pid == pid then [e.ip] else [])
  {
    RecordReadsBack(e);
    var s' := s + Bytes(e);
    assert s'[..|s'| - SIZE] == s && s'[|s'| - SIZE..] == Bytes(e);
    assert ReadAll(s')[..|ReadAll(s')| - 1] == ReadAll(s);
  }

  lemma StillWhole(s: seq<Byte>, es: seq<Entry>)
    requires |s| % SIZE == 0
    ensures |s + AllBytes(es)| % SIZE == 0
  {
    assert |s + AllBytes(es)| == |s| + SIZE * |es|;
  }

  lemma WriteEnds(s: seq<Byte>, es: seq<Entry>)
    requires es != []
    ensures s + AllBytes(es) == s + AllBytes(es[..|es| - 1]) + Bytes(es[|es| - 1])
  {
    Appended(s, AllBytes(es[..|es| - 1]), Bytes(es[|es| - 1]));
  }

  lemma Appended(a: seq<Byte>, b: seq<Byte>, c: seq<Byte>)
    ensures a + (b + c) == a + b + c
  {}

  /** And so does a whole write. */
  lemma {:induction false} WriteAdds(s: seq<Byte>, es: seq<Entry>, cmd: nat, pid: nat)
    requires |s| % SIZE == 0
    ensures |s + AllBytes(es)| % SIZE == 0
    ensures Says(s + AllBytes(es), cmd, pid) == Says(s, cmd, pid) + Pcs(es, cmd, pid)
  {
    StillWhole(s, es);
    if es == [] {
      assert s + AllBytes(es) == s;
    } else {
      var rest, last := es[..|es| - 1], es[|es| - 1];
      var one := if last.cmd == cmd && last.pid == pid then [last.ip] else [];
      WriteAdds(s, rest, cmd, pid);
      RecordAdds(s + AllBytes(rest), last, cmd, pid);
      WriteEnds(s, es);
      assert Says(s, cmd, pid) + Pcs(rest, cmd, pid) + one == Says(s, cmd, pid) + (Pcs(rest, cmd, pid) + one);
    }
  }

  function Pcs(es: seq<Entry>, cmd: nat, pid: nat): seq<nat> {
    if es == [] then []
    else
      var last := es[|es| - 1];
      Pcs(es[..|es| - 1], cmd, pid) + (if last.cmd == cmd && last.pid == pid then [last.ip] else [])
  }

  // ---- the parser ----

  type Groups = map<nat, map<nat, seq<nat>>>

  function Lookup(g: Groups, cmd: nat, pid: nat): seq<nat> {
    if cmd in g && pid in g[cmd] then g[cmd][pid] else []
  }

  datatype Parsed = Parsed(groups: Groups) | BadSize(size: nat)

  /** cov_parse: nothing is lost, moved to another pid, or reordered, whatever the bytes. */
  method CovParse(payload: seq<Byte>) returns (r: Parsed)
    ensures r.BadSize? <==> |payload| % SIZE != 0
    ensures r.Parsed? ==> forall cmd: nat, pid: nat :: Lookup(r.groups, cmd, pid) == Says(payload, cmd, pid)
  {
    if |payload| % SIZE != 0 {
      return BadSize(|payload|);
    }
    var records: Groups := map[];
    var i := 0;
    while i < |payload|
      invariant 0 <= i <= |payload| && i % SIZE == 0
      invariant forall cmd: nat, pid: nat :: Lookup(records, cmd, pid) == Says(payload[..i], cmd, pid)
    {
      var record := ReadRecord(payload[i..i + SIZE]);
      var group: map<nat, seq<nat>> := if record.cmd in records then records[record.cmd] else map[];
      var pcs: seq<nat> := if record.pid in group then group[record.pid] else [];
      ghost var before := records;
      records := records[record.cmd := group[record.pid := pcs + [record.ip]]];
      forall cmd: nat, pid: nat
        ensures Lookup(records, cmd, pid) == Says(payload[..i + SIZE], cmd, pid)
      {
        SaysGrows(payload, i, cmd, pid);
        LookupGrows(before, record, cmd, pid);
      }
      i := i + SIZE;
    }
    assert payload[..i] == payload;
    r := Parsed(records);
  }

  lemma LookupGrows(g: Groups, record: Record, cmd: nat, pid: nat)
    ensures
      var group: map<nat, seq<nat>> := if record.cmd in g then g[record.cmd] else map[];
      var pcs: seq<nat> := if record.pid in group then group[record.pid] else [];
      Lookup(g[record.cmd := group[record.pid := pcs + [record.ip]]], cmd, pid)
        == Lookup(g, cmd, pid) + (if record.cmd == cmd && record.pid == pid then [record.ip] else [])
  {}

  lemma SaysGrows(s: seq<Byte>, i: nat, cmd: nat, pid: nat)
    requires i % SIZE == 0 && i + SIZE <= |s|
    ensures var last := ReadRecord(s[i..i + SIZE]);
      Says(s[..i + SIZE], cmd, pid) == Says(s[..i], cmd, pid) + (if last.cmd == cmd && last.pid == pid then [last.ip] else [])
  {
    var t := s[..i + SIZE];
    assert t[..|t| - SIZE] == s[..i] && t[|t| - SIZE..] == s[i..i + SIZE];
    assert ReadAll(t)[..|ReadAll(t)| - 1] == ReadAll(s[..i]);
  }
}
