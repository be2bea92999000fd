/** The old fuzzer's state report: the frame that the executor writes after every operation
    (docs/archive/old_fuzzer/kmod/handler.c) and the host's reader (docs/archive/old_fuzzer/scripts/fuzz_worker.py).
    It is how the generator learns which tasks are live. */
module Report {
  import opened Records
  import opened Ring

  type Bytes = seq<Byte>

  const START: Byte := 17   // OP_TYPE_NR
  const SHIFT := 11         // so that no id is a newline
  const NEWLINE: Byte := 10

  /** Live tasks and their states: 0 blocked, 1 runnable, 2 on a CPU. */
  type Tasks = seq<Option<nat>>

  datatype Seen = Seen(id: int, state: nat)

  predicate States(tasks: Tasks) { forall i :: 0 <= i < |tasks| && tasks[i].Some? ==> tasks[i].value <= 2 }

  // ---- the writer ----

  function Low(x: nat): Byte { x % 256 }

  function Entry(id: nat, state: Option<nat>): Bytes
    requires state.Some? ==> state.value <= 2
  {
    if state.Some? then [Low(Low(id) + SHIFT), state.value] else []
  }

  function Body(tasks: Tasks): Bytes
    requires States(tasks)
  {
    if tasks == [] then []
    else
      var n := |tasks| - 1;
      Body(tasks[..n]) + Entry(n, tasks[n])
  }

  function Frame(steps: Byte, tasks: Tasks): Bytes
    requires States(tasks)
  {
    [START, Low(steps + SHIFT)] + Body(tasks) + [0, NEWLINE]
  }

  /** kstep_write_state. */
  method WriteState(steps: Byte, tasks: Tasks) returns (buf: Bytes)
    requires States(tasks)
    ensures buf == Frame(steps, tasks)
  {
    buf := [START, Low(steps + SHIFT)];
    ghost var start := buf;
    for i := 0 to |tasks|
      invariant buf == start + Body(tasks[..i])
    {
      assert tasks[..i + 1][..i] == tasks[..i];
      assert start + (Body(tasks[..i]) + Entry(i, tasks[i])) == start + Body(tasks[..i]) + Entry(i, tasks[i]);
      if tasks[i].None? {
        continue;
      }
      buf := buf + [Low(Low(i) + SHIFT), tasks[i].value];
    }
    assert tasks[..|tasks|] == tasks;
    buf := buf + [0, NEWLINE];
  }

  // ---- the reader ----

  datatype State = State(steps: int, tasks: seq<Seen>)

  /** The bytes up to the first newline, and it. */
  function FirstLine(s: Bytes): Option<Bytes> {
    if s == [] then None
    else if s[0] == NEWLINE then Some([NEWLINE])
    else
      var rest := FirstLine(s[1..]);
      if rest.None? then None else Some([s[0]] + rest.value)
  }

  /** The pairs from cursor on, when they end in a zero that is the last byte. */
  function Pairs(s: Bytes, cursor: nat): Option<seq<Seen>>
    requires cursor <= |s|
    decreases |s| - cursor
  {
    if cursor == |s| then None
    else if s[cursor] == 0 then if cursor == |s| - 1 then Some([]) else None
    else if cursor + 1 == |s| then None
    else
      var rest := Pairs(s, cursor + 2);
      if rest.None? then None else Some([Seen(s[cursor] - SHIFT, s[cursor + 1])] + rest.value)
  }

  /** read_kmod_state, of the first frame of a stream; None where it reads on for another. */
  function ReadState(s: Bytes): Option<State> {
    var line := FirstLine(s);
    if line.None? || line.value[0] != START || |line.value| < 4 || line.value[1] < SHIFT then None
    else
      var payload := line.value[1..|line.value| - 1];
      var tasks := Pairs(payload, 1);
      if tasks.None? then None else Some(State(payload[0] - SHIFT, tasks.value))
  }

  // ---- what is read is what is live ----

  function Live(tasks: Tasks): seq<Seen> {
    if tasks == [] then []
    else
      var n := |tasks| - 1;
      Live(tasks[..n]) + (if tasks[n].Some? then [Seen(n, tasks[n].value)] else [])
  }

  /** The ids that a shifted byte can say. */
  predicate Sayable(tasks: Tasks) { forall i :: 0 <= i < |tasks| && tasks[i].Some? ==> i < 256 - SHIFT }

  /** Pairs of a shifted id and a state: no newline anywhere, no zero where an id is due. */
  predicate Paired(s: Bytes) {
    |s| % 2 == 0 && forall i :: 0 <= i < |s| ==> s[i] != NEWLINE && (i % 2 == 0 ==> s[i] >= SHIFT)
  }

  lemma PairedOfBoth(a: Bytes, b: Bytes)
    requires Paired(a) && Paired(b)
    ensures Paired(a + b)
  {
    forall i | 0 <= i < |a + b|
      ensures (a + b)[i] != NEWLINE && (i % 2 == 0 ==> (a + b)[i] >= SHIFT)
    {
      if i >= |a| {
        assert (a + b)[i] == b[i - |a|];
      }
    }
  }

  lemma {:induction false} BodyIsPaired(tasks: Tasks)
    requires States(tasks) && Sayable(tasks)
    ensures Paired(Body(tasks))
    decreases |tasks|
  {
    if tasks != [] {
      var n := |tasks| - 1;
      BodyIsPaired(tasks[..n]);
      assert Paired(Entry(n, tasks[n]));
      PairedOfBoth(Body(tasks[..n]), Entry(n, tasks[n]));
    }
  }

  lemma {:induction false} LineEnds(s: Bytes, more: Bytes)
    requires NEWLINE !in s
    ensures FirstLine(s + [NEWLINE] + more) == Some(s + [NEWLINE])
    decreases |s|
  {
    if s != [] {
      assert s[0] in s && forall b :: b in s[1..] ==> b in s;
      LineEnds(s[1..], more);
      assert (s + [NEWLINE] + more)[1..] == s[1..] + [NEWLINE] + more;
      assert [s[0]] + (s[1..] + [NEWLINE]) == s + [NEWLINE];
    } else {
      assert s + [NEWLINE] + more == [NEWLINE] + more;
      assert s + [NEWLINE] == [NEWLINE];
    }
  }

  function Decoded(body: Bytes): seq<Seen>
    requires |body| % 2 == 0
  {
    if body == [] then [] else [Seen(body[0] - SHIFT, body[1])] + Decoded(body[2..])
  }

  lemma {:induction false} PairsAre(s: Bytes, cursor: nat, body: Bytes)
    requires |body| % 2 == 0 && cursor + |body| + 1 == |s| && s[cursor..] == body + [0]
    requires forall i :: 0 <= i < |body| && i % 2 == 0 ==> body[i] >= SHIFT
    ensures Pairs(s, cursor) == Some(Decoded(body))
    decreases |body|
  {
    assert s[cursor] == s[cursor..][0];
    if body != [] {
      assert s[cursor + 1] == s[cursor..][1];
      assert s[cursor + 2..] == s[cursor..][2..] == body[2..] + [0];
      PairsAre(s, cursor + 2, body[2..]);
    }
  }

  lemma {:induction false} DecodedOfBoth(a: Bytes, b: Bytes)
    requires |a| % 2 == 0 && |b| % 2 == 0
    ensures Decoded(a + b) == Decoded(a) + Decoded(b)
    decreases |a|
  {
    if a == [] {
      assert a + b == b;
    } else {
      DecodedOfBoth(a[2..], b);
      assert (a + b)[2..] == a[2..] + b;
      assert [Seen(a[0] - SHIFT, a[1])] + (Decoded(a[2..]) + Decoded(b)) == [Seen(a[0] - SHIFT, a[1])] + Decoded(a[2..]) + Decoded(b);
    }
  }

  lemma EntryDecodes(id: nat, state: Option<nat>)
    requires (state.Some? ==> state.value <= 2) && (state.Some? ==> id < 256 - SHIFT)
    ensures |Entry(id, state)| % 2 == 0
    ensures Decoded(Entry(id, state)) == if state.Some? then [Seen(id, state.value)] else []
  {
    if state.Some? {
      assert Low(Low(id) + SHIFT) == id + SHIFT;
      assert Entry(id, state)[2..] == [];
    }
  }

  lemma {:induction false} BodyDecodes(tasks: Tasks)
    requires States(tasks) && Sayable(tasks)
    ensures |Body(tasks)| % 2 == 0 && Decoded(Body(tasks)) == Live(tasks)
    decreases |tasks|
  {
    if tasks != [] {
      var n := |tasks| - 1;
      BodyDecodes(tasks[..n]);
      EntryDecodes(n, tasks[n]);
      DecodedOfBoth(Body(tasks[..n]), Entry(n, tasks[n]));
    }
  }

  lemma ReportReadsBack(steps: Byte, tasks: Tasks, more: Bytes)
    requires States(tasks) && Sayable(tasks) && steps < 256 - SHIFT
    ensures ReadState(Frame(steps, tasks) + more) == Some(State(steps, Live(tasks)))
  {
    var body := Body(tasks);
    BodyIsPaired(tasks);
    BodyDecodes(tasks);
    var line := [START, Low(steps + SHIFT)] + body + [0];
    assert Frame(steps, tasks) + more == line + [NEWLINE] + more;
    LineEnds(line, more);
    var payload := (line + [NEWLINE])[1..|line|];
    assert payload[1..] == body + [0];
    PairsAre(payload, 1, body);
  }

  lemma {:induction false} ReadIdsAreSmall(s: Bytes, cursor: nat)
    requires cursor <= |s| && Pairs(s, cursor).Some?
    ensures forall i :: 0 <= i < |Pairs(s, cursor).value| ==> Pairs(s, cursor).value[i].id < 256 - SHIFT
    decreases |s| - cursor
  {
    if s[cursor] != 0 {
      ReadIdsAreSmall(s, cursor + 2);
    }
  }

  lemma {:induction false} LiveHolds(tasks: Tasks, t: nat)
    requires t < |tasks| && tasks[t].Some?
    ensures exists i :: 0 <= i < |Live(tasks)| && Live(tasks)[i].id == t
    decreases |tasks|
  {
    var n := |tasks| - 1;
    if t < n {
      LiveHolds(tasks[..n], t);
      var i :| 0 <= i < |Live(tasks[..n])| && Live(tasks[..n])[i].id == t;
      assert Live(tasks)[i].id == t;
    } else {
      assert Live(tasks)[|Live(tasks[..n])|].id == t;
    }
  }

  /** The host learns the live tasks exactly when none has an id that a shifted byte cannot say: ids from
      245 up, of the 1024 that the executor has room for, are read as others or end the report. */
  lemma ReportIsTrueExactly(steps: Byte, tasks: Tasks, more: Bytes)
    requires States(tasks) && steps < 256 - SHIFT
    ensures ReadState(Frame(steps, tasks) + more) == Some(State(steps, Live(tasks))) <==> Sayable(tasks)
  {
    var s := Frame(steps, tasks) + more;
    if Sayable(tasks) {
      ReportReadsBack(steps, tasks, more);
    } else if ReadState(s) == Some(State(steps, Live(tasks))) {
      var t :| 0 <= t < |tasks| && tasks[t].Some? && t >= 256 - SHIFT;
      LiveHolds(tasks, t);
      var line := FirstLine(s).value;
      ReadIdsAreSmall(line[1..|line| - 1], 1);
      assert false;
    }
  }
}
