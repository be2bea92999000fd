/** The fuzzer's bytes-to-lines decoder (crates/fuzz/src/main.rs) against the cli's argument checks. */
module FuzzDecode {
  import opened CliArgs
  import opened Digits
  import opened Lists
  import opened Ring
  import opened Text

  const MAX_RECORDS := 64
  const MAX_TASKS := 64   // KSTEP_SHM_TASKS
  const MAX_CPUS := 32    // KSTEP_SHM_CPUS

  type Byte = x: int | 0 <= x < 256

  /** The cli's verbs that neither create a task nor name a cgroup. */
  datatype Verb =
    | Tick | PolicyFair | PolicyRt | SetAffinity | CpuFreq
    | Pause | Block | Wake | Kill | ChanRead | ChanWrite | Freeze | Thaw | Yield

  /** The table that every bug has, VERBS. */
  const GENERAL: seq<Verb> := [Tick, PolicyFair, SetAffinity, Pause, Wake]

  /** A bug as the decoder sees it: its own verbs, and the test CPUs of its machine. */
  datatype Bug = Bug(verbs: seq<Verb>, tests: nat)

  /** a % n. */
  function Choice(a: nat, n: nat): (i: nat)
    requires n > 0
    ensures i < n
  {
    if a < n then a else Choice(a - n, n)
  }

  lemma {:induction false} ChoiceIsMod(a: nat, n: nat)
    requires n > 0
    ensures Choice(a, n) == a % n
    decreases a
  {
    if a >= n {
      ChoiceIsMod(a - n, n);
      ModStep(a, n);
    } else {
      assert a / n == 0;
    }
  }

  lemma ModStep(a: nat, n: nat)
    requires 0 < n <= a
    ensures (a - n) % n == a % n
  {
    var q, r := (a - n) / n, (a - n) % n;
    assert a == n * (q + 1) + r;
    SlotIs(a, q + 1, r, n);
  }

  function VerbOf(bug: Bug, x: Byte): Verb {
    var i := Choice(x, |GENERAL| + |bug.verbs|);
    if i < |GENERAL| then GENERAL[i] else bug.verbs[i - |GENERAL|]
  }

  /** As cli.c spells them. */
  function Name(verb: Verb): string {
    match verb
    case Tick => "tick"
    case PolicyFair => "policy-fair"
    case PolicyRt => "policy-rt"
    case SetAffinity => "affinity"
    case CpuFreq => "cpu-freq"
    case Pause => "pause"
    case Block => "block"
    case Wake => "wake"
    case Kill => "kill"
    case ChanRead => "chan-read"
    case ChanWrite => "chan-write"
    case Freeze => "freeze"
    case Thaw => "thaw"
    case Yield => "yield"
  }

  /** b >> i & 1. */
  predicate Bit(b: nat, i: nat) { if i == 0 then b % 2 == 1 else Bit(b / 2, i - 1) }

  /** The test CPUs below n whose bit is set. */
  function Chosen(b: nat, n: nat): (cpus: seq<nat>)
    ensures forall i :: 0 <= i < |cpus| ==> 1 <= cpus[i] <= n
  {
    if n == 0 then [] else Chosen(b, n - 1) + (if Bit(b, n - 1) then [n] else [])
  }

  /** A test CPU is chosen exactly when its bit is set. */
  lemma {:induction false} ChosenAre(b: nat, n: nat, cpu: nat)
    requires 1 <= cpu <= n
    ensures cpu in Chosen(b, n) <==> Bit(b, cpu - 1)
    decreases n
  {
    if cpu < n {
      ChosenAre(b, n - 1, cpu);
    } else {
      var rest := Chosen(b, n - 1);
      assert cpu !in rest;
    }
  }

  function Cpus(b: nat, tests: nat): (cpus: seq<nat>)
    requires tests > 0
    ensures cpus != [] && forall i :: 0 <= i < |cpus| ==> 1 <= cpus[i] <= tests
  {
    var cpus := Chosen(b, tests);
    if cpus == [] then [1 + Choice(b, tests)] else cpus
  }

  function CpuNames(cpus: seq<nat>): seq<string> { seq(|cpus|, i requires 0 <= i < |cpus| => Dec(cpus[i])) }

  datatype Record = Record(verb: Byte, a: Byte, b: Byte, c: Byte)

  /** FAIR_POLICIES and RT_POLICIES. */
  function FairName(i: nat): (name: string)
    ensures Token(name) && (name == "normal" || name == "batch" || name == "idle")
  {
    if i == 0 then "normal" else if i == 1 then "batch" else "idle"
  }

  function RtName(i: nat): (name: string)
    ensures Token(name) && (name == "fifo" || name == "rr")
  {
    if i == 0 then "fifo" else "rr"
  }

  datatype Line =
    | TickLine
    | FreqLine(cpu: nat, scale: nat)
    | FairLine(task: int, policy: nat, nice: int)
    | RtLine(task: int, policy: nat, prio: nat)
    | AffinityLine(task: int, cpus: seq<nat>)
    | ActLine(verb: Verb, task: int)

  /** The text of a line. */
  function Show(line: Line): string {
    match line
    case TickLine => "tick"
    case FreqLine(cpu, scale) => "cpu-freq" + " " + (Dec(cpu) + " " + Dec(scale))
    case FairLine(task, policy, nice) => "policy-fair" + " " + (Int(task) + " " + (FairName(policy) + " " + Int(nice)))
    case RtLine(task, policy, prio) => "policy-rt" + " " + (Int(task) + " " + (RtName(policy) + " " + Dec(prio)))
    case AffinityLine(task, cpus) => "affinity" + " " + (Int(task) + " " + Join(CpuNames(cpus), ','))
    case ActLine(verb, task) => Name(verb) + " " + Int(task)
  }

  /** One record's line, with the tasks not yet killed. */
  function Meant(bug: Bug, alive: seq<int>, r: Record): Line
    requires bug.tests > 0
  {
    var verb := VerbOf(bug, r.verb);
    if verb.Tick? then TickLine
    else if verb.CpuFreq? then FreqLine(1 + Choice(r.a, bug.tests), 1 + r.b % 1024)
    else if alive == [] then TickLine
    else
      var task := alive[Choice(r.a, |alive|)];
      match verb
      case PolicyFair => FairLine(task, r.b % 3, r.c % 40 - 20)
      case PolicyRt => RtLine(task, r.b % 2, 1 + r.c % 99)
      case SetAffinity => AffinityLine(task, Cpus(r.b, bug.tests))
      case _ => ActLine(verb, task)
  }

  /** The tasks not yet killed, after one record. */
  function Left(bug: Bug, alive: seq<int>, r: Record): seq<int> {
    if VerbOf(bug, r.verb).Kill? && alive != [] then Without(alive, alive[Choice(r.a, |alive|)]) else alive
  }

  function Numbers(n: nat): seq<int> { seq(n, i => i + 1) }

  /** The tasks not yet killed, after as many records. */
  function Alive(bug: Bug, tasks: nat, rs: seq<Record>): seq<int> {
    if rs == [] then Numbers(tasks) else Left(bug, Alive(bug, tasks, rs[..|rs| - 1]), rs[|rs| - 1])
  }

  predicate Positive(alive: seq<int>) { forall i :: 0 <= i < |alive| ==> alive[i] > 0 }

  predicate AliveOk(alive: seq<int>, tasks: nat) {
    Distinct(alive) && Positive(alive) && forall i :: 0 <= i < |alive| ==> alive[i] <= tasks
  }

  lemma {:induction false} AliveIsOk(bug: Bug, tasks: nat, rs: seq<Record>)
    ensures AliveOk(Alive(bug, tasks, rs), tasks)
    decreases |rs|
  {
    if rs != [] {
      AliveIsOk(bug, tasks, rs[..|rs| - 1]);
      var alive := Alive(bug, tasks, rs[..|rs| - 1]);
      if alive != [] {
        var t := alive[Choice(rs[|rs| - 1].a, |alive|)];
        WithoutKeeps(alive, t);
        var left := Without(alive, t);
        assert forall i :: 0 <= i < |left| ==> left[i] in left && left[i] in alive;
      }
    }
  }

  /** The lines of a program's records. */
  function Lines(bug: Bug, tasks: nat, rs: seq<Record>): (lines: seq<Line>)
    requires bug.tests > 0
    ensures |lines| == |rs|
  {
    seq(|rs|, k requires 0 <= k < |rs| && bug.tests > 0 => Meant(bug, Alive(bug, tasks, rs[..k]), rs[k]))
  }

  /** The records of a program: whole ones only, and no more than so many. */
  function Records(bytes: seq<Byte>): seq<Record> {
    var n := if |bytes| / 4 < MAX_RECORDS then |bytes| / 4 else MAX_RECORDS;
    seq(n, k requires 0 <= k < n => Record(bytes[4 * k], bytes[4 * k + 1], bytes[4 * k + 2], bytes[4 * k + 3]))
  }

  /** decode, after the setup has made its tasks. */
  method Decode(bytes: seq<Byte>, bug: Bug, tasks: nat) returns (lines: seq<Line>)
    requires bug.tests > 0
    ensures lines == Lines(bug, tasks, Records(bytes)) + [TickLine, TickLine, TickLine]
  {
    lines := DecodeRecords(Records(bytes), bug, tasks);
    lines := lines + [TickLine, TickLine, TickLine];
  }

  method DecodeRecords(rs: seq<Record>, bug: Bug, tasks: nat) returns (lines: seq<Line>)
    requires bug.tests > 0
    ensures lines == Lines(bug, tasks, rs)
  {
    ghost var alives, all := Turns(bug, tasks, rs);
    var alive := Numbers(tasks);
    lines := [];
    for k := 0 to |rs|
      invariant alive == alives[k] && lines == all[..k]
    {
      var line, left := DecodeRecord(rs[k], bug, alive);
      alive, lines := left, lines + [line];
    }
  }

  /** What the loop has before each turn, and what each turn gives. */
  lemma Turns(bug: Bug, tasks: nat, rs: seq<Record>) returns (alives: seq<seq<int>>, all: seq<Line>)
    requires bug.tests > 0
    ensures |alives| == |rs| + 1 && |all| == |rs| && alives[0] == Numbers(tasks) && all == Lines(bug, tasks, rs)
    ensures forall k :: 0 <= k < |rs| ==> alives[k + 1] == Left(bug, alives[k], rs[k]) && all[k] == Meant(bug, alives[k], rs[k])
  {
    all := Lines(bug, tasks, rs);
    alives := seq(|rs| + 1, k requires 0 <= k <= |rs| => Alive(bug, tasks, rs[..k]));
    forall k | 0 <= k < |rs|
      ensures alives[k + 1] == Left(bug, alives[k], rs[k]) && all[k] == Meant(bug, alives[k], rs[k])
    {
      OneMore(bug, tasks, rs, k);
    }
  }

  /** One turn of the loop. */
  method DecodeRecord(r: Record, bug: Bug, alive: seq<int>) returns (line: Line, left: seq<int>)
    requires bug.tests > 0
    ensures line == Meant(bug, alive, r) && left == Left(bug, alive, r)
  {
    line := Meant(bug, alive, r);
    left := if line.ActLine? && line.verb.Kill? then Without(alive, line.task) else alive;
  }

  lemma OneMore(bug: Bug, tasks: nat, rs: seq<Record>, k: nat)
    requires bug.tests > 0 && k < |rs|
    ensures Lines(bug, tasks, rs)[k] == Meant(bug, Alive(bug, tasks, rs[..k]), rs[k])
    ensures Alive(bug, tasks, rs[..k + 1]) == Left(bug, Alive(bug, tasks, rs[..k]), rs[k])
  {
    assert rs[..k + 1][..k] == rs[..k];
  }

  // ---- every line gets past the cli ----

  predicate Ascending(cpus: seq<nat>) { forall i, j :: 0 <= i < j < |cpus| ==> cpus[i] < cpus[j] }

  predicate Among(cpus: seq<nat>, tests: nat) { forall i :: 0 <= i < |cpus| ==> 1 <= cpus[i] <= tests }

  /** What kstrtoint and cpulist_parse make of what the decoder prints: an int is read back, and so is an ascending
      list of test CPUs. */
  ghost predicate Reads(g: Given, tests: nat) {
    && ReadsInts(g)
    && forall cpus: seq<nat> {:trigger CpuNames(cpus)} ::
         cpus != [] && Ascending(cpus) && Among(cpus, tests) ==> g.cpulist(Join(CpuNames(cpus), ',')) == Some(cpus)
  }

  /** Those not killed, as the cli keeps them. */
  function AliveTable(alive: seq<int>, tasks: nat): seq<bool> { seq(tasks, i => i + 1 in alive) }

  /** The cli finds the task that a number names. */
  predicate Names(alive: seq<bool>, task: int) { 1 <= task <= |alive| <= MAX_TASKS && alive[task - 1] }

  lemma NamedIsFound(g: Given, alive: seq<bool>, task: int)
    requires ReadsInts(g) && Names(alive, task)
    ensures Token(Int(task)) && TaskOk(g, alive, Some(Int(task))) && |Int(task)| <= 2
  {
    IntIsToken(task);
    DecIsShort(task);
  }

  lemma {:induction false} DecIsShort(n: nat)
    ensures n < 10 ==> |Dec(n)| <= 1
    ensures n < 100 ==> |Dec(n)| <= 2
    ensures n < 1000 ==> |Dec(n)| <= 3
    ensures n < 10000 ==> |Dec(n)| <= 4
    decreases n
  {
    if n >= 10 {
      DecIsShort(n / 10);
    }
  }

  lemma NumberPrinted(g: Given, n: nat)
    requires ReadsInts(g) && n < 10000
    ensures Token(Dec(n)) && g.number(Dec(n)) == Some(n) && |Dec(n)| <= 4
  {
    IntIsToken(n);
    DecIsShort(n);
    assert Int(n) == Dec(n);
  }

  lemma NamesAreTokens(verb: Verb)
    ensures Token(Name(verb)) && Name(verb)[0] != '#' && |Name(verb)| <= 11
    ensures verb.Tick? || verb.PolicyFair? || verb.PolicyRt? || verb.SetAffinity? || verb.CpuFreq? || TaskVerb(Name(verb))
  {}

  lemma FreqAccepted(g: Given, tests: nat, alive: seq<bool>, cpu: nat, scale: nat)
    requires ReadsInts(g) && 1 <= cpu <= tests < MAX_CPUS && 1 <= scale <= SCALE
    ensures Accepts(g, tests, alive, "cpu-freq" + " " + (Dec(cpu) + " " + Dec(scale)))
  {
    NumberPrinted(g, cpu);
    NumberPrinted(g, scale);
    FreqMet(g, tests, Dec(cpu), Dec(scale));
    NamesAreTokens(CpuFreq);
    Dispatch(g, tests, alive, "cpu-freq", Dec(cpu) + " " + Dec(scale));
  }

  lemma FairAccepted(g: Given, tests: nat, alive: seq<bool>, task: string, name: string, nice: int)
    requires ReadsInts(g) && Token(task) && |task| <= 2 && TaskOk(g, alive, Some(task)) && -20 <= nice <= 19
    requires Token(name) && (name == "normal" || name == "batch" || name == "idle")
    ensures Accepts(g, tests, alive, "policy-fair" + " " + (task + " " + (name + " " + Int(nice))))
  {
    IntIsToken(nice);
    DecIsShort(if nice < 0 then -nice else nice);
    NamesAreTokens(PolicyFair);
    FairMet(g, alive, task, name, Int(nice));
    Dispatch(g, tests, alive, "policy-fair", task + " " + (name + " " + Int(nice)));
  }

  lemma RtAccepted(g: Given, tests: nat, alive: seq<bool>, task: string, name: string, prio: nat)
    requires ReadsInts(g) && Token(task) && |task| <= 2 && TaskOk(g, alive, Some(task)) && 1 <= prio <= 99
    requires Token(name) && (name == "fifo" || name == "rr")
    ensures Accepts(g, tests, alive, "policy-rt" + " " + (task + " " + (name + " " + Dec(prio))))
  {
    NumberPrinted(g, prio);
    NamesAreTokens(PolicyRt);
    RtMet(g, alive, task, name, Dec(prio));
    Dispatch(g, tests, alive, "policy-rt", task + " " + (name + " " + Dec(prio)));
  }

  lemma {:induction false} ListIsTrimmed(cpus: seq<nat>)
    requires cpus != [] && forall i :: 0 <= i < |cpus| ==> cpus[i] < 100
    ensures Trimmed(Join(CpuNames(cpus), ',')) && |Join(CpuNames(cpus), ',')| <= 3 * |cpus|
    decreases |cpus|
  {
    IntIsToken(cpus[0]);
    DecIsShort(cpus[0]);
    assert Int(cpus[0]) == Dec(cpus[0]);
    if |cpus| > 1 {
      ListIsTrimmed(cpus[1..]);
      assert CpuNames(cpus)[1..] == CpuNames(cpus[1..]);
    }
  }

  lemma AffinityAccepted(g: Given, tests: nat, alive: seq<bool>, task: string, cpus: seq<nat>)
    requires Reads(g, tests) && tests < MAX_CPUS && Token(task) && |task| <= 2 && TaskOk(g, alive, Some(task))
    requires cpus != [] && |cpus| <= 8 && Ascending(cpus) && Among(cpus, tests)
    ensures Accepts(g, tests, alive, "affinity" + " " + (task + " " + Join(CpuNames(cpus), ',')))
  {
    var list := Join(CpuNames(cpus), ',');
    ListIsTrimmed(cpus);
    AffinityMet(g, tests, alive, task, list);
    NamesAreTokens(SetAffinity);
    Dispatch(g, tests, alive, "affinity", task + " " + list);
  }

  lemma ActAccepted(g: Given, tests: nat, alive: seq<bool>, verb: Verb, task: string)
    requires Token(task) && |task| <= 2 && TaskOk(g, alive, Some(task)) && TaskVerb(Name(verb))
    ensures Accepts(g, tests, alive, Name(verb) + " " + task)
  {
    TakeOnly(task);
    NamesAreTokens(verb);
    TaskVerbChecks(g, tests, alive, Name(verb), Some(task));
    Dispatch(g, tests, alive, Name(verb), task);
  }

  lemma TaskVerbChecks(g: Given, tests: nat, alive: seq<bool>, verb: string, arg: Option<string>)
    requires TaskVerb(verb)
    ensures Checks(g, tests, alive, verb, arg) <==> TaskOk(g, alive, TakeArg(arg).0)
  {}

  lemma TickAccepted(g: Given, tests: nat, alive: seq<bool>)
    ensures Accepts(g, tests, alive, "tick")
  {
    NamesAreTokens(Tick);
    TakeOnly("tick");
    TrimmedStays("tick");
  }

  /** What a line has to name for the cli to take it. */
  predicate Sound(tests: nat, alive: seq<bool>, line: Line) {
    match line
    case TickLine => true
    case FreqLine(cpu, scale) => 1 <= cpu <= tests && 1 <= scale <= SCALE
    case FairLine(task, _, nice) => Names(alive, task) && -20 <= nice <= 19
    case RtLine(task, _, prio) => Names(alive, task) && 1 <= prio <= 99
    case AffinityLine(task, cpus) => Names(alive, task) && cpus != [] && |cpus| <= 8 && Ascending(cpus) && Among(cpus, tests)
    case ActLine(verb, task) => Names(alive, task) && TaskVerb(Name(verb))
  }

  lemma SoundIsAccepted(g: Given, tests: nat, alive: seq<bool>, line: Line)
    requires Reads(g, tests) && tests < MAX_CPUS && Sound(tests, alive, line)
    ensures Accepts(g, tests, alive, Show(line))
  {
    if line.TickLine? {
      TickAccepted(g, tests, alive);
    } else if line.FreqLine? {
      FreqAccepted(g, tests, alive, line.cpu, line.scale);
    } else {
      NamedIsFound(g, alive, line.task);
      match line
      case FairLine(task, policy, nice) => FairAccepted(g, tests, alive, Int(task), FairName(policy), nice);
      case RtLine(task, policy, prio) => RtAccepted(g, tests, alive, Int(task), RtName(policy), prio);
      case AffinityLine(task, cpus) => AffinityAccepted(g, tests, alive, Int(task), cpus);
      case ActLine(verb, task) => ActAccepted(g, tests, alive, verb, Int(task));
    }
  }

  function Power(i: nat): nat { if i == 0 then 1 else 2 * Power(i - 1) }

  lemma {:induction false} NoHighBits(b: nat, i: nat)
    requires b < Power(i)
    ensures !Bit(b, i)
    decreases i
  {
    if i > 0 {
      NoHighBits(b / 2, i - 1);
    }
  }

  /** A byte has eight bits. */
  lemma {:induction false} ByteIsBelow(i: nat)
    requires i >= 8
    ensures Power(i) >= 256
    decreases i
  {
    if i == 8 {
      assert Power(2) == 4 && Power(4) == 16 && Power(6) == 64;
    } else {
      ByteIsBelow(i - 1);
    }
  }

  lemma {:induction false} ChosenAscend(b: Byte, n: nat)
    ensures Ascending(Chosen(b, n)) && Among(Chosen(b, n), n) && |Chosen(b, n)| <= n && |Chosen(b, n)| <= 8
    decreases n
  {
    if n > 0 {
      ChosenAscend(b, n - 1);
      if n > 8 {
        ByteIsBelow(n - 1);
        NoHighBits(b, n - 1);
      }
    }
  }

  lemma MeantIsSound(bug: Bug, alive: seq<int>, tasks: nat, r: Record)
    requires bug.tests > 0 && tasks <= MAX_TASKS && AliveOk(alive, tasks)
    ensures Sound(bug.tests, AliveTable(alive, tasks), Meant(bug, alive, r))
  {
    if alive != [] {
      var task := alive[Choice(r.a, |alive|)];
      assert task in alive;
    }
    ChosenAscend(r.b, bug.tests);
    NamesAreTokens(VerbOf(bug, r.verb));
  }

  /** For every program on a machine that the region has room for, the k-th record's line is read whole and gets
      past the cli's checks where the tasks gone are those that the lines before it killed: so it names no task
      already killed. */
  lemma EveryLineAccepted(g: Given, bug: Bug, tasks: nat, rs: seq<Record>, k: nat)
    requires 0 < bug.tests < MAX_CPUS && tasks <= MAX_TASKS && Reads(g, bug.tests) && k < |rs|
    ensures Accepts(g, bug.tests, AliveTable(Alive(bug, tasks, rs[..k]), tasks), Show(Lines(bug, tasks, rs)[k]))
  {
    AliveIsOk(bug, tasks, rs[..k]);
    MeantIsSound(bug, Alive(bug, tasks, rs[..k]), tasks, rs[k]);
    SoundIsAccepted(g, bug.tests, AliveTable(Alive(bug, tasks, rs[..k]), tasks), Meant(bug, Alive(bug, tasks, rs[..k]), rs[k]));
  }

  // ---- such parsers exist, kstrtoint's range and all ----

  /** A decimal int, refused where it does not fit one. */
  function ReadInt(s: string): (r: Option<int>)
    ensures r.Some? ==> FitsInt(r.value)
  {
    if s != "" && s[0] == '-' then Checked(ParseNat(s[1..]), true) else Checked(ParseNat(s), false)
  }

  function Checked(n: Option<nat>, negative: bool): (r: Option<int>)
    ensures r.Some? ==> FitsInt(r.value)
  {
    if n.None? then None
    else
      var x: int := n.value;
      var v := if negative then -x else x;
      if FitsInt(v) then Some(v) else None
  }

  function ReadAll(parts: seq<string>): Option<seq<nat>> {
    if parts == [] then Some([])
    else
      var first, rest := ParseNat(parts[0]), ReadAll(parts[1..]);
      if first.None? || rest.None? then None else Some([first.value] + rest.value)
  }

  /** A comma-separated list. */
  function ReadList(s: string): Option<seq<nat>> { ReadAll(Pieces(s, ',')) }

  lemma IntReadsBack(n: int)
    requires FitsInt(n)
    ensures ReadInt(Int(n)) == Some(n)
  {
    DecReadsBack(if n < 0 then -n else n);
    if n < 0 {
      assert Int(n)[0] == '-' && Int(n)[1..] == Dec(-n);
    } else {
      assert IsDigit(Int(n)[0]);
    }
  }

  lemma {:induction false} AllReadBack(cpus: seq<nat>)
    ensures ReadAll(CpuNames(cpus)) == Some(cpus)
    decreases |cpus|
  {
    if cpus != [] {
      DecReadsBack(cpus[0]);
      AllReadBack(cpus[1..]);
      assert CpuNames(cpus)[0] == Dec(cpus[0]) && CpuNames(cpus)[1..] == CpuNames(cpus[1..]);
      assert [cpus[0]] + cpus[1..] == cpus;
    }
  }

  lemma ListReadsBack(cpus: seq<nat>)
    requires cpus != []
    ensures ReadList(Join(CpuNames(cpus), ',')) == Some(cpus)
  {
    forall i | 0 <= i < |cpus|
      ensures ',' !in CpuNames(cpus)[i]
    {
      DecReadsBack(cpus[i]);
    }
    PiecesOfJoin(CpuNames(cpus), ',');
    AllReadBack(cpus);
  }

  lemma ReadersExist(tests: nat)
    ensures Reads(Given(ReadInt, ReadList), tests)
  {
    var g := Given(ReadInt, ReadList);
    forall n: int {:trigger Int(n)} | FitsInt(n)
      ensures g.number(Int(n)) == Some(n)
    {
      IntReadsBack(n);
    }
    forall cpus: seq<nat> {:trigger CpuNames(cpus)} | cpus != []
      ensures g.cpulist(Join(CpuNames(cpus), ',')) == Some(cpus)
    {
      ListReadsBack(cpus);
    }
  }

  /** And any live task can be named: each is some byte's choice. */
  lemma EveryTaskCanBeNamed(bug: Bug, tasks: nat, rs: seq<Record>, t: int)
    requires tasks <= MAX_TASKS && t in Alive(bug, tasks, rs)
    ensures exists a: Byte :: var alive := Alive(bug, tasks, rs); alive[Choice(a, |alive|)] == t
  {
    var alive := Alive(bug, tasks, rs);
    AliveIsOk(bug, tasks, rs);
    var i := Pos(alive, t);
    forall x | x in alive
      ensures 0 <= x < MAX_TASKS + 1
    {
      assert alive[Pos(alive, x)] == x;
    }
    DistinctFits(alive, MAX_TASKS + 1);
    var a: Byte := i;
    assert Choice(a, |alive|) == i;
  }

  // ---- a mutation stays local ----

  lemma {:induction false} NoneKilled(bug: Bug, tasks: nat, rs: seq<Record>)
    requires bug.tests > 0 && Kill !in bug.verbs
    ensures Alive(bug, tasks, rs) == Numbers(tasks)
    decreases |rs|
  {
    if rs != [] {
      NoneKilled(bug, tasks, rs[..|rs| - 1]);
      NoneIsKill(bug, rs[|rs| - 1].verb);
    }
  }

  lemma NoneIsKill(bug: Bug, x: Byte)
    requires Kill !in bug.verbs
    ensures !VerbOf(bug, x).Kill?
  {}

  /** Without kill, changing one record changes that record's line and no other. */
  lemma MutationIsLocal(bug: Bug, tasks: nat, rs: seq<Record>, k: nat, r: Record)
    requires bug.tests > 0 && Kill !in bug.verbs && k < |rs|
    ensures Lines(bug, tasks, rs[k := r]) == Lines(bug, tasks, rs)[k := Meant(bug, Numbers(tasks), r)]
  {
    var changed := rs[k := r];
    forall j | 0 <= j < |rs|
      ensures Lines(bug, tasks, changed)[j] == if j == k then Meant(bug, Numbers(tasks), r) else Lines(bug, tasks, rs)[j]
    {
      NoneKilled(bug, tasks, rs[..j]);
      NoneKilled(bug, tasks, changed[..j]);
    }
  }

  /** With kill it may change what later lines name, but never an earlier one. */
  lemma MutationNeverReachesBack(bug: Bug, tasks: nat, rs: seq<Record>, k: nat, r: Record, j: nat)
    requires bug.tests > 0 && j < k < |rs|
    ensures Lines(bug, tasks, rs[k := r])[j] == Lines(bug, tasks, rs)[j]
  {
    assert rs[k := r][..j] == rs[..j];
  }
}
