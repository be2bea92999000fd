/** The cli's argument checks (kmod/cli.c), for the verbs that a fuzzed program may use. */
module CliArgs {
  import opened Digits
  import opened Ring
  import opened Text
  import Session

  const MAX_TICK := 10000
  const SCALE := 1024

  /** kstrtoint, and cpulist_parse as the CPUs it names. */
  datatype Given = Given(number: string -> Option<int>, cpulist: string -> Option<seq<nat>>)

  // ---- taking a line apart ----

  predicate Blank(c: char) { c == ' ' || c == '\t' }

  function BlankIndex(s: string): (i: nat)
    ensures i <= |s|
  {
    if s == "" || Blank(s[0]) then 0 else BlankIndex(s[1..]) + 1
  }

  /** take_arg: a token, and what is left after it, trimmed; None where there was no blank. */
  function Take(s: string): (string, Option<string>) {
    var i := BlankIndex(s);
    (s[..i], if i == |s| then None else Some(Trim(s[i + 1..])))
  }

  function TakeArg(arg: Option<string>): (Option<string>, Option<string>) {
    if arg.None? then (None, None) else var (token, rest) := Take(arg.value); (Some(token), rest)
  }

  // ---- what each verb checks ----

  /** alive[n - 1] is whether task n has not exited. */
  predicate TaskOk(g: Given, alive: seq<bool>, token: Option<string>) {
    token.Some? && var n := g.number(token.value);
      n.Some? && 0 < n.value <= |alive| && alive[n.value - 1]
  }

  predicate NumberIn(g: Given, s: string, low: int, high: int) {
    var n := g.number(s);
    n.Some? && low <= n.value <= high
  }

  predicate TickOk(g: Given, arg: Option<string>) { arg.Some? ==> NumberIn(g, arg.value, 1, MAX_TICK) }

  predicate FairOk(g: Given, alive: seq<bool>, arg: Option<string>) {
    var (num, rest) := TakeArg(arg);
    var (name, nice) := TakeArg(rest);
    TaskOk(g, alive, num) && (nice.Some? ==> NumberIn(g, nice.value, -20, 19))
    && (name == Some("normal") || name == Some("batch") || name == Some("idle"))
  }

  predicate RtOk(g: Given, alive: seq<bool>, arg: Option<string>) {
    var (num, rest) := TakeArg(arg);
    var (name, prio) := TakeArg(rest);
    TaskOk(g, alive, num) && prio.Some? && NumberIn(g, prio.value, 1, 99) && (name == Some("fifo") || name == Some("rr"))
  }

  /** Test CPUs only, and at least one. */
  predicate CpusOk(g: Given, tests: nat, list: Option<string>) {
    list.Some? && var cpus := g.cpulist(list.value);
      cpus.Some? && cpus.value != [] && forall i :: 0 <= i < |cpus.value| ==> 1 <= cpus.value[i] <= tests
  }

  predicate AffinityOk(g: Given, tests: nat, alive: seq<bool>, arg: Option<string>) {
    var (num, rest) := TakeArg(arg);
    TaskOk(g, alive, num) && CpusOk(g, tests, rest)
  }

  predicate FreqOk(g: Given, tests: nat, arg: Option<string>) {
    arg.Some? && var i := IndexOf(arg.value, ' ');
      i < |arg.value| && NumberIn(g, arg.value[..i], 1, tests) && NumberIn(g, arg.value[i + 1..], 1, SCALE)
  }

  /** The verbs that act on one task and check nothing else. */
  predicate TaskVerb(verb: string) {
    verb == "pause" || verb == "block" || verb == "wake" || verb == "kill" || verb == "chan-read" || verb == "chan-write"
    || verb == "freeze" || verb == "thaw" || verb == "yield"
  }

  /** What the verb checks of its argument. */
  predicate Checks(g: Given, tests: nat, alive: seq<bool>, verb: string, arg: Option<string>) {
    if verb == "tick" then TickOk(g, arg)
    else if verb == "policy-fair" then FairOk(g, alive, arg)
    else if verb == "policy-rt" then RtOk(g, alive, arg)
    else if verb == "affinity" then AffinityOk(g, tests, alive, arg)
    else if verb == "cpu-freq" then FreqOk(g, tests, arg)
    else TaskVerb(verb) && TaskOk(g, alive, TakeArg(arg).0)
  }

  /** Whether a line, cut and trimmed as the cli reads it, is a command that gets past its verb's own checks, on
      a machine with that many test CPUs. */
  predicate Accepts(g: Given, tests: nat, alive: seq<bool>, line: string) {
    var command := Session.Command(line);
    command.Some? &&
    var (verb, rest) := Take(command.value);
    Checks(g, tests, alive, verb, if rest == Some("") then None else rest)
  }

  // ---- taking apart what was put together ----

  predicate NoBlank(s: string) { forall i :: 0 <= i < |s| ==> !Blank(s[i]) }

  /** A token as the host prints them: nothing in it, or at its ends, to trim. */
  predicate Token(s: string) { s != "" && NoBlank(s) && !IsSpace(s[0]) && !IsSpace(s[|s| - 1]) }

  lemma {:induction false} BlankAfter(token: string, rest: string)
    requires NoBlank(token)
    ensures BlankIndex(token + " " + rest) == |token| && BlankIndex(token) == |token|
    decreases |token|
  {
    if token != "" {
      BlankAfter(token[1..], rest);
      assert (token + " " + rest)[1..] == token[1..] + " " + rest;
    }
  }

  predicate Trimmed(s: string) { s != "" && !IsSpace(s[0]) && !IsSpace(s[|s| - 1]) }

  lemma TrimmedStays(s: string)
    requires Trimmed(s)
    ensures Trim(s) == s
  {}

  lemma TakeFirst(token: string, rest: string)
    requires Token(token) && Trimmed(rest)
    ensures Take(token + " " + rest) == (token, Some(rest)) && Trimmed(token + " " + rest)
  {
    BlankAfter(token, rest);
    TrimmedStays(rest);
    var s := token + " " + rest;
    assert s[..|token|] == token && s[|token| + 1..] == rest;
  }

  lemma TakeOnly(token: string)
    requires Token(token)
    ensures Take(token) == (token, None) && Trimmed(token)
  {
    BlankAfter(token, "");
    assert token[..|token|] == token;
  }

  // ---- numbers ----

  /** What the host prints for an int. */
  function Int(n: int): string { if n < 0 then "-" + Dec(-n) else Dec(n) }

  /** What fits a C int. */
  predicate FitsInt(n: int) { -0x8000_0000 <= n < 0x8000_0000 }

  ghost predicate ReadsInts(g: Given) { forall n: int {:trigger Int(n)} :: FitsInt(n) ==> g.number(Int(n)) == Some(n) }

  lemma IntIsToken(n: int)
    ensures Token(Int(n))
  {
    DecReadsBack(if n < 0 then -n else n);
  }

  // ---- each check met ----

  /** A line that the cli reads whole. */
  predicate Fits(line: string) { |line| < Session.LINE_MAX }

  lemma Dispatch(g: Given, tests: nat, alive: seq<bool>, verb: string, arg: string)
    requires Token(verb) && verb[0] != '#' && Trimmed(arg) && Checks(g, tests, alive, verb, Some(arg))
    requires Fits(verb + " " + arg)
    ensures Accepts(g, tests, alive, verb + " " + arg)
  {
    TakeFirst(verb, arg);
    TrimmedStays(verb + " " + arg);
    assert (verb + " " + arg)[0] == verb[0];
  }

  lemma FairMet(g: Given, alive: seq<bool>, task: string, name: string, nice: string)
    requires Token(task) && TaskOk(g, alive, Some(task)) && Token(nice) && NumberIn(g, nice, -20, 19)
    requires Token(name) && (name == "normal" || name == "batch" || name == "idle")
    ensures Trimmed(task + " " + (name + " " + nice)) && FairOk(g, alive, Some(task + " " + (name + " " + nice)))
  {
    TakeOnly(nice);
    TakeFirst(name, nice);
    TakeFirst(task, name + " " + nice);
  }

  lemma RtMet(g: Given, alive: seq<bool>, task: string, name: string, prio: string)
    requires Token(task) && TaskOk(g, alive, Some(task)) && Token(prio) && NumberIn(g, prio, 1, 99)
    requires Token(name) && (name == "fifo" || name == "rr")
    ensures Trimmed(task + " " + (name + " " + prio)) && RtOk(g, alive, Some(task + " " + (name + " " + prio)))
  {
    TakeOnly(prio);
    TakeFirst(name, prio);
    TakeFirst(task, name + " " + prio);
  }

  lemma AffinityMet(g: Given, tests: nat, alive: seq<bool>, task: string, list: string)
    requires Token(task) && TaskOk(g, alive, Some(task)) && Trimmed(list) && CpusOk(g, tests, Some(list))
    ensures Trimmed(task + " " + list) && AffinityOk(g, tests, alive, Some(task + " " + list))
  {
    TakeFirst(task, list);
  }

  lemma FreqMet(g: Given, tests: nat, cpu: string, scale: string)
    requires Token(cpu) && NumberIn(g, cpu, 1, tests) && Token(scale) && NumberIn(g, scale, 1, SCALE)
    ensures Trimmed(cpu + " " + scale) && FreqOk(g, tests, Some(cpu + " " + scale))
  {
    IndexAfter(cpu, ' ', scale);
    var arg := cpu + " " + scale;
    assert arg == cpu + [' '] + scale;
    assert arg[..|cpu|] == cpu && arg[|cpu| + 1..] == scale;
  }
}
