/** One command at a time over the channel: the host's half (crates/kstep/src/session.rs) against the
    cli's loop (kmod/cli.c), each running at its own pace. */
module Session {
  import opened Lines
  import opened Ring
  import opened Text

  const LINE_MAX := 128

  // ---- which lines are commands ----

  /** What a line makes the cli do: nothing, when it is blank or a comment. */
  function Command(line: string): Option<string> {
    var l := Trim(Cut(line, LINE_MAX));
    if l == "" || l[0] == '#' then None else Some(l)
  }

  /** What lines that the cli reads make it do. */
  function MeantBy(lines: seq<string>): seq<Option<string>> { seq(|lines|, i requires 0 <= i < |lines| => Command(lines[i])) }

  /** What the host's writing one line makes it do, one physical line after another. */
  function Meant(line: string): seq<Option<string>> { MeantBy(Split(line + "\n").0) }

  function AllMeant(sent: seq<string>): seq<Option<string>> {
    if sent == [] then [] else AllMeant(sent[..|sent| - 1]) + Meant(sent[|sent| - 1])
  }

  function Somes(cs: seq<Option<string>>): seq<string> {
    if cs == [] then []
    else Somes(cs[..|cs| - 1]) + (if cs[|cs| - 1].Some? then [cs[|cs| - 1].value] else [])
  }

  /** The commands in all that the host has sent. */
  function Commands(sent: seq<string>): seq<string> { Somes(AllMeant(sent)) }

  predicate AnsweredOnce(line: string) { |Somes(Meant(line))| == 1 }

  predicate AllAnsweredOnce(sent: seq<string>) { forall k :: 0 <= k < |sent| ==> AnsweredOnce(sent[k]) }

  lemma {:induction false} SomesOfBoth(a: seq<Option<string>>, b: seq<Option<string>>)
    ensures Somes(a + b) == Somes(a) + Somes(b)
    decreases |b|
  {
    if b == [] {
      assert a + b == a;
    } else {
      var n := |b| - 1;
      SomesOfBoth(a, b[..n]);
      assert (a + b)[..|a + b| - 1] == a + b[..n];
      var last := if b[n].Some? then [b[n].value] else [];
      assert (Somes(a) + Somes(b[..n])) + last == Somes(a) + (Somes(b[..n]) + last);
    }
  }

  lemma SomesOfOne(c: Option<string>)
    ensures Somes([c]) == if c.Some? then [c.value] else []
  {
    assert [c][..0] == [];
    assert Somes([]) == [];
  }

  /** A line without a newline is answered once exactly when it is a command, and with that command. */
  lemma PlainLine(line: string)
    requires '\n' !in line
    ensures AnsweredOnce(line) <==> Command(line).Some?
    ensures Command(line).Some? ==> Somes(Meant(line)) == [Command(line).value]
  {
    SplitAppends("", line);
    assert "" + line + "\n" == line + "\n" && "" + line == line;
    assert Meant(line) == [Command(line)];
    SomesOfOne(Command(line));
  }

  /** When every line is answered once, the k-th command is the k-th line's. */
  lemma {:induction false} OneCommandEach(sent: seq<string>)
    requires AllAnsweredOnce(sent)
    ensures |Commands(sent)| == |sent|
    ensures forall k :: 0 <= k < |sent| ==> [Commands(sent)[k]] == Somes(Meant(sent[k]))
  {
    if sent != [] {
      var n := |sent| - 1;
      OneCommandEach(sent[..n]);
      SomesOfBoth(AllMeant(sent[..n]), Meant(sent[n]));
      assert AnsweredOnce(sent[n]);
      OneMore(Commands(sent[..n]), Somes(Meant(sent[n])));
    }
  }

  lemma OneMore(a: seq<string>, b: seq<string>)
    requires |b| == 1
    ensures |a + b| == |a| + 1 && [(a + b)[|a|]] == b && forall k :: 0 <= k < |a| ==> (a + b)[k] == a[k]
  {}

  // ---- the bytes ----

  /** What the host writes for its lines. */
  function Written(sent: seq<string>): string {
    if sent == [] then "" else Written(sent[..|sent| - 1]) + (sent[|sent| - 1] + "\n")
  }

  lemma MeantByBoth(a: seq<string>, b: seq<string>)
    ensures MeantBy(a + b) == MeantBy(a) + MeantBy(b)
  {}

  /** The lines that the cli reads from the bytes written mean what was sent. */
  lemma {:induction false} BytesMeanLines(sent: seq<string>)
    ensures Split(Written(sent)).1 == "" && MeantBy(Split(Written(sent)).0) == AllMeant(sent)
  {
    if sent != [] {
      var n := |sent| - 1;
      BytesMeanLines(sent[..n]);
      SplitOfBoth(Written(sent[..n]), sent[n] + "\n");
      EndsWhole(sent[n]);
      MeantByBoth(Split(Written(sent[..n])).0, Split(sent[n] + "\n").0);
    }
  }

  lemma EndsWhole(line: string)
    ensures Split(line + "\n").1 == ""
  {
    assert (line + "\n")[|line|] == '\n';
  }

  // ---- the two sides ----

  datatype Rec = Event(body: string) | Reply(body: string)

  datatype Answer = Answer(events: seq<Rec>, reply: Rec)

  /** What the cli has done: a command, what it sent since its previous reply, and the region it left. */
  datatype Done = Done(command: string, answer: Answer, region: string)

  datatype Phase = Idle | Running(command: string) | Updated(command: string)

  datatype State = State(
    sent: seq<string>, waiting: bool, events: seq<Rec>, answers: seq<Answer>,    // the host
    toGuest: seq<Option<string>>, toHost: seq<Rec>,                             // the channel, line by line
    taken: seq<Option<string>>, phase: Phase, since: seq<Rec>, log: seq<Done>, region: string)              // the cli

  datatype Step =
    | Send(line: string)        // Session::cmd writes
    | Receive                   // read_reply reads a record
    | TakeLine                  // kstep_io_readline returns
    | Notify(body: string)      // a hook sends a typed record
    | Update(region: string)    // the command is done: the region is rewritten
    | Finish(body: string)      // and the reply sent

  predicate Enabled(s: State, step: Step) {
    match step
    case Send(_) => !s.waiting
    case Receive => s.waiting && s.toHost != []
    case TakeLine => s.phase.Idle? && s.toGuest != []
    case Notify(_) => true
    case Update(_) => s.phase.Running?
    case Finish(_) => s.phase.Updated?
  }

  function Apply(s: State, step: Step): State
    requires Enabled(s, step)
  {
    match step
    case Send(line) =>
      s.(sent := s.sent + [line], waiting := true, events := [], toGuest := s.toGuest + Meant(line))
    case Receive =>
      var r := s.toHost[0];
      if r.Event? then s.(events := s.events + [r], toHost := s.toHost[1..])
      else s.(answers := s.answers + [Answer(s.events, r)], events := [], toHost := s.toHost[1..], waiting := false)
    case TakeLine =>
      var c := s.toGuest[0];
      s.(taken := s.taken + [c], toGuest := s.toGuest[1..], phase := if c.Some? then Running(c.value) else Idle)
    case Notify(body) => s.(since := s.since + [Event(body)], toHost := s.toHost + [Event(body)])
    case Update(region) => s.(region := region, phase := Updated(s.phase.command))
    case Finish(body) =>
      s.(log := s.log + [Done(s.phase.command, Answer(s.since, Reply(body)), s.region)],
         since := [], toHost := s.toHost + [Reply(body)], phase := Idle)
  }

  function Start(region: string): State { State([], false, [], [], [], [], [], Idle, [], [], region) }

  // ---- what holds in every state ----

  predicate OnlyEvents(rs: seq<Rec>) { forall i :: 0 <= i < |rs| ==> rs[i].Event? }

  /** The records of what has been done, in the order they were sent. */
  function Stream(log: seq<Done>): seq<Rec> {
    if log == [] then [] else Stream(log[..|log| - 1]) + log[|log| - 1].answer.events + [log[|log| - 1].answer.reply]
  }

  predicate WellLogged(log: seq<Done>) {
    forall k :: 0 <= k < |log| ==> OnlyEvents(log[k].answer.events) && log[k].answer.reply.Reply?
  }

  function Named(log: seq<Done>): seq<string> { seq(|log|, k requires 0 <= k < |log| => log[k].command) }

  function UnderWay(phase: Phase): seq<string> { if phase.Idle? then [] else [phase.command] }

  /** What the cli has been told to do so far. */
  function Commanded(s: State): seq<string> { Named(s.log) + UnderWay(s.phase) }

  /** Answers are the first of what was done; the records of the rest are on their way, none lost or reordered. */
  predicate Delivered(s: State) {
    && WellLogged(s.log) && OnlyEvents(s.since) && OnlyEvents(s.events)
    && |s.answers| <= |s.log|
    && (forall k :: 0 <= k < |s.answers| ==> s.answers[k] == s.log[k].answer)
    && s.events + s.toHost == Stream(s.log[|s.answers|..]) + s.since
  }

  predicate Obeyed(s: State) {
    s.taken + s.toGuest == AllMeant(s.sent) && Commanded(s) == Somes(s.taken)
  }

  predicate Inv(s: State) {
    && Delivered(s) && Obeyed(s)
    && |s.sent| == |s.answers| + (if s.waiting then 1 else 0)
    && (!s.waiting ==> s.events == [])
    && (s.log != [] && !s.phase.Updated? ==> s.region == s.log[|s.log| - 1].region)
  }

  // ---- every step keeps it ----

  lemma SendKeeps(s: State, line: string)
    requires Inv(s) && !s.waiting
    ensures Inv(Apply(s, Send(line)))
  {
    assert (s.sent + [line])[..|s.sent|] == s.sent;
    assert s.taken + (s.toGuest + Meant(line)) == s.taken + s.toGuest + Meant(line);
  }

  lemma TakeLineObeys(s: State)
    requires Obeyed(s) && Enabled(s, TakeLine)
    ensures Obeyed(Apply(s, TakeLine))
  {
    var c := s.toGuest[0];
    assert (s.taken + [c]) + s.toGuest[1..] == s.taken + s.toGuest;
    SomesOfBoth(s.taken, [c]);
    SomesOfOne(c);
    assert Named(s.log) + [] == Named(s.log);
  }

  lemma TakeLineKeeps(s: State)
    requires Inv(s) && Enabled(s, TakeLine)
    ensures Inv(Apply(s, TakeLine))
  {
    TakeLineObeys(s);
    assert Delivered(Apply(s, TakeLine));
  }

  lemma NotifyDelivers(s: State, body: string)
    requires Delivered(s)
    ensures Delivered(Apply(s, Notify(body)))
  {
    var s' := Apply(s, Notify(body));
    var stream := Stream(s.log[|s.answers|..]);
    assert s.events + (s.toHost + [Event(body)]) == (s.events + s.toHost) + [Event(body)];
    assert stream + (s.since + [Event(body)]) == (stream + s.since) + [Event(body)];
  }

  lemma NotifyKeeps(s: State, body: string)
    requires Inv(s)
    ensures Inv(Apply(s, Notify(body)))
  {
    NotifyDelivers(s, body);
  }

  lemma UpdateKeeps(s: State, region: string)
    requires Inv(s) && s.phase.Running?
    ensures Inv(Apply(s, Update(region)))
  {
  }

  lemma FinishDelivers(s: State, body: string)
    requires Delivered(s) && s.phase.Updated?
    ensures Delivered(Apply(s, Finish(body)))
  {
    var rest, done := s.log[|s.answers|..], Done(s.phase.command, Answer(s.since, Reply(body)), s.region);
    assert (s.log + [done])[|s.answers|..] == rest + [done];
    StreamEnds(rest, done);
    assert s.events + (s.toHost + [Reply(body)]) == (s.events + s.toHost) + [Reply(body)];
    assert Stream(rest + [done]) + [] == Stream(rest + [done]);
  }

  lemma StreamEnds(log: seq<Done>, done: Done)
    ensures Stream(log + [done]) == Stream(log) + done.answer.events + [done.answer.reply]
  {
    assert (log + [done])[..|log|] == log;
  }

  lemma FinishKeeps(s: State, body: string)
    requires Inv(s) && s.phase.Updated?
    ensures Inv(Apply(s, Finish(body)))
  {
    FinishDelivers(s, body);
    var s' := Apply(s, Finish(body));
    assert Named(s'.log) == Named(s.log) + [s.phase.command];
    assert Named(s'.log) + [] == Named(s'.log);
  }

  lemma {:induction false} StreamStarts(log: seq<Done>)
    requires log != []
    ensures Stream(log) == log[0].answer.events + [log[0].answer.reply] + Stream(log[1..])
    decreases |log|
  {
    var n := |log| - 1;
    if n > 0 {
      StreamStarts(log[..n]);
      assert log[..n][1..] == log[1..][..n - 1];
    } else {
      assert log[..0] == [] && log[1..] == [];
    }
  }

  /** The first reply in a stream is the same one however the stream is put together. */
  lemma FirstReply(a: seq<Rec>, r: Rec, x: seq<Rec>, b: seq<Rec>, q: Rec, y: seq<Rec>)
    requires OnlyEvents(a) && OnlyEvents(b) && r.Reply? && q.Reply? && a + [r] + x == b + [q] + y
    ensures a == b && r == q && x == y
  {
    var s, t := a + [r] + x, b + [q] + y;
    assert s[|a|] == r && t[|b|] == q;
    if |a| != |b| {
      assert false;
    }
    assert a == s[..|a|] && b == s[..|b|];
    assert x == s[|a| + 1..] && y == s[|b| + 1..];
  }

  lemma ReceiveEventKeeps(s: State)
    requires Inv(s) && s.waiting && s.toHost != [] && s.toHost[0].Event?
    ensures Inv(Apply(s, Receive))
  {
    var s' := Apply(s, Receive);
    assert s'.events + s'.toHost == s.events + s.toHost;
  }

  lemma ReceiveReplyDelivers(s: State)
    requires Delivered(s) && s.waiting && s.toHost != [] && s.toHost[0].Reply?
    ensures Delivered(Apply(s, Receive))
  {
    var s', k := Apply(s, Receive), |s.answers|;
    var rest, r := s.log[k..], s.toHost[0];
    assert (s.events + s.toHost)[|s.events|] == r;
    if rest == [] {
      assert false;
    } else {
      StreamStarts(rest);
      var first := s.log[k].answer;
      assert rest[1..] == s.log[k + 1..];
      NextAnswer(s.events, r, s'.toHost, first, Stream(rest[1..]), s.since);
    }
  }

  lemma NextAnswer(events: seq<Rec>, r: Rec, toHost: seq<Rec>, first: Answer, stream: seq<Rec>, since: seq<Rec>)
    requires OnlyEvents(events) && OnlyEvents(first.events) && r.Reply? && first.reply.Reply?
    requires events + ([r] + toHost) == first.events + [first.reply] + stream + since
    ensures Answer(events, r) == first && toHost == stream + since
  {
    assert events + ([r] + toHost) == events + [r] + toHost;
    assert first.events + [first.reply] + stream + since == first.events + [first.reply] + (stream + since);
    FirstReply(events, r, toHost, first.events, first.reply, stream + since);
  }

  lemma ReceiveReplyKeeps(s: State)
    requires Inv(s) && s.waiting && s.toHost != [] && s.toHost[0].Reply?
    ensures Inv(Apply(s, Receive))
  {
    ReceiveReplyDelivers(s);
  }

  lemma StepKeepsInv(s: State, step: Step)
    requires Inv(s) && Enabled(s, step)
    ensures Inv(Apply(s, step))
  {
    match step
    case Send(line) => SendKeeps(s, line);
    case Receive => if s.toHost[0].Event? { ReceiveEventKeeps(s); } else { ReceiveReplyKeeps(s); }
    case TakeLine => TakeLineKeeps(s);
    case Notify(body) => NotifyKeeps(s, body);
    case Update(region) => UpdateKeeps(s, region);
    case Finish(body) => FinishKeeps(s, body);
  }

  // ---- whole runs ----

  predicate RunFrom(s: State, run: seq<Step>)
    decreases |run|
  {
    run == [] || (Enabled(s, run[0]) && RunFrom(Apply(s, run[0]), run[1..]))
  }

  function After(s: State, run: seq<Step>): State
    requires RunFrom(s, run)
    decreases |run|
  {
    if run == [] then s else After(Apply(s, run[0]), run[1..])
  }

  lemma {:induction false} RunKeepsInv(s: State, run: seq<Step>)
    requires Inv(s) && RunFrom(s, run)
    ensures Inv(After(s, run))
    decreases |run|
  {
    if run != [] {
      StepKeepsInv(s, run[0]);
      RunKeepsInv(Apply(s, run[0]), run[1..]);
    }
  }

  /** Whatever is sent, and however the two sides interleave: the k-th answer is the reply to the k-th command
      in the bytes sent, with exactly the typed records sent since the reply before. */
  lemma AnswersFollowCommands(region: string, run: seq<Step>, k: nat)
    requires RunFrom(Start(region), run) && k < |After(Start(region), run).answers|
    ensures var s := After(Start(region), run);
      k < |s.log| && s.answers[k] == s.log[k].answer
      && k < |Commands(s.sent)| && s.log[k].command == Commands(s.sent)[k]
  {
    var s := After(Start(region), run);
    RunKeepsInv(Start(region), run);
    SomesOfBoth(s.taken, s.toGuest);
    assert Commanded(s)[k] == s.log[k].command;
  }

  /** What was done for a line, and what the host was told. */
  predicate Answers(done: Done, line: string, answer: Answer) { [done.command] == Somes(Meant(line)) && done.answer == answer }

  /** When every line sent is answered once, the k-th answer is the k-th line's. */
  lemma LockStep(region: string, run: seq<Step>, k: nat)
    requires RunFrom(Start(region), run) && k < |After(Start(region), run).answers|
    requires AllAnsweredOnce(After(Start(region), run).sent)
    ensures var s := After(Start(region), run);
      k < |s.log| && k < |s.sent| && Answers(s.log[k], s.sent[k], s.answers[k])
  {
    var s := After(Start(region), run);
    RunKeepsInv(Start(region), run);
    OneCommandEach(s.sent);
    AnswersFollowCommands(region, run, k);
    assert AnsweredOnce(s.sent[k]);
  }

  /** Between commands the cli is then waiting with no command unread, and the region is what the last one left. */
  lemma BetweenCommands(region: string, run: seq<Step>)
    requires RunFrom(Start(region), run) && !After(Start(region), run).waiting
    requires AllAnsweredOnce(After(Start(region), run).sent)
    ensures var s := After(Start(region), run);
      s.phase.Idle? && Somes(s.toGuest) == [] && |s.log| == |s.sent| && (s.sent != [] ==> s.region == s.log[|s.sent| - 1].region)
  {
    var s := After(Start(region), run);
    RunKeepsInv(Start(region), run);
    OneCommandEach(s.sent);
    NoneUnread(s);
  }

  lemma NoneUnread(s: State)
    requires Inv(s) && !s.waiting && |Commands(s.sent)| == |s.sent|
    ensures s.phase.Idle? && |s.log| == |s.sent| && Somes(s.toGuest) == []
  {
    SomesOfBoth(s.taken, s.toGuest);
    assert |Commanded(s)| + |Somes(s.toGuest)| == |s.sent|;
  }

  // ---- and only then ----

  /** Nothing in flight can answer the host. */
  predicate Hung(s: State) {
    && s.waiting && s.phase.Idle? && Somes(s.toGuest) == []
    && OnlyEvents(s.toHost)
  }

  lemma StepKeepsHung(s: State, step: Step)
    requires Hung(s) && Enabled(s, step)
    ensures Hung(Apply(s, step))
  {
    if step.TakeLine? {
      assert s.toGuest == [s.toGuest[0]] + s.toGuest[1..];
      SomesOfBoth([s.toGuest[0]], s.toGuest[1..]);
      SomesOfOne(s.toGuest[0]);
    }
  }

  lemma {:induction false} HungStays(s: State, run: seq<Step>)
    requires Hung(s) && RunFrom(s, run)
    ensures Hung(After(s, run))
    decreases |run|
  {
    if run != [] {
      StepKeepsHung(s, run[0]);
      HungStays(Apply(s, run[0]), run[1..]);
    }
  }

  lemma SendHangs(s: State, line: string)
    requires Inv(s) && !s.waiting && |Commands(s.sent)| == |s.sent| && Somes(Meant(line)) == []
    ensures Hung(Apply(s, Send(line)))
  {
    NoneUnread(s);
    SomesOfBoth(s.toGuest, Meant(line));
    assert |s.answers| == |s.log|;
    assert s.log[|s.answers|..] == [];
    assert s.events + s.toHost == [] + s.since;
    assert [] + s.since == s.since && [] + s.toHost == s.toHost;
  }

  /** Sent where every line before was answered, a line that holds no command is never answered, however the two
      sides run on: the host reads on until its read times out. */
  lemma UnansweredHangs(region: string, run: seq<Step>, line: string, on: seq<Step>)
    requires RunFrom(Start(region), run) && !After(Start(region), run).waiting
    requires AllAnsweredOnce(After(Start(region), run).sent) && Somes(Meant(line)) == []
    requires RunFrom(Apply(After(Start(region), run), Send(line)), on)
    ensures After(Apply(After(Start(region), run), Send(line)), on).waiting
  {
    var s := After(Start(region), run);
    RunKeepsInv(Start(region), run);
    OneCommandEach(s.sent);
    SendHangs(s, line);
    HungStays(Apply(s, Send(line)), on);
  }

  /** A line with two commands shifts every later answer: the next line's is the second command's. */
  lemma SecondCommandAnswersTheNextLine(region: string, run: seq<Step>, k: nat)
    requires RunFrom(Start(region), run) && k + 1 < |After(Start(region), run).answers|
    requires var s := After(Start(region), run);
      k < |s.sent| && AllAnsweredOnce(s.sent[..k]) && |Somes(Meant(s.sent[k]))| >= 2
    ensures var s := After(Start(region), run);
      k + 1 < |s.log| && s.answers[k + 1] == s.log[k + 1].answer && s.log[k + 1].command == Somes(Meant(s.sent[k]))[1]
  {
    var s := After(Start(region), run);
    AnswersFollowCommands(region, run, k + 1);
    OneCommandEach(s.sent[..k]);
    CommandsFrom(s.sent, k);
  }

  lemma CommandsGrow(sent: seq<string>)
    requires sent != []
    ensures Commands(sent) == Commands(sent[..|sent| - 1]) + Somes(Meant(sent[|sent| - 1]))
  {
    SomesOfBoth(AllMeant(sent[..|sent| - 1]), Meant(sent[|sent| - 1]));
  }

  lemma {:induction false} CommandsOfPrefix(sent: seq<string>, n: nat)
    requires n <= |sent|
    ensures Commands(sent[..n]) <= Commands(sent)
    decreases |sent|
  {
    if n < |sent| {
      CommandsGrow(sent);
      CommandsOfPrefix(sent[..|sent| - 1], n);
      assert sent[..|sent| - 1][..n] == sent[..n];
    } else {
      assert sent[..n] == sent;
    }
  }

  lemma CommandsFrom(sent: seq<string>, k: nat)
    requires k < |sent|
    ensures Commands(sent[..k]) + Somes(Meant(sent[k])) <= Commands(sent)
  {
    CommandsOfPrefix(sent, k + 1);
    CommandsGrow(sent[..k + 1]);
    assert sent[..k + 1][..k] == sent[..k];
  }
}
