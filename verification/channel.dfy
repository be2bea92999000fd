/** The whole channel: host, bytes in flight, receive ring, cli and transmit pool together (kmod/io.c,
    kmod/cli.c, crates/kstep/src/session.rs). The lock-step protocol is what it comes to, and in lock step the
    ring never overflows. */
module Channel {
  import opened Lines
  import opened Ring
  import opened Receiver
  import opened Session
  import opened TxPool

  /** typed says of a record's text whether the host will find a type in it. fly is written and not yet delivered,
      ring delivered and not yet read, consumed the stream that the cli has read. */
  datatype Wire = Wire(
    typed: string -> bool,
    sent: seq<string>, waiting: bool, events: seq<Rec>, answers: seq<Answer>,
    fly: string, ring: string, consumed: string,
    memory: seq<string>, free: seq<int>, pending: seq<int>, used: seq<int>,
    phase: Phase, since: seq<Rec>, log: seq<Done>, region: string)

  datatype Move =
    | Say(line: string)       // the host writes a line
    | Deliver(n: nat)         // rx_done, for a buffer of n bytes
    | TakeByte                // one turn of kstep_io_readline
    | Tell(data: string)      // a hook writes a typed record
    | Rewrite(region: string) // kstep_shm_update
    | Respond(data: string)   // the reply is written
    | Hear                    // the host reads a record

  function RecOf(typed: string -> bool, data: string): Rec { if typed(data) then Event(data) else Reply(data) }

  predicate CanMove(w: Wire, move: Move) {
    match move
    case Say(_) => !w.waiting
    case Deliver(n) => n <= |w.fly|
    case TakeByte => w.phase.Idle? && w.ring != ""
    case Tell(data) => w.typed(data)
    case Rewrite(_) => w.phase.Running?
    case Respond(data) => w.phase.Updated? && !w.typed(data)
    case Hear => w.waiting && w.pending != []
  }

  predicate InMemory(w: Wire) { forall i :: 0 <= i < |w.pending| ==> 0 <= w.pending[i] < |w.memory| }

  /** kstep_io_write; None where it panics. */
  function Push(w: Wire, data: string): Option<Wire>
    requires |w.memory| == TX_BUFS && InPool(w.free) && InPool(w.used)
  {
    var free := if w.free == [] then w.used else w.free;
    var used := if w.free == [] then [] else w.used;
    if |data| > TX_BUF || free == [] then None
    else
      var buf := free[|free| - 1];
      Some(w.(memory := w.memory[buf := data], free := free[..|free| - 1], pending := w.pending + [buf], used := used))
  }

  /** None where the guest panics. */
  function Moved(w: Wire, move: Move): Option<Wire>
    requires WireOk(w) && CanMove(w, move)
  {
    match move
    case Say(line) =>
      Some(w.(sent := w.sent + [line], waiting := true, events := [], fly := w.fly + (line + "\n")))
    case Deliver(n) =>
      if |w.ring| + n > RX_RING then None else Some(w.(ring := w.ring + w.fly[..n], fly := w.fly[n..]))
    case TakeByte =>
      var command := if w.ring[0] == '\n' then Command(Split(w.consumed).1) else None;
      Some(w.(consumed := w.consumed + [w.ring[0]], ring := w.ring[1..],
              phase := if command.Some? then Running(command.value) else Idle))
    case Tell(data) =>
      var pushed := Push(w, data);
      if pushed.None? then None else Some(pushed.value.(since := w.since + [Event(data)]))
    case Rewrite(region) => Some(w.(region := region, phase := Updated(w.phase.command)))
    case Respond(data) =>
      var pushed := Push(w, data);
      if pushed.None? then None
      else
        Some(pushed.value.(log := w.log + [Done(w.phase.command, Answer(w.since, Reply(data)), w.region)],
                           since := [], phase := Idle))
    case Hear =>
      var r := RecOf(w.typed, w.memory[w.pending[0]]);
      var w1 := w.(pending := w.pending[1..], used := w.used + [w.pending[0]]);
      Some(if r.Event? then w1.(events := w.events + [r])
           else w1.(answers := w.answers + [Answer(w.events, r)], events := [], waiting := false))
  }

  /** The pool is whole, and the stream is what the host wrote. */
  ghost predicate WireInv(w: Wire) {
    WireOk(w) && Written(w.sent) == w.consumed + w.ring + w.fly && |w.ring| <= RX_RING
  }

  ghost predicate WireOk(w: Wire) { |w.memory| == TX_BUFS && Partition(w.free, w.pending, w.used) }

  // ---- it is the protocol ----

  function Lined(w: Wire): seq<string> { Split(w.consumed + w.ring + w.fly).0 }

  function Unheard(w: Wire): seq<Rec>
    requires InMemory(w)
  {
    seq(|w.pending|, i requires 0 <= i < |w.pending| && InMemory(w) => RecOf(w.typed, w.memory[w.pending[i]]))
  }

  /** What the two sides see of each other: lines and records. */
  ghost function Seen(w: Wire): Session.State
    requires WireInv(w)
  {
    ReadIsPrefix(w);
    Session.State.State(w.sent, w.waiting, w.events, w.answers,
      MeantBy(Lined(w)[|Split(w.consumed).0|..]), Unheard(w),
      MeantBy(Split(w.consumed).0), w.phase, w.since, w.log, w.region)
  }

  lemma {:induction false} SplitOfPrefix(s: string, t: string)
    ensures Split(s).0 <= Split(s + t).0
    ensures t != "" && t[0] == '\n' ==> Split(s).0 + [Split(s).1] <= Split(s + t).0
    decreases |t|
  {
    if t == "" {
      assert s + t == s;
    } else {
      var n := |t| - 1;
      SplitOfPrefix(s, t[..n]);
      assert (s + t)[..|s + t| - 1] == s + t[..n];
      if n == 0 {
        assert s + t[..0] == s;
      }
    }
  }

  lemma ReadIsPrefix(w: Wire)
    ensures Split(w.consumed).0 <= Lined(w)
  {
    SplitOfPrefix(w.consumed, w.ring + w.fly);
    assert w.consumed + (w.ring + w.fly) == w.consumed + w.ring + w.fly;
  }

  /** The protocol's step that a move is, if any. */
  function Means(w: Wire, move: Move): Option<Session.Step>
    requires CanMove(w, move)
  {
    match move
    case Say(line) => Some(Send(line))
    case Deliver(_) => None
    case TakeByte => if w.ring[0] == '\n' then Some(TakeLine) else None
    case Tell(data) => Some(Notify(data))
    case Rewrite(region) => Some(Update(region))
    case Respond(data) => Some(Finish(data))
    case Hear => Some(Receive)
  }

  ghost predicate Follows(w: Wire, move: Move, w': Wire)
    requires WireInv(w) && CanMove(w, move)
  {
    && WireInv(w')
    && var step := Means(w, move);
       if step.None? then Seen(w') == Seen(w)
       else Session.Enabled(Seen(w), step.value) && Session.Apply(Seen(w), step.value) == Seen(w')
  }

  lemma SayFollows(w: Wire, line: string)
    requires WireInv(w) && CanMove(w, Say(line))
    ensures Follows(w, Say(line), Moved(w, Say(line)).value)
  {
    var w' := Moved(w, Say(line)).value;
    var s, n := w.consumed + w.ring + w.fly, |Split(w.consumed).0|;
    assert w.consumed + w.ring + (w.fly + (line + "\n")) == s + (line + "\n");
    assert (w.sent + [line])[..|w.sent|] == w.sent;
    BytesMeanLines(w.sent);
    SplitOfBoth(s, line + "\n");
    ReadIsPrefix(w);
    var more := Split(line + "\n").0;
    assert (Lined(w) + more)[n..] == Lined(w)[n..] + more;
    MeantByBoth(Lined(w)[n..], more);
  }

  lemma DeliverFollows(w: Wire, n: nat)
    requires WireInv(w) && CanMove(w, Deliver(n)) && Moved(w, Deliver(n)).Some?
    ensures Follows(w, Deliver(n), Moved(w, Deliver(n)).value)
  {
    assert w.fly == w.fly[..n] + w.fly[n..];
    assert w.consumed + (w.ring + w.fly[..n]) + w.fly[n..] == w.consumed + w.ring + w.fly;
  }

  lemma TakeByteKeeps(w: Wire)
    requires WireInv(w) && CanMove(w, TakeByte)
    ensures var w' := Moved(w, TakeByte).value;
      && WireInv(w') && Lined(w') == Lined(w) && Unheard(w') == Unheard(w)
      && Split(w'.consumed).0 == Split(w.consumed).0 + (if w.ring[0] == '\n' then [Split(w.consumed).1] else [])
      && Split(w'.consumed).0 <= Lined(w)
  {
    var w' := Moved(w, TakeByte).value;
    assert (w.consumed + [w.ring[0]])[..|w.consumed|] == w.consumed;
    assert w.ring == [w.ring[0]] + w.ring[1..];
    assert w'.consumed + w'.ring + w'.fly == w.consumed + w.ring + w.fly;
    ReadIsPrefix(w');
  }

  lemma NextLine(lines: seq<string>, done: seq<string>, line: string)
    requires done + [line] <= lines
    ensures MeantBy(lines[|done|..]) == [Command(line)] + MeantBy(lines[|done| + 1..])
    ensures MeantBy(done + [line]) == MeantBy(done) + [Command(line)]
  {
    assert lines[|done|] == (done + [line])[|done|] == line;
    assert lines[|done|..] == [line] + lines[|done| + 1..];
  }

  lemma TakeByteFollows(w: Wire)
    requires WireInv(w) && CanMove(w, TakeByte)
    ensures Follows(w, TakeByte, Moved(w, TakeByte).value)
  {
    TakeByteKeeps(w);
    var w' := Moved(w, TakeByte).value;
    var before := Split(w.consumed);
    if w.ring[0] == '\n' {
      NextLine(Lined(w), before.0, before.1);
      assert Session.Apply(Seen(w), TakeLine).toGuest == Seen(w').toGuest;
      assert Session.Apply(Seen(w), TakeLine).taken == Seen(w').taken;
    } else {
      assert before.0 + [] == before.0;
      assert Seen(w').taken == Seen(w).taken;
    }
  }

  /** A record panics exactly when it is too long, or when every buffer is in flight; else it goes behind those
      in flight and changes none of them. */
  lemma PushAdds(w: Wire, data: string)
    requires WireOk(w)
    ensures Push(w, data).Some? <==> |data| <= TX_BUF && |w.pending| < TX_BUFS
    ensures Push(w, data).Some? ==> var w' := Push(w, data).value;
      WireOk(w') && Unheard(w') == Unheard(w) + [RecOf(w.typed, data)]
  {
    var free := if w.free == [] then w.used else w.free;
    var used := if w.free == [] then [] else w.used;
    assert Partition(free, w.pending, used);
    if Push(w, data).Some? {
      WriteKeeps(free, w.pending, used);
      var w' := Push(w, data).value;
      forall i | 0 <= i < |w.pending|
        ensures w'.memory[w.pending[i]] == w.memory[w.pending[i]]
      {
        assert w.pending[i] in w.pending;
      }
      assert Unheard(w') == Unheard(w) + [RecOf(w.typed, data)];
    }
  }

  lemma TellFollows(w: Wire, data: string)
    requires WireInv(w) && CanMove(w, Tell(data)) && Moved(w, Tell(data)).Some?
    ensures Follows(w, Tell(data), Moved(w, Tell(data)).value)
  {
    PushAdds(w, data);
    var w' := Moved(w, Tell(data)).value;
    assert Unheard(w') == Unheard(Push(w, data).value);
  }

  lemma RespondFollows(w: Wire, data: string)
    requires WireInv(w) && CanMove(w, Respond(data)) && Moved(w, Respond(data)).Some?
    ensures Follows(w, Respond(data), Moved(w, Respond(data)).value)
  {
    PushAdds(w, data);
    var w' := Moved(w, Respond(data)).value;
    assert Unheard(w') == Unheard(Push(w, data).value);
  }

  lemma HearFollows(w: Wire)
    requires WireInv(w) && CanMove(w, Hear)
    ensures Follows(w, Hear, Moved(w, Hear).value)
  {
    HostReturns(w.free, w.pending, w.used);
    var w' := Moved(w, Hear).value;
    assert Unheard(w') == Unheard(w)[1..];
  }

  /** Every move that is no panic is a step of the protocol, or is invisible to it. */
  lemma MoveFollows(w: Wire, move: Move)
    requires WireInv(w) && CanMove(w, move) && Moved(w, move).Some?
    ensures Follows(w, move, Moved(w, move).value)
  {
    match move
    case Say(line) => SayFollows(w, line);
    case Deliver(n) => DeliverFollows(w, n);
    case TakeByte => TakeByteFollows(w);
    case Tell(data) => TellFollows(w, data);
    case Rewrite(_) =>
    case Respond(data) => RespondFollows(w, data);
    case Hear => HearFollows(w);
  }

  // ---- whole runs ----

  /** Moves that can be made one after another without a panic. */
  ghost predicate Runs(w: Wire, moves: seq<Move>)
    requires WireInv(w)
    decreases |moves|
  {
    moves == [] ||
    (CanMove(w, moves[0]) && Moved(w, moves[0]).Some? &&
     (MoveFollows(w, moves[0]); Runs(Moved(w, moves[0]).value, moves[1..])))
  }

  ghost function AfterMoves(w: Wire, moves: seq<Move>): (w': Wire)
    requires WireInv(w) && Runs(w, moves)
    ensures WireInv(w')
    decreases |moves|
  {
    if moves == [] then w
    else
      MoveFollows(w, moves[0]);
      AfterMoves(Moved(w, moves[0]).value, moves[1..])
  }

  function Boot(typed: string -> bool, region: string): Wire {
    Wire(typed, [], false, [], [], "", "", "", seq(TX_BUFS, _ => ""), seq(TX_BUFS, i => i), [], [], Idle, [], [], region)
  }

  lemma BootIsOk(typed: string -> bool, region: string)
    ensures WireInv(Boot(typed, region)) && Seen(Boot(typed, region)) == Start(region)
  {
    var w := Boot(typed, region);
    assert w.consumed + w.ring + w.fly == "";
    assert Lined(w) == [];
  }

  /** The protocol's steps behind a run. */
  ghost predicate Shows(w: Wire, moves: seq<Move>, steps: seq<Session.Step>)
    requires WireInv(w) && Runs(w, moves)
  {
    Session.RunFrom(Seen(w), steps) && Session.After(Seen(w), steps) == Seen(AfterMoves(w, moves))
  }

  /** Every run of the whole channel is a run of the protocol. */
  lemma {:induction false} RunIsASession(w: Wire, moves: seq<Move>) returns (steps: seq<Session.Step>)
    requires WireInv(w) && Runs(w, moves)
    ensures Shows(w, moves, steps)
    decreases |moves|
  {
    if moves == [] {
      steps := [];
    } else {
      MoveFollows(w, moves[0]);
      var w1, step := Moved(w, moves[0]).value, Means(w, moves[0]);
      var rest := RunIsASession(w1, moves[1..]);
      if step.None? {
        steps := rest;
      } else {
        steps := [step.value] + rest;
        assert steps[1..] == rest;
      }
    }
  }

  /** So over bytes, buffers and a ring that wraps: the k-th answer is the k-th line's, with exactly the records
      written since the reply before, for as long as nothing panics. */
  lemma ChannelLockStep(typed: string -> bool, region: string, moves: seq<Move>, k: nat)
    requires WireInv(Boot(typed, region)) && Runs(Boot(typed, region), moves)
    requires var w := AfterMoves(Boot(typed, region), moves); k < |w.answers| && AllAnsweredOnce(w.sent)
    ensures var w := AfterMoves(Boot(typed, region), moves);
      k < |w.log| && k < |w.sent| && Answers(w.log[k], w.sent[k], w.answers[k])
  {
    BootIsOk(typed, region);
    var steps := RunIsASession(Boot(typed, region), moves);
    LockStep(region, steps, k);
  }

  /** And between commands the region is what the last line's command left. */
  lemma ChannelBetweenCommands(typed: string -> bool, region: string, moves: seq<Move>)
    requires WireInv(Boot(typed, region)) && Runs(Boot(typed, region), moves)
    requires var w := AfterMoves(Boot(typed, region), moves); !w.waiting && AllAnsweredOnce(w.sent)
    ensures var w := AfterMoves(Boot(typed, region), moves);
      w.phase.Idle? && |w.log| == |w.sent| && (w.sent != [] ==> w.region == w.log[|w.sent| - 1].region)
  {
    BootIsOk(typed, region);
    var steps := RunIsASession(Boot(typed, region), moves);
    BetweenCommands(region, steps);
  }

  // ---- the only panics ----

  /** A line as the host's callers write it: one command, and shorter than the ring. */
  predicate Plain(line: string) { '\n' !in line && Command(line).Some? && |line| < RX_RING }

  predicate AllPlain(lines: seq<string>) { forall k :: 0 <= k < |lines| ==> Plain(lines[k]) }

  /** Nothing but the line that waits for its answer is on the way. */
  predicate OneLine(w: Wire) {
    if w.waiting then w.sent != [] && |w.ring| + |w.fly| <= |w.sent[|w.sent| - 1]| + 1 else w.ring == "" && w.fly == ""
  }

  ghost predicate InStep(w: Wire) { WireInv(w) && Session.Inv(Seen(w)) && AllPlain(w.sent) && OneLine(w) }

  lemma {:induction false} AllMeantOnce(sent: seq<string>)
    requires AllPlain(sent)
    ensures AllAnsweredOnce(sent) && |AllMeant(sent)| == |sent|
    decreases |sent|
  {
    if sent != [] {
      var n := |sent| - 1;
      AllMeantOnce(sent[..n]);
      PlainLine(sent[n]);
      SplitAppends("", sent[n]);
      assert "" + sent[n] + "\n" == sent[n] + "\n";
      forall k | 0 <= k < |sent|
        ensures AnsweredOnce(sent[k])
      {
        PlainLine(sent[k]);
      }
    }
  }

  /** Once answered, everything written has been read. */
  lemma AnsweredIsDrained(w: Wire)
    requires WireInv(w) && Session.Inv(Seen(w)) && AllPlain(w.sent) && !w.waiting
    ensures w.ring == "" && w.fly == ""
  {
    var s := Seen(w);
    AllMeantOnce(w.sent);
    OneCommandEach(w.sent);
    NoneUnread(s);
    ReadIsPrefix(w);
    SomesAreFew(s.taken);
    assert |s.taken| + |s.toGuest| == |AllMeant(w.sent)|;
    assert |Somes(s.taken)| == |w.sent|;
    assert Lined(w) == Split(w.consumed).0;
    BytesMeanLines(w.sent);
    SplitIsFaithful(w.consumed + w.ring + w.fly);
    SplitIsFaithful(w.consumed);
    assert |w.consumed + w.ring + w.fly| == |Lines.Join(Lined(w))|;
  }

  lemma {:induction false} SomesAreFew(cs: seq<Option<string>>)
    ensures |Somes(cs)| <= |cs|
    decreases |cs|
  {
    if cs != [] {
      SomesAreFew(cs[..|cs| - 1]);
    }
  }

  lemma OneLineStays(w: Wire, move: Move)
    requires WireOk(w) && OneLine(w) && AllPlain(w.sent) && CanMove(w, move) && Moved(w, move).Some? && (move.Say? ==> Plain(move.line))
    ensures var w' := Moved(w, move).value;
      AllPlain(w'.sent) && (w'.waiting ==> OneLine(w'))
  {}

  lemma InvFollows(w: Wire, move: Move)
    requires WireInv(w) && Session.Inv(Seen(w)) && CanMove(w, move) && Moved(w, move).Some?
    ensures WireInv(Moved(w, move).value) && Session.Inv(Seen(Moved(w, move).value))
  {
    MoveFollows(w, move);
    if Means(w, move).Some? {
      Session.StepKeepsInv(Seen(w), Means(w, move).value);
    }
  }

  lemma MoveKeepsStep(w: Wire, move: Move)
    requires InStep(w) && CanMove(w, move) && Moved(w, move).Some? && (move.Say? ==> Plain(move.line))
    ensures InStep(Moved(w, move).value)
  {
    InvFollows(w, move);
    OneLineStays(w, move);
    if !Moved(w, move).value.waiting {
      AnsweredIsDrained(Moved(w, move).value);
    }
  }

  /** In lock step a move panics exactly when it writes a record that is too long or finds every buffer still
      unread by the host: the receive ring never overflows. */
  lemma PanicsExactly(w: Wire, move: Move)
    requires InStep(w) && CanMove(w, move)
    ensures Moved(w, move).None? <==> (move.Tell? || move.Respond?) && (|move.data| > TX_BUF || |w.pending| == TX_BUFS)
  {
    if move.Tell? || move.Respond? {
      PushAdds(w, move.data);
    } else if move.Deliver? && w.waiting {
      assert Plain(w.sent[|w.sent| - 1]);
    }
  }

  /** And the host's one line at a time keeps it in lock step along every run. */
  lemma {:induction false} RunsStayInStep(w: Wire, moves: seq<Move>)
    requires InStep(w) && Runs(w, moves) && forall i :: 0 <= i < |moves| && moves[i].Say? ==> Plain(moves[i].line)
    ensures InStep(AfterMoves(w, moves))
    decreases |moves|
  {
    if moves != [] {
      MoveFollows(w, moves[0]);
      MoveKeepsStep(w, moves[0]);
      RunsStayInStep(Moved(w, moves[0]).value, moves[1..]);
    }
  }

  lemma BootIsInStep(typed: string -> bool, region: string)
    ensures InStep(Boot(typed, region))
  {
    BootIsOk(typed, region);
    assert Session.Inv(Start(region));
  }
}
