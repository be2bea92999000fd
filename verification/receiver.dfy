/** The channel's receiving side (kmod/io.c): a byte ring between the interrupt that fills it and the
    controller that reads lines from it. */
module Receiver {
  import opened Lines
  import opened Ring

  const RX_RING := 4096

  /** What may happen next: a buffer of bytes arrives, or the reader runs once round its loop. */
  datatype Event = Arrive(bytes: string) | Read

  /** Of consumed, the reader with a buffer of max has returned lines, and holds line. */
  ghost predicate HasRead(consumed: string, max: nat, lines: seq<string>, line: string) {
    max > 0 && lines == CutAll(Split(consumed).0, max) && line == Cut(Split(consumed).1, max)
  }

  lemma ReadsOn(consumed: string, max: nat, lines: seq<string>, line: string, c: char)
    requires HasRead(consumed, max, lines, line)
    ensures HasRead(consumed + [c], max, if c == '\n' then lines + [line] else lines,
      if c == '\n' then "" else if |line| + 1 < max then line + [c] else line)
  {
    assert (consumed + [c])[..|consumed|] == consumed;
  }

  class Receiver {
    const ring: Ring<char>
    const max: nat                // the reader's buffer
    var line: string              // what it holds so far
    var lines: seq<string>        // what kstep_io_readline has returned
    ghost var received: string
    ghost var consumed: string

    ghost predicate Valid()
      reads this, ring, ring.slots
    {
      && ring.Valid() && ring.slots.Length == RX_RING
      && received == consumed + ring.Contents()
      && HasRead(consumed, max, lines, line)
    }

    constructor (max: nat)
      requires max > 0
      ensures Valid() && received == "" && lines == [] && this.max == max
      ensures fresh(ring) && fresh(ring.slots)
    {
      this.max := max;
      ring := new Ring<char>(RX_RING, '\0');
      line, lines, received, consumed := "", [], "", "";
    }

    /** rx_done, for one buffer; false where it panics for overflow. */
    method RxDone(bytes: string) returns (ok: bool)
      requires Valid()
      modifies ring, ring.slots, this`received
      ensures Valid()
      ensures ok <==> |old(ring.Contents())| + |bytes| <= RX_RING
      ensures ok ==> received == old(received) + bytes && ring.Contents() == old(ring.Contents()) + bytes
      ensures consumed == old(consumed)
    {
      for i := 0 to |bytes|
        invariant Valid() && received == old(received) + bytes[..i]
        invariant ring.Contents() == old(ring.Contents()) + bytes[..i] && consumed == old(consumed)
      {
        ok := Arrives(bytes[i]);
        if !ok {
          return;
        }
        assert bytes[..i] + [bytes[i]] == bytes[..i + 1];
        assert old(received) + bytes[..i] + [bytes[i]] == old(received) + bytes[..i + 1];
        assert old(ring.Contents()) + bytes[..i] + [bytes[i]] == old(ring.Contents()) + bytes[..i + 1];
      }
      assert bytes[..|bytes|] == bytes;
      ok := true;
    }

    method Arrives(c: char) returns (ok: bool)
      requires Valid()
      modifies ring, ring.slots, this`received
      ensures Valid()
      ensures ok <==> |old(ring.Contents())| < RX_RING
      ensures ok ==> received == old(received) + [c] && ring.Contents() == old(ring.Contents()) + [c]
    {
      ok := ring.Put(c);
      if ok {
        received := received + [c];
      }
    }

    /** One byte of kstep_io_readline's loop; false where it goes to sleep for want of one. */
    method ReadByte() returns (ok: bool)
      requires Valid()
      modifies ring, this`line, this`lines, this`consumed
      ensures Valid()
      ensures ok <==> old(ring.Contents()) != ""
      ensures consumed == if ok then old(consumed) + [old(ring.Contents()[0])] else old(consumed)
      ensures ring.Contents() == if ok then old(ring.Contents())[1..] else ""
    {
      ghost var waiting := ring.Contents();
      var c := ring.Take();
      if c.None? {
        return false;
      }
      assert waiting == [c.value] + ring.Contents();
      assert consumed + waiting == (consumed + [c.value]) + ring.Contents();
      Accept(c.value);
      ok := true;
    }

    method Accept(c: char)
      requires HasRead(consumed, max, lines, line)
      modifies this`line, this`lines, this`consumed
      ensures HasRead(consumed, max, lines, line) && consumed == old(consumed) + [c]
    {
      ReadsOn(consumed, max, lines, line, c);
      consumed := consumed + [c];
      if c != '\n' && |line| + 1 < max {
        line := line + [c];
      }
      if c == '\n' {
        lines := lines + [line];
        line := "";
      }
    }

    method Turn(event: Event) returns (ok: bool)
      requires Valid()
      modifies this`line, this`lines, this`consumed, this`received, ring, ring.slots
      ensures Valid()
      ensures ok <==> Serve(old(ring.Contents()), event).Some?
      ensures ok ==> received == old(received) + Bytes(event)
      ensures ok ==> var (taken, left) := Serve(old(ring.Contents()), event).value;
        consumed == old(consumed) + taken && ring.Contents() == left
    {
      match event {
        case Arrive(bytes) =>
          ok := RxDone(bytes);
          assert consumed + "" == consumed;
        case Read =>
          var had := ReadByte();
          assert received + "" == received;
          assert consumed + "" == consumed;
          ok := true;
      }
    }

    /** However the bytes arrive and whenever the reader runs: no byte is lost until the ring overflows, which it
        does exactly where more bytes have come than the reader's turns and the ring could take; the reader has
        had, in order, a byte for each turn that found one; and the lines it returns are those of what it has
        had, each cut to its buffer. */
    method Run(events: seq<Event>) returns (ok: bool)
      requires Valid()
      modifies this, ring, ring.slots
      ensures Valid()
      ensures ok <==> Played(old(ring.Contents()), events).Some?
      ensures ok ==> received == old(received) + Arrived(events)
      ensures ok ==> var (taken, left) := Played(old(ring.Contents()), events).value;
        consumed == old(consumed) + taken && ring.Contents() == left && lines == CutAll(Split(consumed).0, max)
    {
      ghost var waiting, had, got := ring.Contents(), consumed, received;
      ghost var taken, left, came := "", waiting, "";
      for i := 0 to |events|
        invariant Valid() && ring.Contents() == left && consumed == had + taken && received == got + came
        invariant Played(waiting, events[..i]) == Some((taken, left)) && Arrived(events[..i]) == came
      {
        OneMoreTurn(waiting, events, i, taken, left, came);
        ok := Turn(events[i]);
        if !ok {
          return;
        }
        ghost var next := Serve(left, events[i]).value;
        Reassociate(had, taken, next.0);
        Reassociate(got, came, Bytes(events[i]));
        taken, left, came := taken + next.0, next.1, came + Bytes(events[i]);
      }
      assert events[..|events|] == events;
      ok := true;
    }
  }

  lemma Reassociate(a: string, b: string, c: string)
    ensures (a + b) + c == a + (b + c)
  {}

  lemma OneMoreTurn(waiting: string, events: seq<Event>, i: nat, taken: string, left: string, came: string)
    requires i < |events| && Played(waiting, events[..i]) == Some((taken, left)) && Arrived(events[..i]) == came
    ensures var next := Serve(left, events[i]);
      if next.None? then Played(waiting, events).None?
      else Played(waiting, events[..i + 1]) == Some((taken + next.value.0, next.value.1))
    ensures Arrived(events[..i + 1]) == came + Bytes(events[i])
  {
    assert events[..i + 1][..i] == events[..i];
    if Serve(left, events[i]).None? {
      OverflowStays(waiting, events, i + 1);
    }
  }

  function Bytes(event: Event): string { if event.Arrive? then event.bytes else "" }

  /** What one turn takes of what waits, and what it leaves; None for an overflow. */
  function Serve(left: string, event: Event): Option<(string, string)> {
    match event
    case Arrive(bytes) => if |left| + |bytes| <= RX_RING then Some(("", left + bytes)) else None
    case Read => if left == "" then Some(("", "")) else Some(([left[0]], left[1..]))
  }

  /** What the reader's turns take of what waited and what comes, and what they leave; None for an overflow. */
  function Played(waiting: string, events: seq<Event>): (r: Option<(string, string)>)
    decreases |events|
  {
    if events == [] then Some(("", waiting))
    else
      var before := Played(waiting, events[..|events| - 1]);
      if before.None? then None
      else
        var next := Serve(before.value.1, events[|events| - 1]);
        if next.None? then None else Some((before.value.0 + next.value.0, next.value.1))
  }

  lemma {:induction false} OverflowStays(waiting: string, events: seq<Event>, n: nat)
    requires n <= |events| && Played(waiting, events[..n]).None?
    ensures Played(waiting, events).None?
    decreases |events|
  {
    if n < |events| {
      assert events[..|events| - 1][..n] == events[..n];
      OverflowStays(waiting, events[..|events| - 1], n);
    } else {
      assert events[..n] == events;
    }
  }

  /** Nothing is made up and nothing lost on the way. */
  lemma {:induction false} PlayedKeepsBytes(waiting: string, events: seq<Event>)
    requires Played(waiting, events).Some?
    ensures var (taken, left) := Played(waiting, events).value;
      waiting + Arrived(events) == taken + left && |left| <= (if |waiting| > RX_RING then |waiting| else RX_RING)
    decreases |events|
  {
    if events == [] {
      assert waiting + "" == "" + waiting;
    } else {
      var n := |events| - 1;
      PlayedKeepsBytes(waiting, events[..n]);
      var (taken, left) := Played(waiting, events[..n]).value;
      var (more, rest) := Serve(left, events[n]).value;
      assert left + Bytes(events[n]) == more + rest;
      assert waiting + (Arrived(events[..n]) + Bytes(events[n])) == (waiting + Arrived(events[..n])) + Bytes(events[n]);
      assert taken + (left + Bytes(events[n])) == (taken + left) + Bytes(events[n]);
      assert (taken + more) + rest == taken + (more + rest);
    }
  }

  function Arrived(events: seq<Event>): string {
    if events == [] then "" else Arrived(events[..|events| - 1]) + Bytes(events[|events| - 1])
  }
}
