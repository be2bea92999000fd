/** The channel's sending side (kmod/io.c): a pool of buffers shared between a stack of free ones and a
    queue of those the host has yet to read. The queue hands each buffer back once, after it was read. */
module TxPool {
  import opened Lists

  const TX_BUFS := 256
  const TX_BUF := 512

  predicate InPool(s: seq<int>) { Distinct(s) && forall i :: 0 <= i < |s| ==> 0 <= s[i] < TX_BUFS }

  /** No buffer is in two places, and there are as many as there ever were. */
  ghost predicate Partition(free: seq<int>, pending: seq<int>, used: seq<int>) {
    && InPool(free) && InPool(pending) && InPool(used)
    && (forall b :: b in free ==> b !in pending && b !in used)
    && (forall b :: b in pending ==> b !in used)
    && |free| + |pending| + |used| == TX_BUFS
  }

  /** So each buffer is somewhere: none is ever lost. */
  lemma NoneIsLost(free: seq<int>, pending: seq<int>, used: seq<int>, b: int)
    requires Partition(free, pending, used) && 0 <= b < TX_BUFS
    ensures b in free || b in pending || b in used
  {
    if b !in free && b !in pending && b !in used {
      var all := [b] + free + pending + used;
      AllDistinct([b], free, pending, used);
      DistinctFits(all, TX_BUFS);
      assert false;
    }
  }

  lemma AllDistinct(a: seq<int>, b: seq<int>, c: seq<int>, d: seq<int>)
    requires Distinct(a) && Distinct(b) && Distinct(c) && Distinct(d)
    requires forall x :: x in a ==> x !in b && x !in c && x !in d
    requires forall x :: x in b ==> x !in c && x !in d
    requires forall x :: x in c ==> x !in d
    ensures Distinct(a + b + c + d)
    ensures forall x :: x in a + b + c + d ==> x in a || x in b || x in c || x in d
  {
    JoinDistinct(a, b);
    JoinDistinct(a + b, c);
    JoinDistinct(a + b + c, d);
  }

  lemma JoinDistinct(a: seq<int>, b: seq<int>)
    requires Distinct(a) && Distinct(b) && forall x :: x in a ==> x !in b
    ensures Distinct(a + b)
  {
    forall i, j | 0 <= i < j < |a + b|
      ensures (a + b)[i] != (a + b)[j]
    {
      assert i < |a| ==> a[i] in a;
      assert j >= |a| ==> b[j - |a|] in b;
    }
  }

  /** What the records in these buffers are. */
  function Read(memory: seq<string>, bufs: seq<int>): seq<string>
    requires forall i :: 0 <= i < |bufs| ==> 0 <= bufs[i] < |memory|
  {
    seq(|bufs|, i requires 0 <= i < |bufs| && 0 <= bufs[i] < |memory| => memory[bufs[i]])
  }

  class TxPool {
    const free: array<int>       // tx_free, a stack
    var nfree: nat
    const memory: array<string>  // the buffers
    var pending: seq<int>        // added to the queue, not yet read by the host
    var used: seq<int>           // read by the host, not yet reclaimed
    var delivered: seq<string>   // what the host has read
    ghost var sent: seq<string>

    /** No buffer is in two places, and every record in flight still reads as it was written. */
    ghost predicate Valid()
      reads this, free, memory
    {
      && free.Length == memory.Length == TX_BUFS && nfree <= TX_BUFS
      && Partition(free[..nfree], pending, used)
      && sent == delivered + Read(memory[..], pending)
    }

    constructor ()
      ensures Valid() && sent == [] && fresh(free) && fresh(memory)
    {
      free := new int[TX_BUFS](i => i);
      memory := new string[TX_BUFS](_ => "");
      nfree, pending, used, delivered, sent := TX_BUFS, [], [], [], [];
    }

    /** The host reads the oldest record and returns its buffer. */
    method HostReads() returns (record: string)
      requires Valid() && pending != []
      modifies this`pending, this`used, this`delivered
      ensures Valid() && |pending| == |old(pending)| - 1
      ensures delivered == old(delivered) + [record] && delivered <= sent
      ensures record == sent[|old(delivered)|]
    {
      HostReturns(free[..nfree], pending, used);
      assert pending[0] in pending;
      record := memory[pending[0]];
      delivered := delivered + [record];
      used := used + [pending[0]];
      pending := pending[1..];
    }

    method Reclaim()
      requires Valid()
      modifies this`nfree, this`used, free
      ensures Valid() && used == [] && nfree + |pending| == TX_BUFS
    {
      while used != []
        invariant Valid()
        decreases |used|
      {
        label Turn:
        ReclaimKeeps(free[..nfree], pending, used);
        free[nfree] := used[0];
        nfree := nfree + 1;
        used := used[1..];
        assert free[..nfree] == old@Turn(free[..nfree]) + [old@Turn(used[0])];
      }
    }

    /** kstep_io_write; false where it panics: for a record too long for a buffer, or because the host is
        behind by as many records as there are buffers. */
    method Write(data: string) returns (ok: bool)
      requires Valid()
      modifies this`nfree, this`pending, this`used, this`sent, free, memory
      ensures Valid()
      ensures ok <==> |data| <= TX_BUF && |old(pending)| < TX_BUFS
      ensures sent == if ok then old(sent) + [data] else old(sent)
      ensures ok ==> |pending| == |old(pending)| + 1
    {
      if |data| > TX_BUF {
        return false;
      }
      if nfree == 0 {
        Reclaim();
      }
      if nfree == 0 {
        return false;
      }
      WriteKeeps(free[..nfree], pending, used);
      var buf := free[nfree - 1];
      assert free[..nfree][..nfree - 1] == free[..nfree - 1];
      ghost var before := memory[..];
      memory[buf] := data;
      nfree := nfree - 1;
      pending := pending + [buf];
      sent := sent + [data];
      assert Read(memory[..], pending) == Read(before, old(pending)) + [data];
      ok := true;
    }
  }

  lemma HostReturns(free: seq<int>, pending: seq<int>, used: seq<int>)
    requires Partition(free, pending, used) && pending != []
    ensures Partition(free, pending[1..], used + [pending[0]])
  {
    assert pending[0] in pending;
    assert forall b :: b in pending[1..] ==> b in pending;
  }

  lemma ReclaimKeeps(free: seq<int>, pending: seq<int>, used: seq<int>)
    requires Partition(free, pending, used) && used != []
    ensures Partition(free + [used[0]], pending, used[1..])
  {
    assert used[0] in used;
    assert forall b :: b in used[1..] ==> b in used;
  }

  /** The buffer taken for a record is not one the host may still read. */
  lemma WriteKeeps(free: seq<int>, pending: seq<int>, used: seq<int>)
    requires Partition(free, pending, used) && free != []
    ensures var n := |free| - 1;
      Partition(free[..n], pending + [free[n]], used) && free[n] !in pending && 0 <= free[n] < TX_BUFS
  {
    var n := |free| - 1;
    assert free[n] in free;
    assert forall b :: b in free[..n] ==> b in free;
  }
}
