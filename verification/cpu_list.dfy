/** The old fuzzer's CPU lists (docs/archive/old_fuzzer/scripts/fuzz_manager.py): the parser, the printer, and
    the split between QEMU instances and the manager itself. */
module CpuList {
  import opened Digits
  import opened Ring
  import opened Text

  predicate Increasing(s: seq<int>) { forall i, j :: 0 <= i < j < |s| ==> s[i] < s[j] }

  predicate Natural(s: seq<int>) { forall i :: 0 <= i < |s| ==> 0 <= s[i] }

  // ---- sorted(set(cpus)) ----

  function Insert(s: seq<int>, x: int): seq<int> {
    if s == [] then [x]
    else if x < s[0] then [x] + s
    else if x == s[0] then s
    else [s[0]] + Insert(s[1..], x)
  }

  function SortedSet(s: seq<int>): seq<int> {
    if s == [] then [] else Insert(SortedSet(s[..|s| - 1]), s[|s| - 1])
  }

  lemma {:induction false} InsertKeeps(s: seq<int>, x: int)
    requires Increasing(s)
    ensures Increasing(Insert(s, x))
    ensures forall y :: y in Insert(s, x) <==> y == x || y in s
    decreases |s|
  {
    if s != [] && x > s[0] {
      InsertKeeps(s[1..], x);
      var r := Insert(s[1..], x);
      assert forall y :: y in s <==> y == s[0] || y in s[1..];
      PrependKeeps(s[0], r);
    }
  }

  lemma PrependKeeps(x: int, s: seq<int>)
    requires Increasing(s) && forall y :: y in s ==> x < y
    ensures Increasing([x] + s) && forall y :: y in [x] + s <==> y == x || y in s
  {
    assert forall i :: 0 <= i < |s| ==> s[i] in s;
  }

  lemma {:induction false} SortedSetIs(s: seq<int>)
    ensures Increasing(SortedSet(s))
    ensures forall y :: y in SortedSet(s) <==> y in s
    decreases |s|
  {
    if s != [] {
      var n := |s| - 1;
      SortedSetIs(s[..n]);
      InsertKeeps(SortedSet(s[..n]), s[n]);
      assert s == s[..n] + [s[n]];
    }
  }

  lemma {:induction false} InsertLast(s: seq<int>, x: int)
    requires forall i :: 0 <= i < |s| ==> s[i] < x
    ensures Insert(s, x) == s + [x]
    decreases |s|
  {
    if s != [] {
      InsertLast(s[1..], x);
    }
  }

  lemma {:induction false} SortedStays(s: seq<int>)
    requires Increasing(s)
    ensures SortedSet(s) == s
    decreases |s|
  {
    if s != [] {
      var n := |s| - 1;
      SortedStays(s[..n]);
      InsertLast(s[..n], s[n]);
    }
  }

  // ---- the parser ----

  datatype Error = BadNumber | BadRange | EmptySet

  datatype Result<T> = Ok(value: T) | Err(error: Error)

  function Range(a: int, b: int): seq<int>
    decreases b - a
  {
    if a > b then [] else [a] + Range(a + 1, b)
  }

  /** int(): of a numeral its value, and no sign without a hyphen. */
  ghost predicate ReadsNumerals(number: string -> Option<int>) {
    && (forall n: nat {:trigger Dec(n)} :: number(Dec(n)) == Some(n))
    && forall s {:trigger number(s)} :: '-' !in s && number(s).Some? ==> number(s).value >= 0
  }

  /** One comma-separated part. */
  function Part(number: string -> Option<int>, part: string): Result<seq<int>> {
    var token := Trim(part);
    if token == "" then Ok([])
    else
      var i := IndexOf(token, '-');
      if i == |token| then
        var x := number(token);
        if x.None? then Err(BadNumber) else Ok([x.value])
      else
        var a, b := number(token[..i]), number(token[i + 1..]);
        if a.None? || b.None? then Err(BadNumber)
        else if a.value > b.value then Err(BadRange)
        else Ok(Range(a.value, b.value))
  }

  /** The parts' CPUs together, or the first error. */
  function Parts(number: string -> Option<int>, parts: seq<string>): Result<seq<int>> {
    if parts == [] then Ok([])
    else
      var before := Parts(number, parts[..|parts| - 1]);
      if before.Err? then before
      else
        var last := Part(number, parts[|parts| - 1]);
        if last.Err? then last else Ok(before.value + last.value)
  }

  function Parse(number: string -> Option<int>, s: string): Result<seq<int>> {
    var cpus := Parts(number, Pieces(s, ','));
    if cpus.Err? then cpus
    else if SortedSet(cpus.value) == [] then Err(EmptySet)
    else Ok(SortedSet(cpus.value))
  }

  /** _parse_cpu_list. */
  method ParseCpuList(number: string -> Option<int>, s: string) returns (r: Result<seq<int>>)
    ensures r == Parse(number, s)
  {
    var parts, cpus := Pieces(s, ','), [];
    for i := 0 to |parts|
      invariant Parts(number, parts[..i]) == Ok(cpus)
    {
      assert parts[..i + 1][..i] == parts[..i];
      var part := Part(number, parts[i]);
      if part.Err? {
        PartsStop(number, parts, i + 1);
        return part;
      }
      cpus := cpus + part.value;
    }
    assert parts[..|parts|] == parts;
    cpus := SortedSet(cpus);
    r := if cpus == [] then Err(EmptySet) else Ok(cpus);
  }

  lemma {:induction false} PartsStop(number: string -> Option<int>, parts: seq<string>, i: nat)
    requires i <= |parts| && Parts(number, parts[..i]).Err?
    ensures Parts(number, parts) == Parts(number, parts[..i])
    decreases |parts|
  {
    if i < |parts| {
      assert parts[..|parts| - 1][..i] == parts[..i];
      PartsStop(number, parts[..|parts| - 1], i);
    } else {
      assert parts[..i] == parts;
    }
  }

  // ---- the printer ----

  type Span = (nat, nat)

  /** One more CPU extends the last run or starts another. */
  function Extended(spans: seq<Span>, cpu: nat): seq<Span> {
    if spans != [] && cpu == spans[|spans| - 1].1 + 1 then spans[..|spans| - 1] + [(spans[|spans| - 1].0, cpu)]
    else spans + [(cpu, cpu)]
  }

  /** The maximal runs of consecutive CPUs. */
  function Spans(cpus: seq<int>): seq<Span>
    requires Natural(cpus)
  {
    if cpus == [] then [] else Extended(Spans(cpus[..|cpus| - 1]), cpus[|cpus| - 1])
  }

  function Show(span: Span): string { if span.0 != span.1 then Dec(span.0) + "-" + Dec(span.1) else Dec(span.0) }

  function ShowAll(spans: seq<Span>): seq<string> { seq(|spans|, i requires 0 <= i < |spans| => Show(spans[i])) }

  function Format(cpus: seq<int>): Result<string>
    requires Natural(cpus)
  {
    if cpus == [] then Err(EmptySet) else Ok(Join(ShowAll(Spans(cpus)), ','))
  }

  /** _format_cpu_list. */
  method FormatCpuList(cpus: seq<int>) returns (r: Result<string>)
    requires Natural(cpus)
    ensures r == Format(cpus)
  {
    if cpus == [] {
      return Err(EmptySet);
    }
    var ranges, start: nat, prev: nat := [], cpus[0], cpus[0];
    ghost var closed: seq<Span> := [];
    assert cpus[..1][..0] == [];
    for i := 1 to |cpus|
      invariant ranges == ShowAll(closed) && Spans(cpus[..i]) == closed + [(start, prev)]
    {
      assert cpus[..i + 1][..i] == cpus[..i];
      var cpu: nat := cpus[i];
      if cpu == prev + 1 {
        prev := cpu;
        continue;
      }
      closed := closed + [(start, prev)];
      ranges := ranges + [if start != prev then Dec(start) + "-" + Dec(prev) else Dec(start)];
      assert ranges == ShowAll(closed);
      start, prev := cpu, cpu;
    }
    closed := closed + [(start, prev)];
    ranges := ranges + [if start != prev then Dec(start) + "-" + Dec(prev) else Dec(start)];
    assert ranges == ShowAll(closed) && cpus[..|cpus|] == cpus;
    r := Ok(Join(ranges, ','));
  }

  // ---- the round trip ----

  function Cpus(spans: seq<Span>): seq<int> {
    if spans == [] then [] else Cpus(spans[..|spans| - 1]) + Range(spans[|spans| - 1].0, spans[|spans| - 1].1)
  }

  lemma {:induction false} RangeGrows(a: int, b: int)
    requires a <= b + 1
    ensures Range(a, b + 1) == Range(a, b) + [b + 1]
    decreases b - a
  {
    if a <= b {
      RangeGrows(a + 1, b);
    } else {
      assert Range(b + 2, b + 1) == [];
    }
  }

  predicate Ordered(spans: seq<Span>) { forall i :: 0 <= i < |spans| ==> spans[i].0 <= spans[i].1 }

  lemma CpusOfMore(spans: seq<Span>, last: Span)
    ensures Cpus(spans + [last]) == Cpus(spans) + Range(last.0, last.1)
  {
    assert (spans + [last])[..|spans|] == spans;
  }

  lemma RangeOfOne(a: int)
    ensures Range(a, a) == [a]
  {
    assert Range(a + 1, a) == [];
  }

  lemma SpanGrows(spans: seq<Span>, from: nat, to: nat)
    requires from <= to
    ensures Cpus(spans + [(from, to + 1)]) == Cpus(spans + [(from, to)]) + [to + 1]
  {
    CpusOfMore(spans, (from, to));
    CpusOfMore(spans, (from, to + 1));
    RangeGrows(from, to);
    Appended(Cpus(spans), Range(from, to), [to + 1]);
  }

  lemma Appended(a: seq<int>, b: seq<int>, c: seq<int>)
    ensures a + (b + c) == a + b + c
  {}

  lemma ExtendedCpus(spans: seq<Span>, cpu: nat)
    requires Ordered(spans)
    ensures Cpus(Extended(spans, cpu)) == Cpus(spans) + [cpu] && Ordered(Extended(spans, cpu)) && Extended(spans, cpu) != []
  {
    if spans != [] && cpu == spans[|spans| - 1].1 + 1 {
      var m := |spans| - 1;
      assert spans == spans[..m] + [spans[m]];
      SpanGrows(spans[..m], spans[m].0, spans[m].1);
    } else {
      CpusOfMore(spans, (cpu, cpu));
      RangeOfOne(cpu);
    }
  }

  /** The runs are the list. */
  lemma {:induction false} SpansAreTheList(cpus: seq<int>)
    requires Natural(cpus)
    ensures Cpus(Spans(cpus)) == cpus && Ordered(Spans(cpus)) && (cpus != [] ==> Spans(cpus) != [])
    decreases |cpus|
  {
    if cpus != [] {
      var n := |cpus| - 1;
      SpansAreTheList(cpus[..n]);
      ExtendedCpus(Spans(cpus[..n]), cpus[n]);
      assert cpus == cpus[..n] + [cpus[n]];
    }
  }

  lemma {:induction false} DigitsAlone(n: nat)
    ensures Dec(n) != [] && AllDigits(Dec(n))
    decreases n
  {
    DecReadsBack(n);
  }

  lemma DigitsOnly(s: string, c: char)
    requires AllDigits(s) && !IsDigit(c)
    ensures c !in s
  {}

  lemma TrimKeeps(s: string)
    requires s != "" && !IsSpace(s[0]) && !IsSpace(s[|s| - 1])
    ensures Trim(s) == s
  {}

  lemma OneReadsBack(number: string -> Option<int>, n: nat)
    requires ReadsNumerals(number)
    ensures Part(number, Dec(n)) == Ok([n]) && ',' !in Dec(n)
  {
    DigitsAlone(n);
    DigitsOnly(Dec(n), '-');
    DigitsOnly(Dec(n), ',');
    TrimKeeps(Dec(n));
    IndexAfter(Dec(n), '-', "");
  }

  lemma RangeReadsBack(number: string -> Option<int>, a: string, b: string)
    requires a != "" && b != "" && AllDigits(a) && AllDigits(b)
    ensures ',' !in a + "-" + b && Trim(a + "-" + b) == a + "-" + b
    ensures IndexOf(a + "-" + b, '-') == |a| && (a + "-" + b)[..|a|] == a && (a + "-" + b)[|a| + 1..] == b
  {
    DigitsOnly(a, '-');
    DigitsOnly(a, ',');
    DigitsOnly(b, ',');
    TrimKeeps(a + "-" + b);
    IndexAfter(a, '-', b);
    assert a + "-" + b == a + ['-'] + b;
  }

  /** A shown run parses to the run, and holds no comma. */
  lemma ShownReadsBack(number: string -> Option<int>, span: Span)
    requires ReadsNumerals(number) && span.0 <= span.1
    ensures Part(number, Show(span)) == Ok(Range(span.0, span.1)) && ',' !in Show(span)
  {
    if span.0 == span.1 {
      OneReadsBack(number, span.0);
      RangeOfOne(span.0);
    } else {
      DigitsAlone(span.0);
      DigitsAlone(span.1);
      RangeReadsBack(number, Dec(span.0), Dec(span.1));
    }
  }

  lemma {:induction false} ShownPartsReadBack(number: string -> Option<int>, spans: seq<Span>)
    requires ReadsNumerals(number) && Ordered(spans)
    ensures Parts(number, ShowAll(spans)) == Ok(Cpus(spans))
    decreases |spans|
  {
    if spans != [] {
      var n := |spans| - 1;
      ShownPartsReadBack(number, spans[..n]);
      ShownReadsBack(number, spans[n]);
      assert ShowAll(spans)[..n] == ShowAll(spans[..n]);
    }
  }

  /** Parsing what was formatted from an increasing list of CPUs gives the list back. */
  lemma FormatReadsBack(number: string -> Option<int>, cpus: seq<int>)
    requires ReadsNumerals(number) && Natural(cpus) && Increasing(cpus) && cpus != []
    ensures Format(cpus).Ok? && Parse(number, Format(cpus).value) == Ok(cpus)
  {
    var spans := Spans(cpus);
    SpansAreTheList(cpus);
    forall i | 0 <= i < |spans|
      ensures ',' !in ShowAll(spans)[i]
    {
      ShownReadsBack(number, spans[i]);
    }
    PiecesOfJoin(ShowAll(spans), ',');
    ShownPartsReadBack(number, spans);
    SortedStays(cpus);
  }

  lemma ParsedIsSound(number: string -> Option<int>, s: string)
    requires ReadsNumerals(number) && Parse(number, s).Ok?
    ensures Increasing(Parse(number, s).value) && Natural(Parse(number, s).value) && Parse(number, s).value != []
  {
    var raw := Parts(number, Pieces(s, ',')).value;
    SortedSetIs(raw);
    PartsAreNatural(number, Pieces(s, ','));
    var cpus := SortedSet(raw);
    forall i | 0 <= i < |cpus|
      ensures 0 <= cpus[i]
    {
      assert cpus[i] in cpus && cpus[i] in raw;
    }
  }

  /** What parses is increasing and natural, so formatting it is canonical: it parses to the same. */
  lemma FormatIsCanonical(number: string -> Option<int>, s: string)
    requires ReadsNumerals(number) && Parse(number, s).Ok?
    ensures var cpus := Parse(number, s).value;
      Increasing(cpus) && Natural(cpus) && cpus != [] && Parse(number, Format(cpus).value) == Ok(cpus)
  {
    ParsedIsSound(number, s);
    FormatReadsBack(number, Parse(number, s).value);
  }

  lemma {:induction false} RangeIs(a: int, b: int)
    ensures forall i :: 0 <= i < |Range(a, b)| ==> a <= Range(a, b)[i] <= b
    decreases b - a
  {
    if a <= b {
      RangeIs(a + 1, b);
    }
  }

  lemma {:induction false} PartsAreNatural(number: string -> Option<int>, parts: seq<string>)
    requires ReadsNumerals(number) && Parts(number, parts).Ok?
    ensures Natural(Parts(number, parts).value)
    decreases |parts|
  {
    if parts != [] {
      var n := |parts| - 1;
      PartsAreNatural(number, parts[..n]);
      var token := Trim(parts[n]);
      var i := IndexOf(token, '-');
      if i < |token| {
        RangeIs(number(token[..i]).value, number(token[i + 1..]).value);
      } else {
        assert token[..i] == token;
      }
    }
  }

  // ---- the split ----

  datatype Split = Split(qemu: seq<string>, manager: seq<int>)

  function Slice(cpus: seq<int>, each: nat, w: nat): seq<int>
    requires (w + 1) * each <= |cpus|
  {
    SliceFits(each, w);
    cpus[w * each..(w + 1) * each]
  }

  lemma SliceFits(each: nat, w: nat)
    ensures w * each <= (w + 1) * each == w * each + each
  {}

  function Slices(cpus: seq<int>, each: nat, workers: nat): seq<int>
    requires workers * each <= |cpus|
    decreases workers
  {
    if workers == 0 then []
    else
      SliceFits(each, workers - 1);
      Slices(cpus, each, workers - 1) + Slice(cpus, each, workers - 1)
  }

  /** The slices end to end, and what is left, are the parsed set: no CPU is shared or forgotten. */
  lemma {:induction false} SlicesPartition(cpus: seq<int>, each: nat, workers: nat)
    requires workers * each <= |cpus|
    ensures Slices(cpus, each, workers) + cpus[workers * each..] == cpus
    decreases workers
  {
    if workers > 0 {
      SliceFits(each, workers - 1);
      SlicesPartition(cpus, each, workers - 1);
      var a, b := (workers - 1) * each, workers * each;
      assert cpus[a..] == cpus[a..b] + cpus[b..];
    }
  }

  /** What a QEMU instance is pinned to parses to its own slice. */
  ghost predicate SliceOf(number: string -> Option<int>, cpus: seq<int>, each: nat, w: nat, shown: string) {
    (w + 1) * each <= |cpus| && Parse(number, shown) == Ok(Slice(cpus, each, w))
  }

  lemma SliceInside(each: nat, w: nat, workers: nat)
    requires w < workers
    ensures w * each <= (w + 1) * each == w * each + each <= workers * each
  {
    assert workers * each == (w + 1) * each + (workers - w - 1) * each;
  }

  lemma SliceReadsBack(number: string -> Option<int>, cpus: seq<int>, each: nat, w: nat)
    requires ReadsNumerals(number) && each > 0 && (w + 1) * each <= |cpus| && Natural(cpus) && Increasing(cpus)
    ensures var slice := Slice(cpus, each, w);
      Natural(slice) && Format(slice).Ok? && SliceOf(number, cpus, each, w, Format(slice).value)
  {
    SliceFits(each, w);
    FormatReadsBack(number, Slice(cpus, each, w));
  }

  /** The manager keeps what is left, and at least one CPU. */
  ghost predicate SplitOf(number: string -> Option<int>, cpus: seq<int>, workers: nat, each: nat, split: Split) {
    && workers * each < |cpus| && split.manager == cpus[workers * each..]
    && |split.qemu| == workers && forall w: nat :: w < workers ==> SliceOf(number, cpus, each, w, split.qemu[w])
  }

  /** _configure_cpu_pinning: None where the list has too few CPUs to leave the manager one. */
  method ConfigureCpuPinning(number: string -> Option<int>, s: string, workers: nat, each: nat) returns (r: Result<Option<Split>>)
    requires ReadsNumerals(number) && each > 0
    ensures Parse(number, s).Err? <==> r.Err?
    ensures r.Ok? ==> (r.value.Some? <==> workers * each < |Parse(number, s).value|)
    ensures r.Ok? && r.value.Some? ==> SplitOf(number, Parse(number, s).value, workers, each, r.value.value)
  {
    var parsed := ParseCpuList(number, s);
    if parsed.Err? {
      return Err(parsed.error);
    }
    var cpus := parsed.value;
    ParsedIsSound(number, s);
    if workers * each >= |cpus| {
      return Ok(None);
    }
    var qemu := FormatSlices(number, cpus, workers, each);
    r := Ok(Some(Split(qemu, cpus[workers * each..])));
  }

  method FormatSlices(number: string -> Option<int>, cpus: seq<int>, workers: nat, each: nat) returns (qemu: seq<string>)
    requires ReadsNumerals(number) && each > 0 && workers * each <= |cpus| && Natural(cpus) && Increasing(cpus)
    ensures |qemu| == workers && forall w: nat :: w < workers ==> SliceOf(number, cpus, each, w, qemu[w])
  {
    qemu := [];
    for w := 0 to workers
      invariant |qemu| == w
      invariant forall v: nat :: v < w ==> SliceOf(number, cpus, each, v, qemu[v])
    {
      SliceInside(each, w, workers);
      SliceReadsBack(number, cpus, each, w);
      var shown := FormatCpuList(Slice(cpus, each, w));
      qemu := qemu + [shown.value];
    }
  }
}
