/** The root filesystem as a newc archive (crates/kstep/src/build.rs), and a reader of that format, the
    kernel documentation's "initramfs buffer format". */
module Cpio {
  import opened Records
  import opened Ring

  type Bytes = seq<Byte>

  datatype File = File(name: Bytes, mode: nat, data: Bytes)

  const MODE := 0x81ed  // 0100755
  const FIELDS := 13
  const FIXED := 110    // the magic and the fields
  const FILESIZE := 6   // which field is which
  const NAMESIZE := 11

  const MAGIC: Bytes := [48, 55, 48, 55, 48, 49]                           // "070701"
  const TRAILER: Bytes := [84, 82, 65, 73, 76, 69, 82, 33, 33, 33]  // "TRAILER!!!"

  // ---- padding ----

  function Gap4(n: nat): (g: nat)
    ensures g < 4 && (n + g) % 4 == 0
  {
    (4 - n % 4) % 4
  }

  function Zeros(n: nat): (z: Bytes)
    ensures |z| == n
  {
    seq(n, _ => 0)
  }

  /** pad4. */
  function Padded(s: Bytes): (r: Bytes)
    ensures |r| % 4 == 0 && s <= r && |r| == |s| + Gap4(|s|)
  {
    s + Zeros(Gap4(|s|))
  }

  // ---- hexadecimal fields ----

  function HexDigit(d: nat): (b: Byte)
    requires d < 16
  {
    if d < 10 then 48 + d else 87 + d
  }

  function FromHexDigit(b: Byte): Option<nat> {
    if 48 <= b < 58 then Some(b - 48) else if 97 <= b < 103 then Some(b - 87) else None
  }

  function Hex(n: nat): (s: Bytes)
    ensures s != []
  {
    if n < 16 then [HexDigit(n)] else Hex(n / 16) + [HexDigit(n % 16)]
  }

  /** {:08x}: at least eight digits. */
  function Hex8(n: nat): Bytes {
    var s := Hex(n);
    if |s| >= 8 then s else seq(8 - |s|, _ => 48) + s
  }

  /** What the digits s[from..end] say. */
  function FromHex(s: Bytes, from: nat, end: nat): Option<nat>
    requires from <= end <= |s|
    decreases |s|, end
  {
    if from == end then Some(0)
    else
      var high, low := FromHex(s, from, end - 1), FromHexDigit(s[end - 1]);
      if high.None? || low.None? then None else Some(high.value * 16 + low.value)
  }

  /** How many numbers n digits can say. */
  function Pow16(n: nat): (p: nat)
    ensures p > 0
  {
    if n == 0 then 1 else 16 * Pow16(n - 1)
  }

  const WIDE := 0x1_0000_0000

  lemma EightDigits()
    ensures Pow16(8) == WIDE
  {
    assert Pow16(4) == 0x10000;
  }

  lemma Shorter(s: Bytes, a: nat, k: nat)
    requires a + k + 1 <= |s|
    ensures s[a..a + k + 1][..k] == s[a..a + k]
  {}

  lemma {:induction false} SameDigits(s: Bytes, a: nat, t: Bytes, b: nat, k: nat)
    requires a + k <= |s| && b + k <= |t| && s[a..a + k] == t[b..b + k]
    ensures FromHex(s, a, a + k) == FromHex(t, b, b + k)
    decreases k
  {
    if k > 0 {
      assert s[a..a + k][k - 1] == t[b..b + k][k - 1];
      Shorter(s, a, k - 1);
      Shorter(t, b, k - 1);
      SameDigits(s, a, t, b, k - 1);
    }
  }

  lemma {:induction false} HexReadsBack(n: nat)
    ensures FromHex(Hex(n), 0, |Hex(n)|) == Some(n)
    decreases n
  {
    var s := Hex(n);
    if n >= 16 {
      HexReadsBack(n / 16);
      assert s[0..|s| - 1] == Hex(n / 16)[0..|s| - 1];
      SameDigits(s, 0, Hex(n / 16), 0, |s| - 1);
    } else {
      assert FromHex(s, 0, 0) == Some(0);
    }
  }

  lemma {:induction false} HexIsShort(n: nat, width: nat)
    requires n < Pow16(width) && width > 0
    ensures |Hex(n)| <= width
    decreases width
  {
    if n >= 16 {
      assert width > 1 by {
        assert Pow16(1) == 16 * Pow16(0) == 16;
      }
      HexIsShort(n / 16, width - 1);
    }
  }

  lemma {:induction false} LeadingZeros(s: Bytes, k: nat, end: nat)
    requires k <= end <= |s| && forall i :: 0 <= i < k ==> s[i] == 48
    ensures FromHex(s, 0, end) == FromHex(s, k, end)
    decreases end
  {
    if k < end {
      LeadingZeros(s, k, end - 1);
    } else if k > 0 {
      LeadingZeros(s, k - 1, end - 1);
    }
  }

  lemma Hex8ReadsBack(n: nat)
    requires n < WIDE
    ensures |Hex8(n)| == 8 && FromHex(Hex8(n), 0, 8) == Some(n)
  {
    EightDigits();
    HexReadsBack(n);
    HexIsShort(n, 8);
    var s, k := Hex(n), 8 - |Hex(n)|;
    if k > 0 {
      LeadingZeros(Hex8(n), k, 8);
      assert Hex8(n)[k..8] == s[0..|s|];
      SameDigits(Hex8(n), k, s, 0, |s|);
    }
  }

  lemma {:induction false} DigitsAreSmall(s: Bytes, from: nat, k: nat)
    requires from + k <= |s| && FromHex(s, from, from + k).Some?
    ensures FromHex(s, from, from + k).value < Pow16(k)
    decreases k
  {
    if k > 0 {
      DigitsAreSmall(s, from, k - 1);
    }
  }

  // ---- the writer ----

  function Fields(name: Bytes, size: nat): (f: seq<nat>)
    ensures |f| == FIELDS
  {
    [0, MODE, 0, 0, 1, 0, size, 0, 0, 0, 0, |name| + 1, 0]
  }

  function Concat(parts: seq<Bytes>): Bytes {
    if parts == [] then [] else Concat(parts[..|parts| - 1]) + parts[|parts| - 1]
  }

  function Hexes(fields: seq<nat>): seq<Bytes> { seq(|fields|, i requires 0 <= i < |fields| => Hex8(fields[i])) }

  function Header(name: Bytes, size: nat): Bytes { Padded(MAGIC + Concat(Hexes(Fields(name, size))) + name + [0]) }

  method CpioHeader(name: Bytes, size: nat) returns (out: Bytes)
    ensures out == Header(name, size)
  {
    var hex := HexFields(Fields(name, size));
    out := Padded(MAGIC + hex + name + [0]);
  }

  method HexFields(fields: seq<nat>) returns (out: Bytes)
    ensures out == Concat(Hexes(fields))
  {
    out := [];
    for i := 0 to |fields|
      invariant out == Concat(Hexes(fields)[..i])
    {
      ConcatMore(Hexes(fields), i);
      out := out + Hex8(fields[i]);
    }
    assert Hexes(fields)[..|fields|] == Hexes(fields);
  }

  lemma ConcatMore(parts: seq<Bytes>, i: nat)
    requires i < |parts|
    ensures Concat(parts[..i + 1]) == Concat(parts[..i]) + parts[i]
  {
    assert parts[..i + 1][..i] == parts[..i];
  }

  function Entry(f: File): Bytes { Header(f.name, |f.data|) + Padded(f.data) }

  /** Files with something after them. */
  function Then(files: seq<File>, last: Bytes): Bytes {
    if files == [] then last else Entry(files[0]) + Then(files[1..], last)
  }

  function Archive(files: seq<File>): Bytes { Then(files, Header(TRAILER, 0)) }

  method BuildRootfs(files: seq<File>) returns (out: Bytes)
    ensures out == Archive(files)
  {
    out := [];
    ghost var last := Header(TRAILER, 0);
    for i := 0 to |files|
      invariant out + Then(files[i..], last) == Then(files, last)
    {
      var header := CpioHeader(files[i].name, |files[i].data|);
      ghost var rest := Then(files[i + 1..], last);
      assert files[i..][1..] == files[i + 1..];
      Reassociate(out, header, Padded(files[i].data), rest);
      out := out + header;
      out := out + Padded(files[i].data);
    }
    var trailer := CpioHeader(TRAILER, 0);
    out := out + trailer;
  }

  lemma Reassociate(a: Bytes, b: Bytes, c: Bytes, d: Bytes)
    ensures a + ((b + c) + d) == ((a + b) + c) + d
  {}

  // ---- the reader ----

  function Field(s: Bytes, i: nat): Option<nat>
    requires FIXED <= |s| && i < FIELDS
  {
    FromHex(s, 6 + 8 * i, 14 + 8 * i)
  }

  datatype Head = Head(name: Bytes, mode: nat, size: nat, length: nat)

  /** A header at the start of s. */
  function ReadHead(s: Bytes): Option<Head> {
    if |s| < FIXED || s[..6] != MAGIC then None
    else
      var mode, size, namesize := Field(s, 1), Field(s, FILESIZE), Field(s, NAMESIZE);
      if mode.None? || size.None? || namesize.None? || namesize.value == 0 then None
      else
        var end := FIXED + namesize.value;
        if end + Gap4(end) > |s| || s[end - 1] != 0 then None
        else Some(Head(s[FIXED..end - 1], mode.value, size.value, end + Gap4(end)))
  }

  datatype Step = Bad | End | More(file: File, rest: Bytes)

  /** The first file of an archive, with a reader of headers, and what follows it. */
  function Next(head: Bytes -> Option<Head>, s: Bytes): (r: Step)
    ensures r.More? ==> |r.rest| < |s|
  {
    if head(s).None? then Bad
    else
      var h := head(s).value;
      var end := h.length + h.size;
      if h.name == TRAILER then End
      else if h.length == 0 || end + Gap4(end) > |s| then Bad
      else More(File(h.name, h.mode, s[h.length..end]), s[end + Gap4(end)..])
  }

  function Cons(f: File, rest: Option<seq<File>>): Option<seq<File>> {
    if rest.None? then None else Some([f] + rest.value)
  }

  /** The files of an archive, up to its trailer. */
  function ReadWith(head: Bytes -> Option<Head>, s: Bytes): Option<seq<File>>
    decreases |s|
  {
    match Next(head, s)
    case Bad => None
    case End => Some([])
    case More(file, rest) => Cons(file, ReadWith(head, rest))
  }

  function Read(s: Bytes): Option<seq<File>> { ReadWith(ReadHead, s) }

  // ---- it reads back ----

  predicate Writable(f: File) { f.mode == MODE && f.name != TRAILER }

  predicate Small(f: File) { |f.name| + 1 < WIDE && |f.data| < WIDE }

  lemma {:induction false} PartAt(parts: seq<Bytes>, i: nat)
    requires i < |parts| && forall j :: 0 <= j < |parts| ==> |parts[j]| == 8
    ensures |Concat(parts)| == 8 * |parts| && Concat(parts)[8 * i..8 * i + 8] == parts[i]
    decreases |parts|
  {
    var n := |parts| - 1;
    if n > 0 {
      PartAt(parts[..n], if i < n then i else 0);
    } else {
      assert Concat([]) == [];
    }
  }

  lemma FieldsFit(fields: seq<nat>)
    requires forall j :: 0 <= j < |fields| ==> fields[j] < WIDE
    ensures forall j :: 0 <= j < |fields| ==> |Hexes(fields)[j]| == 8 && FromHex(Hexes(fields)[j], 0, 8) == Some(fields[j])
  {
    forall j | 0 <= j < |fields|
      ensures |Hexes(fields)[j]| == 8 && FromHex(Hexes(fields)[j], 0, 8) == Some(fields[j])
    {
      Hex8ReadsBack(fields[j]);
    }
  }

  /** Any field of a header, wherever its text came from. */
  lemma FieldAt(fields: seq<nat>, rest: Bytes, i: nat)
    requires |fields| == FIELDS && i < FIELDS && forall j :: 0 <= j < |fields| ==> fields[j] < WIDE
    ensures var s := MAGIC + Concat(Hexes(fields)) + rest;
      |Concat(Hexes(fields))| == 8 * FIELDS && |s| >= FIXED && s[..6] == MAGIC && s[FIXED..] == rest && Field(s, i) == Some(fields[i])
  {
    FieldsFit(fields);
    var hex := Hexes(fields);
    PartAt(hex, i);
    var s := MAGIC + Concat(hex) + rest;
    assert s[6..FIXED] == Concat(hex);
    assert s[6 + 8 * i..14 + 8 * i] == s[6..FIXED][8 * i..8 * i + 8];
    assert s[6 + 8 * i..6 + 8 * i + 8] == hex[i][0..8];
    SameDigits(s, 6 + 8 * i, hex[i], 0, 8);
  }

  lemma HeaderIs(name: Bytes, size: nat, more: Bytes)
    requires |name| + 1 < WIDE && size < WIDE
    ensures var end := FIXED + |name| + 1;
      && |Header(name, size)| == end + Gap4(end)
      && Header(name, size) + more == MAGIC + Concat(Hexes(Fields(name, size))) + (name + [0] + Zeros(Gap4(end)) + more)
  {
    var hex := Concat(Hexes(Fields(name, size)));
    FieldAt(Fields(name, size), [], 0);
    var body, zeros := MAGIC + hex + name + [0], Zeros(Gap4(FIXED + |name| + 1));
    assert |body| == FIXED + |name| + 1;
    assert Header(name, size) == body + zeros;
    assert body + zeros + more == MAGIC + hex + (name + [0] + zeros + more);
  }

  lemma HeadReadsBack(name: Bytes, size: nat, more: Bytes)
    requires |name| + 1 < WIDE && size < WIDE
    ensures ReadHead(Header(name, size) + more) == Some(Head(name, MODE, size, |Header(name, size)|))
  {
    HeaderIs(name, size, more);
    var end := FIXED + |name| + 1;
    var fields, rest := Fields(name, size), name + [0] + Zeros(Gap4(end)) + more;
    FieldAt(fields, rest, 1);
    FieldAt(fields, rest, FILESIZE);
    FieldAt(fields, rest, NAMESIZE);
    HeadFrom(Header(name, size) + more, name, size, end, rest);
  }

  lemma HeadFrom(s: Bytes, name: Bytes, size: nat, end: nat, rest: Bytes)
    requires |s| >= FIXED && s[..6] == MAGIC && s[FIXED..] == rest && end == FIXED + |name| + 1
    requires Field(s, 1) == Some(MODE) && Field(s, FILESIZE) == Some(size) && Field(s, NAMESIZE) == Some(|name| + 1)
    requires name + [0] <= rest && |name| + 1 + Gap4(end) <= |rest|
    ensures ReadHead(s) == Some(Head(name, MODE, size, end + Gap4(end)))
  {
    assert s[end - 1] == rest[|name|] == (name + [0])[|name|];
    assert s[FIXED..end - 1] == rest[..|name|] == (name + [0])[..|name|] == name;
  }

  lemma NextIs(head: Bytes -> Option<Head>, header: Bytes, f: File, more: Bytes)
    requires |header| % 4 == 0 && |header| > 0 && f.name != TRAILER
    requires head(header + (Padded(f.data) + more)) == Some(Head(f.name, f.mode, |f.data|, |header|))
    ensures Next(head, header + Padded(f.data) + more) == More(f, more)
  {
    assert header + Padded(f.data) + more == header + (Padded(f.data) + more);
    EntryParts(header, f.data, more);
  }

  lemma NextRead(s: Bytes, f: File, more: Bytes)
    requires Next(ReadHead, s) == More(f, more)
    ensures Read(s) == Cons(f, Read(more))
  {}

  /** Every header and every body starts on a multiple of four. */
  lemma EntryReadsBack(f: File, more: Bytes)
    requires Writable(f) && Small(f)
    ensures |Header(f.name, |f.data|)| % 4 == 0 && |Entry(f)| % 4 == 0
    ensures Next(ReadHead, Entry(f) + more) == More(f, more)
  {
    HeadReadsBack(f.name, |f.data|, Padded(f.data) + more);
    NextIs(ReadHead, Header(f.name, |f.data|), f, more);
  }

  lemma EntryParts(header: Bytes, data: Bytes, more: Bytes)
    requires |header| % 4 == 0 && |header| > 0
    ensures var s, end := header + Padded(data) + more, |header| + |data|;
      && end + Gap4(end) == |header| + |Padded(data)|
      && s[|header|..end] == data && s[end + Gap4(end)..] == more
  {
    assert Gap4(|header| + |data|) == Gap4(|data|);
  }

  lemma TrailerReadsBack()
    ensures Read(Header(TRAILER, 0)) == Some([])
  {
    assert Header(TRAILER, 0) + [] == Header(TRAILER, 0);
    HeadReadsBack(TRAILER, 0, []);
  }

  lemma OneMoreFile(f: File, rest: Bytes, files: seq<File>)
    requires Writable(f) && Small(f) && Read(rest) == Some(files)
    ensures Read(Entry(f) + rest) == Some([f] + files)
  {
    EntryReadsBack(f, rest);
    NextRead(Entry(f) + rest, f, rest);
  }

  lemma {:induction false} FilesReadBack(files: seq<File>, last: Bytes)
    requires Read(last) == Some([]) && forall i :: 0 <= i < |files| ==> Writable(files[i]) && Small(files[i])
    ensures Read(Then(files, last)) == Some(files)
    decreases |files|
  {
    if files != [] {
      var more := files[1..];
      FilesReadBack(more, last);
      OneMoreFile(files[0], Then(more, last), more);
      assert [files[0]] + more == files;
    }
  }

  /** The reader recovers exactly the files written, and stops at the trailer. */
  lemma ArchiveReadsBack(files: seq<File>)
    requires forall i :: 0 <= i < |files| ==> Writable(files[i]) && Small(files[i])
    ensures Read(Archive(files)) == Some(files)
  {
    TrailerReadsBack();
    FilesReadBack(files, Header(TRAILER, 0));
  }

  ghost predicate SmallHeads(head: Bytes -> Option<Head>) {
    forall s :: head(s).Some? ==> |head(s).value.name| + 1 < WIDE && head(s).value.size < WIDE
  }

  lemma HeadsAreSmall()
    ensures SmallHeads(ReadHead)
  {
    forall s: Bytes | ReadHead(s).Some?
      ensures |ReadHead(s).value.name| + 1 < WIDE && ReadHead(s).value.size < WIDE
    {
      EightDigits();
      DigitsAreSmall(s, 6 + 8 * FILESIZE, 8);
      DigitsAreSmall(s, 6 + 8 * NAMESIZE, 8);
    }
  }

  /** No archive can say more than eight digits of a size. */
  lemma {:induction false} WhatIsReadIsSmall(head: Bytes -> Option<Head>, s: Bytes)
    requires SmallHeads(head) && ReadWith(head, s).Some?
    ensures forall i :: 0 <= i < |ReadWith(head, s).value| ==> Small(ReadWith(head, s).value[i])
    decreases |s|
  {
    var next := Next(head, s);
    if next.More? {
      WhatIsReadIsSmall(head, next.rest);
      assert Small(next.file);
    }
  }

  /** The archive reads back as its files exactly when every size fits in eight digits. */
  lemma ReadsBackExactlyWhenSmall(files: seq<File>)
    requires forall i :: 0 <= i < |files| ==> Writable(files[i])
    ensures Read(Archive(files)) == Some(files) <==> forall i :: 0 <= i < |files| ==> Small(files[i])
  {
    if forall i :: 0 <= i < |files| ==> Small(files[i]) {
      ArchiveReadsBack(files);
    } else if Read(Archive(files)) == Some(files) {
      HeadsAreSmall();
      WhatIsReadIsSmall(ReadHead, Archive(files));
    }
  }
}
