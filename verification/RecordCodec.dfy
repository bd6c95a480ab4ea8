/**
  The bytes of an archive: little-endian fields, and the record codec of the
  example program.
 */
module RecordCodec {

  type Byte = b: int | 0 <= b < 256

  datatype Option<T> = None | Some(value: T)

  datatype Errno = OK | EIO | EINVAL | EEXIST | EOVERFLOW

  /** A node's value is a C string in a buffer, or no string at all. */
  datatype Node = Node(key: int, value: Option<seq<Byte>>)

  const MAX_RECORD: nat := 0x1000_0000

  // ------------------------------------------------------------------
  // Little-endian fields
  // ------------------------------------------------------------------

  /** `v` without its lowest `i` bytes. */
  ghost function Shift(v: nat, i: nat): nat {
    if i == 0 then v else Shift(v / 256, i - 1)
  }

  ghost function Le(v: nat, n: nat): (bs: seq<Byte>)
    ensures |bs| == n
  {
    seq(n, i requires 0 <= i => Shift(v, i) % 256)
  }

  function ValFrom(bs: seq<Byte>, i: nat): nat
    requires i <= |bs|
    decreases |bs| - i
  {
    if i == |bs| then 0 else bs[i] + 256 * ValFrom(bs, i + 1)
  }

  function Val(bs: seq<Byte>): nat {
    ValFrom(bs, 0)
  }

  ghost function Pow256(n: nat): (p: nat)
    ensures p > 0
  {
    if n == 0 then 1 else 256 * Pow256(n - 1)
  }

  lemma {:induction false} ShiftNext(v: nat, i: nat)
    ensures Shift(v, i + 1) == Shift(v, i) / 256
  {
    if i > 0 {
      ShiftNext(v / 256, i - 1);
    }
  }

  lemma {:induction false} ShiftOut(v: nat, n: nat)
    requires v < Pow256(n)
    ensures Shift(v, n) == 0
  {
    if n > 0 {
      ShiftOut(v / 256, n - 1);
    }
  }

  lemma {:induction false} ValFromLe(v: nat, n: nat, i: nat)
    requires v < Pow256(n) && i <= n
    ensures ValFrom(Le(v, n), i) == Shift(v, i)
    decreases n - i
  {
    if i == n {
      ShiftOut(v, n);
    } else {
      ValFromLe(v, n, i + 1);
      ShiftNext(v, i);
    }
  }

  lemma ValOfLe(v: nat, n: nat)
    requires v < Pow256(n)
    ensures Val(Le(v, n)) == v
  {
    ValFromLe(v, n, 0);
  }

  lemma {:induction false} ValFromBound(bs: seq<Byte>, i: nat)
    requires i <= |bs|
    ensures ValFrom(bs, i) < Pow256(|bs| - i)
    decreases |bs| - i
  {
    if i < |bs| {
      ValFromBound(bs, i + 1);
    }
  }

  lemma {:induction false} ShiftVal(bs: seq<Byte>, i: nat)
    requires i <= |bs|
    ensures Shift(Val(bs), i) == ValFrom(bs, i)
  {
    if i > 0 {
      ShiftVal(bs, i - 1);
      ShiftNext(Val(bs), i - 1);
    }
  }

  lemma LeOfVal(bs: seq<Byte>)
    ensures Le(Val(bs), |bs|) == bs && Val(bs) < Pow256(|bs|)
  {
    forall i | 0 <= i < |bs|
      ensures Le(Val(bs), |bs|)[i] == bs[i]
    {
      ShiftVal(bs, i);
    }
    ValFromBound(bs, 0);
  }

  method WriteLe32(dst: array<Byte>, at: nat, v: nat)
    requires at + 4 <= dst.Length && v < 0x1_0000_0000
    modifies dst
    ensures dst[..] == old(dst[..at]) + Le(v, 4) + old(dst[at + 4..])
  {
    dst[at] := v % 256;
    dst[at + 1] := v / 0x100 % 256;
    dst[at + 2] := v / 0x1_0000 % 256;
    dst[at + 3] := v / 0x100_0000 % 256;
    FourBytes(v);
  }

  lemma FourBytes(v: nat)
    ensures Le(v, 4) == [v % 256, v / 0x100 % 256, v / 0x1_0000 % 256, v / 0x100_0000 % 256]
  {
    ShiftNext(v, 0);
    ShiftNext(v, 1);
    ShiftNext(v, 2);
    assert v / 0x100 / 0x100 == v / 0x1_0000 && v / 0x1_0000 / 0x100 == v / 0x100_0000;
  }

  method ReadLe32(src: array<Byte>, at: nat) returns (v: nat)
    requires at + 4 <= src.Length
    ensures v == Val(src[at..at + 4])
  {
    var b0: int, b1: int, b2: int, b3: int := src[at], src[at + 1], src[at + 2], src[at + 3];
    v := b0 + 0x100 * b1 + 0x1_0000 * b2 + 0x100_0000 * b3;
    FourVal(src[at..at + 4]);
  }

  lemma FourVal(bs: seq<Byte>)
    requires |bs| == 4
    ensures var b0: int, b1: int, b2: int, b3: int := bs[0], bs[1], bs[2], bs[3];
            Val(bs) == b0 + 0x100 * b1 + 0x1_0000 * b2 + 0x100_0000 * b3
  {
    assert ValFrom(bs, 4) == 0;
    assert ValFrom(bs, 3) == bs[3] + 256 * ValFrom(bs, 4);
    assert ValFrom(bs, 2) == bs[2] + 256 * ValFrom(bs, 3);
    assert ValFrom(bs, 1) == bs[1] + 256 * ValFrom(bs, 2);
  }

  method Le32(v: nat) returns (bs: seq<Byte>)
    requires v < 0x1_0000_0000
    ensures bs == Le(v, 4)
  {
    var buf := new Byte[4];
    WriteLe32(buf, 0, v);
    bs := buf[..];
  }

  method Le64(v: nat) returns (bs: seq<Byte>)
    requires v < 0x1_0000_0000_0000_0000
    ensures bs == Le(v, 8)
  {
    var high := v / 0x1_0000_0000;
    bs := [v % 256, v / 0x100 % 256, v / 0x1_0000 % 256, v / 0x100_0000 % 256,
           high % 256, high / 0x100 % 256, high / 0x1_0000 % 256, high / 0x100_0000 % 256];
    EightBytes(v);
  }

  lemma EightBytes(v: nat)
    ensures var w := v / 0x1_0000_0000;
            Le(v, 8) == [v % 256, v / 0x100 % 256, v / 0x1_0000 % 256, v / 0x100_0000 % 256,
                         w % 256, w / 0x100 % 256, w / 0x1_0000 % 256, w / 0x100_0000 % 256]
  {
    var w := v / 0x1_0000_0000;
    FourBytes(v);
    FourBytes(w);
    HighHalf(v);
    assert Le(v, 8) == Le(v, 4) + Le(w, 4);
  }

  lemma HighHalf(v: nat)
    ensures forall i :: 0 <= i < 4 ==> Shift(v, i + 4) == Shift(v / 0x1_0000_0000, i)
  {
    ShiftNext(v, 0);
    ShiftNext(v, 1);
    ShiftNext(v, 2);
    ShiftNext(v, 3);
    assert v / 0x100 / 0x100 == v / 0x1_0000 && v / 0x1_0000 / 0x100 == v / 0x100_0000 && v / 0x100_0000 / 0x100 == v / 0x1_0000_0000;
    forall i | 0 <= i < 4
      ensures Shift(v, i + 4) == Shift(v / 0x1_0000_0000, i)
    {
      ShiftShift(v, 4, i);
    }
  }

  lemma {:induction false} ShiftShift(v: nat, i: nat, j: nat)
    ensures Shift(v, j + i) == Shift(Shift(v, i), j)
  {
    if i > 0 {
      ShiftShift(v / 256, i - 1, j);
    }
  }

  method ReadLe64(src: array<Byte>) returns (v: nat)
    requires src.Length == 8
    ensures v == Val(src[..])
  {
    var low := ReadLe32(src, 0);
    var high := ReadLe32(src, 4);
    v := low + 0x1_0000_0000 * high;
    assert src[..] == src[0..4] + src[4..8];
    ValConcat(src[0..4], src[4..8]);
  }

  lemma ValConcat(a: seq<Byte>, b: seq<Byte>)
    requires |a| == 4
    ensures Val(a + b) == Val(a) + 0x1_0000_0000 * Val(b)
  {
    var s := a + b;
    FourVal(a);
    ValFromConcat(a, b, 0);
    assert ValFrom(s, 3) == s[3] + 256 * ValFrom(s, 4);
    assert ValFrom(s, 2) == s[2] + 256 * ValFrom(s, 3);
    assert ValFrom(s, 1) == s[1] + 256 * ValFrom(s, 2);
  }

  lemma {:induction false} ValFromConcat(a: seq<Byte>, b: seq<Byte>, j: nat)
    requires j <= |b|
    ensures ValFrom(a + b, |a| + j) == ValFrom(b, j)
    decreases |b| - j
  {
    if j < |b| {
      ValFromConcat(a, b, j + 1);
    }
  }

  lemma EightPow()
    ensures Pow256(4) == 0x1_0000_0000 && Pow256(8) == 0x1_0000_0000_0000_0000
  {
    assert Pow256(2) == 256 * Pow256(1) && Pow256(1) == 256 * Pow256(0);
    assert Pow256(4) == 256 * Pow256(3) && Pow256(3) == 256 * Pow256(2);
    assert Pow256(6) == 256 * Pow256(5) && Pow256(5) == 256 * Pow256(4);
    assert Pow256(8) == 256 * Pow256(7) && Pow256(7) == 256 * Pow256(6);
  }

  // ------------------------------------------------------------------
  // One record
  // ------------------------------------------------------------------

  /** A key is a 32-bit int; its bytes are those of the unsigned word. */
  predicate IsKey(k: int) {
    -0x8000_0000 <= k < 0x8000_0000
  }

  function ToWord(k: int): (w: nat)
    requires IsKey(k)
    ensures w < 0x1_0000_0000 && (w - k) % 0x1_0000_0000 == 0
  {
    if k < 0 then k + 0x1_0000_0000 else k
  }

  function FromWord(w: nat): (k: int)
    ensures w < 0x1_0000_0000 ==> IsKey(k) && (w - k) % 0x1_0000_0000 == 0
  {
    if w >= 0x8000_0000 then w - 0x1_0000_0000 else w
  }

  /** The length of the C string in a buffer. */
  function Strlen(buf: seq<Byte>, i: nat): (n: nat)
    requires i <= |buf|
    ensures i <= n <= |buf|
    decreases |buf| - i
  {
    if i == |buf| || buf[i] == 0 then i else Strlen(buf, i + 1)
  }

  /** What a C string function sees of a buffer. */
  function Text(buf: seq<Byte>): seq<Byte> {
    buf[..Strlen(buf, 0)]
  }

  lemma {:induction false} StrlenIs(buf: seq<Byte>, i: nat, n: nat)
    requires i <= n <= |buf| && (forall j :: i <= j < n ==> buf[j] != 0) && (n < |buf| ==> buf[n] == 0)
    ensures Strlen(buf, i) == n
    decreases n - i
  {
    if i < n {
      StrlenIs(buf, i + 1, n);
    }
  }

  lemma {:induction false} NoNulBefore(buf: seq<Byte>, i: nat, j: nat)
    requires i <= |buf| && i <= j < Strlen(buf, i)
    ensures buf[j] != 0
    decreases |buf| - i
  {
    if i < j {
      NoNulBefore(buf, i + 1, j);
    }
  }

  lemma TextFacts(buf: seq<Byte>)
    ensures 0 !in Text(buf) && Text(Text(buf)) == Text(buf)
    ensures 0 !in buf ==> Text(buf) == buf
  {
    var t := Text(buf);
    forall j | 0 <= j < |t|
      ensures t[j] != 0
    {
      NoNulBefore(buf, 0, j);
    }
    StrlenIs(t, 0, |t|);
    if 0 !in buf {
      StrlenIs(buf, 0, |buf|);
    }
  }

  function TextOf(n: Node): seq<Byte> {
    match n.value
    case None => []
    case Some(buf) => Text(buf)
  }

  ghost function SizeOf(n: Node): nat {
    8 + |TextOf(n)|
  }

  ghost function RecordOf(n: Node): (r: seq<Byte>)
    requires IsKey(n.key)
    ensures |r| == SizeOf(n)
  {
    Le(ToWord(n.key), 4) + Le(|TextOf(n)|, 4) + TextOf(n)
  }

  /** A string and the absence of one are the same on file. */
  ghost function Normal(n: Node): Node {
    n.(value := if TextOf(n) == [] then None else Some(TextOf(n)))
  }

  ghost predicate Accepts(rec: seq<Byte>) {
    |rec| >= 8 && |rec| == 8 + Val(rec[4..8])
  }

  ghost function NodeOf(rec: seq<Byte>): Node
    requires Accepts(rec)
  {
    Node(FromWord(Val(rec[..4])), if |rec| > 8 then Some(rec[8..]) else None)
  }

  /** Copies the first bytes of `src` to `buf` from `at` on. */
  method Copy(buf: array<Byte>, at: nat, src: seq<Byte>)
    requires at + |src| <= buf.Length
    modifies buf
    ensures buf[..] == old(buf[..at]) + src + old(buf[at + |src|..])
  {
    var i := 0;
    while i < |src|
      invariant 0 <= i <= |src|
      invariant forall j :: 0 <= j < buf.Length && !(at <= j < at + i) ==> buf[j] == old(buf[j])
      invariant forall j :: 0 <= j < i ==> buf[at + j] == src[j]
    {
      buf[at + i] := src[i];
      i := i + 1;
    }
  }

  method WriteEntry(n: Node, buf: array<Byte>) returns (bytes: nat)
    requires IsKey(n.key) && SizeOf(n) <= MAX_RECORD && SizeOf(n) <= buf.Length
    modifies buf
    ensures bytes == SizeOf(n) && buf[..bytes] == RecordOf(n)
  {
    var off := 0;
    WriteLe32(buf, off, ToWord(n.key));
    off := off + 4;
    var slen := |TextOf(n)|;
    ghost var a := buf[..4];
    WriteLe32(buf, off, slen);
    off := off + 4;
    assert buf[..8] == Le(ToWord(n.key), 4) + Le(slen, 4);
    Copy(buf, off, TextOf(n));
    off := off + slen;
    bytes := off;
  }

  method ReadEntry(buf: array<Byte>) returns (rc: Errno, n: Node)
    ensures rc == if Accepts(buf[..]) then OK else EINVAL
    ensures rc == OK ==> n == NodeOf(buf[..])
  {
    var off, bytes := 0, buf.Length;
    n := Node(0, None);
    if bytes < 8 {
      return EINVAL, n;
    }
    var word := ReadLe32(buf, off);
    off := off + 4;
    var slen := ReadLe32(buf, off);
    off := off + 4;
    assert buf[..][..4] == buf[0..4] && buf[..][4..8] == buf[4..8] && buf[..][8..] == buf[8..];
    if slen != bytes - off {
      return EINVAL, n;
    }
    n := Node(FromWord(word), if slen > 0 then Some(buf[off..]) else None);
    rc := OK;
  }

  /** Writing and reading back gives the node. */
  lemma ReadOfWrite(n: Node)
    requires IsKey(n.key) && SizeOf(n) <= MAX_RECORD
    ensures Accepts(RecordOf(n)) && NodeOf(RecordOf(n)) == Normal(n)
  {
    var r, t := RecordOf(n), TextOf(n);
    assert r[..4] == Le(ToWord(n.key), 4) && r[4..8] == Le(|t|, 4) && r[8..] == t;
    EightPow();
    ValOfLe(ToWord(n.key), 4);
    ValOfLe(|t|, 4);
  }

  /** Reading and writing back gives the record, unless its string holds a NUL
      byte. */
  lemma WriteOfReadIff(rec: seq<Byte>)
    requires Accepts(rec)
    ensures IsKey(NodeOf(rec).key)
    ensures RecordOf(NodeOf(rec)) == rec <==> 0 !in rec[8..]
  {
    LeOfVal(rec[..4]);
    LeOfVal(rec[4..8]);
    EightPow();
    var n := NodeOf(rec);
    assert ToWord(n.key) == Val(rec[..4]);
    assert rec == rec[..4] + rec[4..8] + rec[8..];
    if 0 !in rec[8..] {
      TextFacts(rec[8..]);
      assert TextOf(n) == rec[8..];
    } else {
      TextFacts(rec[8..]);
      assert RecordOf(n)[8..] == TextOf(n);
    }
  }
}
