/**
  The archive format, told byte by byte: what a file of the format is, what is
  wrong with any other, and what a list loaded from it holds.  Nothing here says
  how a file is read.
 */
module FileFormat {
  import opened RecordCodec

  /** Four bytes, the lowest first. */
  function Word32(data: seq<Byte>, at: nat): nat
    requires at + 4 <= |data|
  {
    var b0: int, b1: int, b2: int, b3: int := data[at], data[at + 1], data[at + 2], data[at + 3];
    b0 + 0x100 * b1 + 0x1_0000 * b2 + 0x100_0000 * b3
  }

  function Word64(data: seq<Byte>, at: nat): nat
    requires at + 8 <= |data|
  {
    Word32(data, at) + 0x1_0000_0000 * Word32(data, at + 4)
  }

  predicate HasMagic(data: seq<Byte>) {
    |data| >= 4 && data[0] == 0x53 && data[1] == 0x4B && data[2] == 0x50 && data[3] == 0x4C
  }

  /** Magic, version 1, and a count. */
  predicate HasHeader(data: seq<Byte>) {
    |data| >= 16 && HasMagic(data) && Word32(data, 4) == 1
  }

  /** A complete frame from `pos` to `end`: a size within the limit, and a record of
      that size -- a key, the length of a string, and the string. */
  predicate FrameAt(data: seq<Byte>, pos: nat, end: nat) {
    && pos + 16 <= end <= |data| && Word64(data, pos) <= MAX_RECORD
    && end == pos + 8 + Word64(data, pos) && end == pos + 16 + Word32(data, pos + 12)
  }

  function KeyAt(data: seq<Byte>, pos: nat): int
    requires pos + 12 <= |data|
  {
    var w := Word32(data, pos + 8);
    if w < 0x8000_0000 then w else w - 0x1_0000_0000
  }

  /** The frames from the header on; `ends[i]` is where the i-th begins. */
  ghost predicate Frames(data: seq<Byte>, ends: seq<nat>) {
    ends != [] && ends[0] == 16 && forall i :: 0 <= i < |ends| - 1 ==> FrameAt(data, ends[i], ends[i + 1])
  }

  ghost predicate SameKey(data: seq<Byte>, p: nat, q: nat) {
    p + 12 <= |data| && q + 12 <= |data| && KeyAt(data, p) == KeyAt(data, q)
  }

  ghost predicate KeysDiffer(data: seq<Byte>, ends: seq<nat>) {
    forall i, j :: 0 <= i < j < |ends| - 1 ==> !SameKey(data, ends[i], ends[j])
  }

  /** As many frames as the header says, with distinct keys. */
  ghost predicate IsArchive(data: seq<Byte>) {
    HasHeader(data) && exists ends: seq<nat> :: |ends| == Word64(data, 8) + 1 && Frames(data, ends) && KeysDiffer(data, ends)
  }

  /** What is wrong with a file without a proper header: it ends too soon, or
      starts otherwise. */
  function HeaderFault(data: seq<Byte>): Errno {
    if |data| >= 4 && !HasMagic(data) then EINVAL
    else if |data| >= 8 && Word32(data, 4) != 1 then EINVAL
    else EIO
  }

  /** What is wrong behind the frames of `ends`: the file ends inside the next one;
      its size is beyond the limit, or not that of its record; or its key was
      there before. */
  ghost predicate Fault(data: seq<Byte>, ends: seq<nat>, e: Errno)
    requires ends != []
  {
    var pos := ends[|ends| - 1];
    || (e == EIO && (|data| < pos + 8 || (Word64(data, pos) <= MAX_RECORD && |data| < pos + 8 + Word64(data, pos))))
    || (e == EINVAL && pos + 8 <= |data| &&
          (Word64(data, pos) > MAX_RECORD ||
           (pos + 8 + Word64(data, pos) <= |data| && !FrameAt(data, pos, pos + 8 + Word64(data, pos)))))
    || (e == EEXIST && pos + 8 <= |data| && FrameAt(data, pos, pos + 8 + Word64(data, pos)) &&
          exists i :: 0 <= i < |ends| - 1 && SameKey(data, ends[i], pos))
  }

  /** The node of the frame from `pos` to `end`. */
  ghost predicate IsNode(data: seq<Byte>, pos: nat, end: nat, n: Node) {
    && pos + 16 <= end <= |data| && n.key == KeyAt(data, pos)
    && n.value == if end == pos + 16 then None else Some(data[pos + 16..end])
  }

  ghost predicate Before(list: seq<Node>, i: nat, j: nat)
    requires i < |list| && j < |list|
  {
    list[i].key < list[j].key
  }

  ghost predicate InOrder(list: seq<Node>) {
    forall i, j :: 0 <= i < j < |list| ==> Before(list, i, j)
  }

  ghost predicate Held(data: seq<Byte>, pos: nat, end: nat, list: seq<Node>) {
    exists n :: n in list && IsNode(data, pos, end, n)
  }

  ghost predicate Stands(data: seq<Byte>, ends: seq<nat>, n: Node) {
    exists i :: 0 <= i < |ends| - 1 && IsNode(data, ends[i], ends[i + 1], n)
  }

  /** The list has the nodes of all these frames and no others, in key order. */
  ghost predicate Holds(data: seq<Byte>, ends: seq<nat>, list: seq<Node>) {
    && |list| == |ends| - 1 && InOrder(list)
    && (forall i :: 0 <= i < |ends| - 1 ==> Held(data, ends[i], ends[i + 1], list))
    && (forall n <- list :: Stands(data, ends, n))
  }

  /** How a load of a file with a proper header ends. */
  ghost predicate LoadedAs(data: seq<Byte>, ends: seq<nat>, rc: Errno, list: seq<Node>)
    requires |data| >= 16
  {
    && Frames(data, ends) && KeysDiffer(data, ends) && Holds(data, ends, list)
    && if rc == OK then |ends| == Word64(data, 8) + 1 else |ends| <= Word64(data, 8) && Fault(data, ends, rc)
  }

  // ------------------------------------------------------------------
  // A file is read in one way only
  // ------------------------------------------------------------------

  lemma {:induction false} SameFrames(data: seq<Byte>, a: seq<nat>, b: seq<nat>, i: nat)
    requires Frames(data, a) && Frames(data, b) && i < |a| && i < |b|
    ensures a[i] == b[i]
  {
    if i > 0 {
      SameFrames(data, a, b, i - 1);
      assert FrameAt(data, a[i - 1], a[i - 1 + 1]) && FrameAt(data, b[i - 1], b[i - 1 + 1]);
    }
  }

  /** A file with a fault is no archive. */
  lemma FaultyIsNoArchive(data: seq<Byte>, ends: seq<nat>, rc: Errno)
    requires HasHeader(data) && Frames(data, ends) && |ends| <= Word64(data, 8) && Fault(data, ends, rc)
    ensures !IsArchive(data)
  {
    forall all: seq<nat> | |all| == Word64(data, 8) + 1 && Frames(data, all)
      ensures !KeysDiffer(data, all)
    {
      var j := |ends| - 1;
      SameFrames(data, all, ends, j);
      assert FrameAt(data, all[j], all[j + 1]);
      var i :| 0 <= i < j && SameKey(data, ends[i], ends[j]);
      SameFrames(data, all, ends, i);
      assert SameKey(data, all[i], all[j]);
    }
  }

  /** So the result tells the archives from the other files. */
  lemma OkIffArchive(data: seq<Byte>, ends: seq<nat>, rc: Errno, list: seq<Node>)
    requires HasHeader(data) && LoadedAs(data, ends, rc, list)
    ensures rc == OK <==> IsArchive(data)
  {
    if rc != OK {
      FaultyIsNoArchive(data, ends, rc);
    }
  }
}
