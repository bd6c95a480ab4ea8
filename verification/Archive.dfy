/**
  Saving a list to a file and loading it: the header, and a frame -- size and
  record -- for each node.  A file is the sequence of its bytes.
 */
module Archive {
  import opened Framing
  import opened RecordCodec
  import opened FileFormat

  const MAGIC: seq<Byte> := [0x53, 0x4B, 0x50, 0x4C]

  const VERSION: nat := 1

  ghost function Header(count: nat): (h: seq<Byte>)
    ensures |h| == 16
  {
    MAGIC + Le(VERSION, 4) + Le(count, 8)
  }

  ghost function Frame(n: Node): seq<Byte>
    requires IsKey(n.key)
  {
    Le(SizeOf(n), 8) + RecordOf(n)
  }

  ghost predicate KeyFits(n: Node) {
    IsKey(n.key)
  }

  ghost predicate AllKeys(nodes: seq<Node>) {
    forall i :: 0 <= i < |nodes| ==> KeyFits(nodes[i])
  }

  ghost predicate Fits(n: Node) {
    SizeOf(n) <= MAX_RECORD
  }

  ghost predicate AllFit(nodes: seq<Node>) {
    forall i :: 0 <= i < |nodes| ==> Fits(nodes[i])
  }

  ghost function FrameAt(nodes: seq<Node>, i: nat): seq<Byte>
    requires AllKeys(nodes) && i < |nodes|
  {
    assert KeyFits(nodes[i]);
    Frame(nodes[i])
  }

  ghost function Frames(nodes: seq<Node>): (frames: seq<seq<Byte>>)
    requires AllKeys(nodes)
    ensures |frames| == |nodes|
  {
    seq(|nodes|, i requires 0 <= i < |nodes| => FrameAt(nodes, i))
  }

  // ------------------------------------------------------------------
  // Saving
  // ------------------------------------------------------------------

  method WriteHeader(count: nat) returns (file: seq<Byte>)
    requires count < 0x1_0000_0000_0000_0000
    ensures file == Header(count)
  {
    file := MAGIC;
    var field := Le32(VERSION);
    file := file + field;
    field := Le64(count);
    file := file + field;
  }

  /** One node's frame, by way of the scratch buffer. */
  method Emit(n: Node, buf0: array<Byte>) returns (buf: array<Byte>, frame: seq<Byte>)
    requires IsKey(n.key) && Fits(n)
    modifies buf0
    ensures frame == Frame(n) && (buf == buf0 || fresh(buf))
  {
    buf := buf0;
    var need := 8 + |TextOf(n)|;
    if need > buf.Length {
      buf := new Byte[need];
    }
    var bytes := WriteEntry(n, buf);
    frame := Le64(bytes);
    frame := frame + buf[..bytes];
  }

  /** How many nodes can be saved: those before the first too large one. */
  ghost function Savable(nodes: seq<Node>, i: nat): (n: nat)
    requires i <= |nodes|
    ensures i <= n <= |nodes|
    ensures (forall j :: i <= j < n ==> Fits(nodes[j])) && (n < |nodes| ==> !Fits(nodes[n]))
    decreases |nodes| - i
  {
    if i < |nodes| && Fits(nodes[i]) then Savable(nodes, i + 1) else i
  }

  /** Node after node through one scratch buffer that grows as needed, up to the
      first node that is too large. */
  method SaveNodes(nodes: seq<Node>, start: seq<Byte>) returns (rc: Errno, file: seq<Byte>)
    requires AllKeys(nodes)
    ensures file == Joined(start, Frames(nodes), Savable(nodes, 0))
    ensures rc == if AllFit(nodes) then OK else EOVERFLOW
  {
    file := start;
    var buf := new Byte[0];
    var i := 0;
    while i < |nodes|
      invariant 0 <= i <= |nodes| && fresh(buf) && forall j :: 0 <= j < i ==> Fits(nodes[j])
      invariant file == Joined(start, Frames(nodes), i) && Savable(nodes, 0) == Savable(nodes, i)
    {
      if 8 + |TextOf(nodes[i])| > MAX_RECORD {
        assert !Fits(nodes[i]);
        return EOVERFLOW, file;
      }
      assert KeyFits(nodes[i]) && FrameAt(nodes, i) == Frames(nodes)[i];
      var frame;
      buf, frame := Emit(nodes[i], buf);
      file := file + frame;
      i := i + 1;
    }
    rc := OK;
  }

  method Serialize(nodes: seq<Node>) returns (rc: Errno, file: seq<Byte>)
    requires AllKeys(nodes) && |nodes| < 0x1_0000_0000_0000_0000
    ensures file == Joined(Header(|nodes|), Frames(nodes), Savable(nodes, 0))
    ensures rc == if AllFit(nodes) then OK else EOVERFLOW
  {
    file := WriteHeader(|nodes|);
    rc, file := SaveNodes(nodes, file);
  }

  // ------------------------------------------------------------------
  // Loading
  // ------------------------------------------------------------------

  /** The list being loaded, in key order. */
  ghost function Place(list: seq<Node>, k: int): (r: nat)
    ensures r <= |list|
  {
    if list == [] || list[0].key >= k then 0 else 1 + Place(list[1..], k)
  }

  lemma {:induction false} PlaceIs(list: seq<Node>, k: int, r: nat)
    requires r <= |list| && (forall i :: 0 <= i < r ==> list[i].key < k) && (r < |list| ==> list[r].key >= k)
    ensures Place(list, k) == r
  {
    if r > 0 {
      PlaceIs(list[1..], k, r - 1);
    }
  }

  ghost predicate Has(list: seq<Node>, k: int) {
    Place(list, k) < |list| && list[Place(list, k)].key == k
  }

  ghost function Insert(list: seq<Node>, n: Node): seq<Node> {
    list[..Place(list, n.key)] + [n] + list[Place(list, n.key)..]
  }

  /** The size the frame at `pos` declares. */
  ghost function SizeAt(data: seq<Byte>, pos: nat): nat
    requires pos + 8 <= |data|
  {
    Val(data[pos..pos + 8])
  }

  ghost function RecordAt(data: seq<Byte>, pos: nat): seq<Byte>
    requires pos + 8 <= |data| && pos + 8 + SizeAt(data, pos) <= |data|
  {
    data[pos + 8..pos + 8 + SizeAt(data, pos)]
  }

  /** What is wrong with the record at `pos`, if anything: it may be cut short,
      too large, malformed or a duplicate. */
  ghost function ErrorAt(data: seq<Byte>, pos: nat, list: seq<Node>): Errno
    requires pos <= |data|
  {
    if |data| < pos + 8 then EIO
    else if SizeAt(data, pos) > MAX_RECORD then EINVAL
    else if |data| < pos + 8 + SizeAt(data, pos) then EIO
    else if !Accepts(RecordAt(data, pos)) then EINVAL
    else if Has(list, NodeOf(RecordAt(data, pos)).key) then EEXIST
    else OK
  }

  /** What the record at `pos` does to the list. */
  ghost function StepAt(data: seq<Byte>, pos: nat, list: seq<Node>): Step<seq<Node>, Errno> {
    if pos > |data| then Stop(EIO)
    else if ErrorAt(data, pos, list) != OK then Stop(ErrorAt(data, pos, list))
    else Next(pos + 8 + SizeAt(data, pos), Insert(list, NodeOf(RecordAt(data, pos))))
  }

  ghost function Reader(data: seq<Byte>): (nat, seq<Node>) -> Step<seq<Node>, Errno> {
    (pos: nat, list: seq<Node>) => StepAt(data, pos, list)
  }

  /** The outcome of a load: it stops at the first bad record, and the nodes
      before it stay. */
  ghost function Outcome(loaded: (seq<Node>, Step<seq<Node>, Errno>)): (Errno, seq<Node>) {
    (if loaded.1.Stop? then loaded.1.error else OK, loaded.0)
  }

  ghost function OpenOf(data: seq<Byte>): (Errno, seq<Node>) {
    if |data| < 4 then (EIO, [])
    else if data[..4] != MAGIC then (EINVAL, [])
    else if |data| < 8 then (EIO, [])
    else if Val(data[4..8]) != VERSION then (EINVAL, [])
    else if |data| < 16 then (EIO, [])
    else Outcome(Load(Reader(data), 16, Val(data[8..16]), []))
  }

  /** An open file: reading fewer bytes than asked for is an error. */
  class Stream {
    const data: seq<Byte>
    var pos: nat

    constructor (d: seq<Byte>)
      ensures data == d && pos == 0
    {
      data, pos := d, 0;
    }

    method Read(n: nat) returns (ok: bool, buf: array<Byte>)
      requires pos <= |data|
      modifies this
      ensures pos <= |data| && fresh(buf)
      ensures ok == (|data| - old(pos) >= n)
      ensures ok ==> buf[..] == data[old(pos)..old(pos) + n] && pos == old(pos) + n
      ensures !ok ==> pos == |data|
    {
      if |data| - pos < n {
        pos := |data|;
        buf := new Byte[0];
        return false, buf;
      }
      buf := new Byte[n](i requires 0 <= i < n && pos + n <= |data| reads this => data[pos + i]);
      pos := pos + n;
      ok := true;
    }
  }

  /** The list the records go into. */
  class Target {
    var nodes: seq<Node>

    constructor ()
      ensures nodes == []
    {
      nodes := [];
    }

    method Add(n: Node) returns (rc: Errno)
      modifies this
      ensures rc == if Has(old(nodes), n.key) then EEXIST else OK
      ensures nodes == if rc == OK then Insert(old(nodes), n) else old(nodes)
    {
      var i := 0;
      while i < |nodes| && nodes[i].key < n.key
        invariant 0 <= i <= |nodes| && forall j :: 0 <= j < i ==> nodes[j].key < n.key
      {
        i := i + 1;
      }
      PlaceIs(nodes, n.key, i);
      if i < |nodes| && nodes[i].key == n.key {
        return EEXIST;
      }
      nodes := nodes[..i] + [n] + nodes[i..];
      rc := OK;
    }
  }

  /** The list must be empty.  The archives load; any other file gives the error of
      its first fault, and the list keeps the nodes of the frames before that. */
  method Deserialize(file: Stream, list: Target) returns (rc: Errno)
    requires file.pos == 0 && list.nodes == []
    modifies file, list
    ensures (rc, list.nodes) == OpenOf(file.data)
    ensures rc == OK <==> IsArchive(file.data)
    ensures HasHeader(file.data) ==> exists ends: seq<nat> :: LoadedAs(file.data, ends, rc, list.nodes)
    ensures !HasHeader(file.data) ==> rc == HeaderFault(file.data) && list.nodes == []
  {
    ghost var data := file.data;
    OpenIsByFormat(data);
    var ok, buf := file.Read(4);
    if !ok {
      return EIO;
    }
    assert buf[..] == data[..4];
    if buf[..] != MAGIC {
      return EINVAL;
    }
    ok, buf := file.Read(4);
    if !ok {
      return EIO;
    }
    assert buf[0..4] == data[4..8];
    var version := ReadLe32(buf, 0);
    if version != VERSION {
      return EINVAL;
    }
    ok, buf := file.Read(8);
    if !ok {
      return EIO;
    }
    assert buf[..] == data[8..16];
    var count := ReadLe64(buf);
    rc := LoadRecords(file, list, count);
  }

  /** The size of a record, then the record. */
  method ReadFrame(file: Stream) returns (rc: Errno, buf: array<Byte>)
    requires file.pos <= |file.data|
    modifies file
    ensures file.pos <= |file.data| && fresh(buf)
    ensures var data, pos := file.data, old(file.pos);
            && (rc == if |data| < pos + 8 then EIO else if SizeAt(data, pos) > MAX_RECORD then EINVAL
                      else if |data| < pos + 8 + SizeAt(data, pos) then EIO else OK)
            && (rc == OK ==> file.pos == pos + 8 + SizeAt(data, pos) && buf[..] == RecordAt(data, pos))
  {
    var ok;
    ok, buf := file.Read(8);
    if !ok {
      return EIO, buf;
    }
    var bytes := ReadLe64(buf);
    if bytes > MAX_RECORD {
      return EINVAL, buf;
    }
    ok, buf := file.Read(bytes);
    rc := if ok then OK else EIO;
  }

  /** One record into the list. */
  method LoadRecord(file: Stream, list: Target) returns (rc: Errno)
    requires file.pos <= |file.data|
    modifies file, list
    ensures file.pos <= |file.data|
    ensures var step := StepAt(file.data, old(file.pos), old(list.nodes));
            if rc == OK then step == Next(file.pos, list.nodes) else step == Stop(rc) && list.nodes == old(list.nodes)
  {
    var buf;
    rc, buf := ReadFrame(file);
    if rc != OK {
      return;
    }
    var node;
    rc, node := ReadEntry(buf);
    if rc != OK {
      return;
    }
    rc := list.Add(node);
  }

  method LoadRecords(file: Stream, list: Target, count: nat) returns (rc: Errno)
    requires file.pos <= |file.data|
    modifies file, list
    ensures (rc, list.nodes) == Outcome(Load(Reader(file.data), old(file.pos), count, old(list.nodes)))
  {
    ghost var step := Reader(file.data);
    var n := 0;
    while n < count
      invariant 0 <= n <= count && file.pos <= |file.data|
      invariant Load(step, file.pos, count - n, list.nodes) == Load(step, old(file.pos), count, old(list.nodes))
    {
      assert step(file.pos, list.nodes) == StepAt(file.data, file.pos, list.nodes);
      rc := LoadRecord(file, list);
      if rc != OK {
        return;
      }
      n := n + 1;
    }
    rc := OK;
  }

  // ------------------------------------------------------------------
  // Loading, byte by byte
  // ------------------------------------------------------------------

  lemma FieldIs(data: seq<Byte>, at: nat)
    requires at + 4 <= |data|
    ensures Val(data[at..at + 4]) == Word32(data, at)
  {
    FourVal(data[at..at + 4]);
  }

  lemma LongFieldIs(data: seq<Byte>, at: nat)
    requires at + 8 <= |data|
    ensures Val(data[at..at + 8]) == Word64(data, at)
  {
    FieldIs(data, at);
    FieldIs(data, at + 4);
    assert data[at..at + 8] == data[at..at + 4] + data[at + 4..at + 8];
    ValConcat(data[at..at + 4], data[at + 4..at + 8]);
  }

  lemma Subslice(data: seq<Byte>, from: nat, to: nat, i: nat, j: nat)
    requires from + i <= from + j <= to <= |data|
    ensures data[from..to][i..j] == data[from + i..from + j]
  {
    forall k | 0 <= k < j - i
      ensures data[from..to][i..j][k] == data[from + i..from + j][k]
    {
    }
  }

  /** A record within the file is accepted if it makes up a frame of the format, and
      its node is the one that stands there. */
  lemma RecordIs(data: seq<Byte>, pos: nat)
    requires pos + 8 <= |data| && SizeAt(data, pos) <= MAX_RECORD && pos + 8 + SizeAt(data, pos) <= |data|
    ensures SizeAt(data, pos) == Word64(data, pos)
    ensures var rec, end := RecordAt(data, pos), pos + 8 + SizeAt(data, pos);
            && (Accepts(rec) <==> FileFormat.FrameAt(data, pos, end))
            && (Accepts(rec) ==> IsNode(data, pos, end, NodeOf(rec)))
  {
    LongFieldIs(data, pos);
    var rec, end := RecordAt(data, pos), pos + 8 + SizeAt(data, pos);
    if |rec| >= 8 {
      Subslice(data, pos + 8, end, 0, 4);
      Subslice(data, pos + 8, end, 4, 8);
      Subslice(data, pos + 8, end, 8, |rec|);
      FieldIs(data, pos + 8);
      FieldIs(data, pos + 12);
    }
  }

  lemma {:induction false} PlaceSplits(list: seq<Node>, k: int)
    ensures forall i :: 0 <= i < Place(list, k) ==> list[i].key < k
    ensures Place(list, k) < |list| ==> list[Place(list, k)].key >= k
  {
    if list != [] && list[0].key < k {
      PlaceSplits(list[1..], k);
    }
  }

  /** In a list in order, a key is where its place is. */
  lemma HasIff(list: seq<Node>, k: int)
    requires InOrder(list)
    ensures Has(list, k) <==> exists n :: n in list && n.key == k
    ensures forall i :: Place(list, k) <= i < |list| ==> list[i].key >= k
  {
    PlaceSplits(list, k);
    forall i | Place(list, k) < i < |list|
      ensures list[i].key > list[Place(list, k)].key
    {
      assert Before(list, Place(list, k), i);
    }
    if Has(list, k) {
      assert list[Place(list, k)] in list;
    }
  }

  lemma InsertKeepsOrder(list: seq<Node>, n: Node)
    requires InOrder(list) && !Has(list, n.key)
    ensures InOrder(Insert(list, n)) && |Insert(list, n)| == |list| + 1
    ensures n in Insert(list, n) && forall m :: m in Insert(list, n) <==> m == n || m in list
  {
    HasIff(list, n.key);
    PlaceSplits(list, n.key);
    var p, all := Place(list, n.key), Insert(list, n);
    assert all[p] == n;
    assert list == list[..p] + list[p..];
    forall i, j | 0 <= i < j < |all|
      ensures Before(all, i, j)
    {
      if i != p && j != p {
        assert Before(list, if i < p then i else i - 1, if j < p then j else j - 1);
      } else {
        assert i != p ==> list[i] in list;
        assert j != p ==> list[j - 1] in list;
      }
    }
  }

  /** The keys in the list are those of the frames. */
  lemma KeyIsHeld(data: seq<Byte>, ends: seq<nat>, list: seq<Node>, n: Node, end: nat)
    requires Holds(data, ends, list) && ends != [] && IsNode(data, ends[|ends| - 1], end, n)
    ensures Has(list, n.key) <==> exists i :: 0 <= i < |ends| - 1 && SameKey(data, ends[i], ends[|ends| - 1])
  {
    HasIff(list, n.key);
    if Has(list, n.key) {
      var m :| m in list && m.key == n.key;
      assert Stands(data, ends, m);
      var i :| 0 <= i < |ends| - 1 && IsNode(data, ends[i], ends[i + 1], m);
      assert SameKey(data, ends[i], ends[|ends| - 1]);
    }
    if i :| 0 <= i < |ends| - 1 && SameKey(data, ends[i], ends[|ends| - 1]) {
      assert Held(data, ends[i], ends[i + 1], list);
    }
  }

  /** One good frame more ... */
  lemma FrameMore(data: seq<Byte>, ends: seq<nat>, list: seq<Node>, n: Node, end: nat)
    requires FileFormat.Frames(data, ends) && KeysDiffer(data, ends) && Holds(data, ends, list) && !Has(list, n.key)
    requires FileFormat.FrameAt(data, ends[|ends| - 1], end) && IsNode(data, ends[|ends| - 1], end, n)
    ensures FileFormat.Frames(data, ends + [end]) && KeysDiffer(data, ends + [end])
  {
    var more := ends + [end];
    KeyIsHeld(data, ends, list, n, end);
    forall i | 0 <= i < |more| - 1
      ensures FileFormat.FrameAt(data, more[i], more[i + 1])
    {
      if i < |ends| - 1 {
        assert FileFormat.FrameAt(data, ends[i], ends[i + 1]);
      }
    }
    forall i, j | 0 <= i < j < |more| - 1
      ensures !SameKey(data, more[i], more[j])
    {
      assert j < |ends| - 1 ==> !SameKey(data, ends[i], ends[j]);
    }
  }

  /** ... and its node in the list. */
  lemma NodeMore(data: seq<Byte>, ends: seq<nat>, list: seq<Node>, n: Node, end: nat)
    requires ends != [] && Holds(data, ends, list) && !Has(list, n.key) && IsNode(data, ends[|ends| - 1], end, n)
    ensures Holds(data, ends + [end], Insert(list, n))
  {
    var more, all := ends + [end], Insert(list, n);
    InsertKeepsOrder(list, n);
    forall i | 0 <= i < |more| - 1
      ensures Held(data, more[i], more[i + 1], all)
    {
      if i < |ends| - 1 {
        assert Held(data, ends[i], ends[i + 1], list);
      }
    }
    forall m | m in all
      ensures Stands(data, more, m)
    {
      if m != n {
        StandsStill(data, ends, end, m);
      } else {
        assert IsNode(data, more[|ends| - 1], more[|ends| - 1 + 1], m);
      }
    }
  }

  lemma StandsStill(data: seq<Byte>, ends: seq<nat>, end: nat, m: Node)
    requires Stands(data, ends, m)
    ensures Stands(data, ends + [end], m)
  {
    var i :| 0 <= i < |ends| - 1 && IsNode(data, ends[i], ends[i + 1], m);
    var more := ends + [end];
    assert IsNode(data, more[i], more[i + 1], m);
  }

  /** What stops a load is a fault of the file. */
  lemma StopsAtFault(data: seq<Byte>, ends: seq<nat>, list: seq<Node>)
    requires FileFormat.Frames(data, ends) && Holds(data, ends, list) && ends[|ends| - 1] <= |data|
    requires ErrorAt(data, ends[|ends| - 1], list) != OK
    ensures Fault(data, ends, ErrorAt(data, ends[|ends| - 1], list))
  {
    var pos := ends[|ends| - 1];
    if pos + 8 <= |data| {
      LongFieldIs(data, pos);
      if SizeAt(data, pos) <= MAX_RECORD && pos + 8 + SizeAt(data, pos) <= |data| {
        RecordIs(data, pos);
        if Accepts(RecordAt(data, pos)) {
          KeyIsHeld(data, ends, list, NodeOf(RecordAt(data, pos)), pos + 8 + SizeAt(data, pos));
        }
      }
    }
  }

  lemma GoodFrame(data: seq<Byte>, ends: seq<nat>, list: seq<Node>)
    requires FileFormat.Frames(data, ends) && KeysDiffer(data, ends) && Holds(data, ends, list) && ends[|ends| - 1] <= |data|
    requires ErrorAt(data, ends[|ends| - 1], list) == OK
    ensures var pos := ends[|ends| - 1];
            var more := ends + [pos + 8 + SizeAt(data, pos)];
            && FileFormat.Frames(data, more) && KeysDiffer(data, more)
            && Holds(data, more, Insert(list, NodeOf(RecordAt(data, pos))))
  {
    var pos := ends[|ends| - 1];
    var end, n := pos + 8 + SizeAt(data, pos), NodeOf(RecordAt(data, pos));
    RecordIs(data, pos);
    FrameMore(data, ends, list, n, end);
    NodeMore(data, ends, list, n, end);
  }

  /** What is left of a load from `pos` on. */
  ghost function Rest(data: seq<Byte>, pos: nat, left: nat, list: seq<Node>): (Errno, seq<Node>) {
    Outcome(Load(Reader(data), pos, left, list))
  }

  lemma RestIs(data: seq<Byte>, pos: nat, left: nat, list: seq<Node>)
    requires pos <= |data| && left > 0
    ensures var e := ErrorAt(data, pos, list);
            Rest(data, pos, left, list) ==
            if e != OK then (e, list)
            else Rest(data, pos + 8 + SizeAt(data, pos), left - 1, Insert(list, NodeOf(RecordAt(data, pos))))
  {
    assert Reader(data)(pos, list) == StepAt(data, pos, list);
  }

  /** From behind the frames of `ends` on. */
  lemma {:induction false} LoadGoesOn(data: seq<Byte>, ends: seq<nat>, list: seq<Node>, left: nat, out: (Errno, seq<Node>))
      returns (all: seq<nat>)
    requires |data| >= 16 && Word64(data, 8) + 1 == |ends| + left
    requires FileFormat.Frames(data, ends) && KeysDiffer(data, ends) && Holds(data, ends, list) && ends[|ends| - 1] <= |data|
    requires out == Rest(data, ends[|ends| - 1], left, list)
    ensures LoadedAs(data, all, out.0, out.1)
    decreases left
  {
    all := ends;
    var pos := ends[|ends| - 1];
    if left > 0 {
      RestIs(data, pos, left, list);
      if ErrorAt(data, pos, list) != OK {
        StopsAtFault(data, ends, list);
      } else {
        GoodFrame(data, ends, list);
        all := LoadGoesOn(data, ends + [pos + 8 + SizeAt(data, pos)], Insert(list, NodeOf(RecordAt(data, pos))), left - 1, out);
      }
    }
  }

  lemma NoneLoaded(data: seq<Byte>)
    ensures FileFormat.Frames(data, [16]) && KeysDiffer(data, [16]) && Holds(data, [16], [])
  {
  }

  /** A load takes the archives, and ends at the first fault of any other file. */
  lemma OpenIsByFormat(data: seq<Byte>)
    ensures OpenOf(data).0 == OK <==> IsArchive(data)
    ensures HasHeader(data) ==> exists ends: seq<nat> :: LoadedAs(data, ends, OpenOf(data).0, OpenOf(data).1)
    ensures !HasHeader(data) ==> OpenOf(data) == (HeaderFault(data), [])
  {
    if |data| >= 4 {
      assert data[..4] == [data[0], data[1], data[2], data[3]];
    }
    if |data| >= 8 {
      FieldIs(data, 4);
    }
    if HasHeader(data) {
      LongFieldIs(data, 8);
      NoneLoaded(data);
      var ends := LoadGoesOn(data, [16], [], Word64(data, 8), OpenOf(data));
      OkIffArchive(data, ends, OpenOf(data).0, OpenOf(data).1);
    }
  }

  // ------------------------------------------------------------------
  // Saving and loading
  // ------------------------------------------------------------------

  /** The first `j` nodes as they come back: an empty string is none. */
  ghost function Normals(nodes: seq<Node>, j: nat): (r: seq<Node>)
    requires j <= |nodes|
    ensures |r| == j
  {
    if j == 0 then [] else Normals(nodes, j - 1) + [Normal(nodes[j - 1])]
  }

  ghost predicate Sooner(a: seq<Node>, i: nat, j: nat)
    requires i < |a| && j < |a|
  {
    a[i].key < a[j].key
  }

  /** The contents of a list without duplicates. */
  ghost predicate Ascending(nodes: seq<Node>) {
    forall i, j :: 0 <= i < j < |nodes| ==> Sooner(nodes, i, j)
  }

  lemma {:induction false} NormalsAt(nodes: seq<Node>, j: nat, i: nat)
    requires i < j <= |nodes|
    ensures Normals(nodes, j)[i] == Normal(nodes[i])
  {
    if i < j - 1 {
      NormalsAt(nodes, j - 1, i);
    }
  }

  /** A node beyond all others goes to the end. */
  lemma AppendsNext(nodes: seq<Node>, i: nat)
    requires Ascending(nodes) && i < |nodes|
    ensures !Has(Normals(nodes, i), nodes[i].key)
    ensures Insert(Normals(nodes, i), Normal(nodes[i])) == Normals(nodes, i + 1)
  {
    var list := Normals(nodes, i);
    forall h | 0 <= h < i
      ensures list[h].key < nodes[i].key
    {
      NormalsAt(nodes, i, h);
      assert Sooner(nodes, h, i);
    }
    PlaceIs(list, nodes[i].key, i);
  }

  /** A good record, as the reader finds it. */
  ghost predicate NodeAt(data: seq<Byte>, pos: nat, n: Node) {
    && pos + 8 + SizeOf(n) <= |data| && SizeAt(data, pos) == SizeOf(n) <= MAX_RECORD
    && Accepts(RecordAt(data, pos)) && NodeOf(RecordAt(data, pos)) == Normal(n)
  }

  lemma FrameReads(data: seq<Byte>, pos: nat, n: Node)
    requires IsKey(n.key) && Fits(n) && At(data, pos, Frame(n))
    ensures NodeAt(data, pos, n)
  {
    AtBoth(data, pos, Le(SizeOf(n), 8), RecordOf(n));
    SizeReads(data, pos, SizeOf(n));
    ReadOfWrite(n);
  }

  lemma SizeReads(data: seq<Byte>, pos: nat, size: nat)
    requires size <= MAX_RECORD && At(data, pos, Le(size, 8))
    ensures SizeAt(data, pos) == size
  {
    EightPow();
    ValOfLe(size, 8);
  }

  lemma StepOverNode(data: seq<Byte>, nodes: seq<Node>, i: nat, pos: nat)
    requires Ascending(nodes) && i < |nodes| && NodeAt(data, pos, nodes[i])
    ensures Reader(data)(pos, Normals(nodes, i)) == Next(pos + 8 + SizeOf(nodes[i]), Normals(nodes, i + 1))
  {
    AppendsNext(nodes, i);
  }

  /** A file that starts with a header for `count` nodes and the frames of the
      first `j` of `nodes`. */
  ghost predicate StartsWith(data: seq<Byte>, count: nat, nodes: seq<Node>, j: nat)
    requires AllKeys(nodes) && j <= |nodes|
  {
    exists tail: seq<Byte> :: data == Joined(Header(count), Frames(nodes), j) + tail
  }

  ghost function OffsetOf(count: nat, nodes: seq<Node>, j: nat): nat
    requires AllKeys(nodes) && j <= |nodes|
  {
    Offset(Header(count), Frames(nodes), j)
  }

  /** The `i`-th node of such a file is where it belongs. */
  lemma NodeStands(data: seq<Byte>, count: nat, nodes: seq<Node>, j: nat, i: nat)
    requires AllKeys(nodes) && AllFit(nodes) && i < j <= |nodes| && StartsWith(data, count, nodes, j)
    ensures NodeAt(data, OffsetOf(count, nodes, i), nodes[i])
    ensures OffsetOf(count, nodes, i + 1) == OffsetOf(count, nodes, i) + 8 + SizeOf(nodes[i])
  {
    var tail :| data == Joined(Header(count), Frames(nodes), j) + tail;
    FrameStands(Header(count), Frames(nodes), i, j, tail);
    assert KeyFits(nodes[i]) && Fits(nodes[i]) && FrameAt(nodes, i) == Frames(nodes)[i];
    FrameReads(data, OffsetOf(count, nodes, i), nodes[i]);
  }

  lemma OpenHeader(data: seq<Byte>, count: nat)
    requires count < 0x1_0000_0000_0000_0000 && At(data, 0, Header(count))
    ensures OpenOf(data) == Outcome(Load(Reader(data), 16, count, []))
  {
    AtBoth(data, 0, MAGIC + Le(VERSION, 4), Le(count, 8));
    AtBoth(data, 0, MAGIC, Le(VERSION, 4));
    assert data[0..4] == data[..4];
    EightPow();
    ValOfLe(VERSION, 4);
    ValOfLe(count, 8);
  }

  lemma StepOverFrame(data: seq<Byte>, count: nat, nodes: seq<Node>, j: nat, i: nat)
    requires AllKeys(nodes) && AllFit(nodes) && Ascending(nodes) && i < j <= |nodes| && StartsWith(data, count, nodes, j)
    ensures Reader(data)(OffsetOf(count, nodes, i), Normals(nodes, i)) == Next(OffsetOf(count, nodes, i + 1), Normals(nodes, i + 1))
  {
    NodeStands(data, count, nodes, j, i);
    StepOverNode(data, nodes, i, OffsetOf(count, nodes, i));
  }

  /** Loading comes to the `j`-th frame with the nodes before it. */
  lemma GoodNodesLoad(data: seq<Byte>, count: nat, nodes: seq<Node>, j: nat)
    requires AllKeys(nodes) && AllFit(nodes) && Ascending(nodes) && j <= |nodes| && j <= count < 0x1_0000_0000_0000_0000
    requires StartsWith(data, count, nodes, j)
    ensures OffsetOf(count, nodes, j) <= |data|
    ensures OpenOf(data) == Outcome(Load(Reader(data), OffsetOf(count, nodes, j), count - j, Normals(nodes, j)))
  {
    StartStands(data, count, nodes, j);
    OpenHeader(data, count);
    forall i | 0 <= i < j
      ensures Reader(data)(OffsetOf(count, nodes, i), Normals(nodes, i)) == Next(OffsetOf(count, nodes, i + 1), Normals(nodes, i + 1))
    {
      StepOverFrame(data, count, nodes, j, i);
    }
    LoadAlong(Reader(data), i requires 0 <= i <= j => OffsetOf(count, nodes, i), i requires 0 <= i <= j => Normals(nodes, i), count, j);
  }

  lemma StartStands(data: seq<Byte>, count: nat, nodes: seq<Node>, j: nat)
    requires AllKeys(nodes) && j <= |nodes| && StartsWith(data, count, nodes, j)
    ensures At(data, 0, Header(count)) && OffsetOf(count, nodes, j) <= |data|
  {
    var tail :| data == Joined(Header(count), Frames(nodes), j) + tail;
    HeaderStands(Header(count), Frames(nodes), j, tail);
  }

  /** The file of a list all of whose records are within the limit. */
  ghost function SaveOf(nodes: seq<Node>): seq<Byte>
    requires AllKeys(nodes)
  {
    Joined(Header(|nodes|), Frames(nodes), |nodes|)
  }

  /** Loading what was saved gives the list back, missing and empty strings
      taken as one; saving that again gives the same bytes. */
  lemma RoundTrip(nodes: seq<Node>)
    requires AllKeys(nodes) && AllFit(nodes) && Ascending(nodes) && |nodes| < 0x1_0000_0000_0000_0000
    ensures OpenOf(SaveOf(nodes)) == (OK, Normals(nodes, |nodes|))
    ensures AllKeys(Normals(nodes, |nodes|)) && SaveOf(Normals(nodes, |nodes|)) == SaveOf(nodes)
  {
    assert SaveOf(nodes) == Joined(Header(|nodes|), Frames(nodes), |nodes|) + [];
    GoodNodesLoad(SaveOf(nodes), |nodes|, nodes, |nodes|);
    NormalsSave(nodes);
  }

  lemma NormalsSave(nodes: seq<Node>)
    requires AllKeys(nodes)
    ensures AllKeys(Normals(nodes, |nodes|)) && SaveOf(Normals(nodes, |nodes|)) == SaveOf(nodes)
  {
    var normals := Normals(nodes, |nodes|);
    forall i | 0 <= i < |nodes|
      ensures normals[i] == Normal(nodes[i]) && KeyFits(nodes[i]) && KeyFits(normals[i])
    {
      NormalsAt(nodes, |nodes|, i);
      assert KeyFits(nodes[i]);
    }
    NormalFrames(nodes, normals);
  }

  lemma NormalFrames(nodes: seq<Node>, normals: seq<Node>)
    requires AllKeys(nodes) && AllKeys(normals) && |normals| == |nodes|
    requires forall i :: 0 <= i < |nodes| ==> normals[i] == Normal(nodes[i])
    ensures Frames(normals) == Frames(nodes)
  {
    forall i | 0 <= i < |nodes|
      ensures Frames(normals)[i] == Frames(nodes)[i]
    {
      assert KeyFits(nodes[i]);
      NormalFrame(nodes[i]);
    }
  }

  lemma NormalFrame(n: Node)
    requires IsKey(n.key)
    ensures Frame(Normal(n)) == Frame(n)
  {
    if n.value.Some? {
      TextFacts(n.value.value);
    }
    assert TextOf(Normal(n)) == TextOf(n);
  }

  /** A bad record stops the load with its own error; the list holds exactly the
      nodes before it. */
  lemma BadRecordStops(data: seq<Byte>, count: nat, nodes: seq<Node>, j: nat)
    requires AllKeys(nodes) && AllFit(nodes) && Ascending(nodes) && j <= |nodes| && j < count < 0x1_0000_0000_0000_0000
    requires StartsWith(data, count, nodes, j)
    ensures OffsetOf(count, nodes, j) <= |data|
    ensures var e := ErrorAt(data, OffsetOf(count, nodes, j), Normals(nodes, j));
            e != OK ==> OpenOf(data) == (e, Normals(nodes, j))
  {
    GoodNodesLoad(data, count, nodes, j);
  }

  /** A file cut short inside a frame fails with EIO, and the list holds the
      nodes whose frames are complete. */
  lemma TruncatedFile(nodes: seq<Node>, m: nat, j: nat)
    requires AllKeys(nodes) && AllFit(nodes) && Ascending(nodes) && |nodes| < 0x1_0000_0000_0000_0000
    requires j < |nodes| && OffsetOf(|nodes|, nodes, j) <= m < OffsetOf(|nodes|, nodes, j + 1)
    ensures m < |SaveOf(nodes)| && OpenOf(SaveOf(nodes)[..m]) == (EIO, Normals(nodes, j))
  {
    var header, frames := Header(|nodes|), Frames(nodes);
    var rest := m - Offset(header, frames, j);
    CutInside(header, frames, m, j);
    var data := SaveOf(nodes)[..m];
    assert data == Joined(header, frames, j) + frames[j][..rest];
    assert data[OffsetOf(|nodes|, nodes, j)..] == frames[j][..rest];
    assert KeyFits(nodes[j]) && Fits(nodes[j]) && FrameAt(nodes, j) == frames[j];
    ShortFrame(data, OffsetOf(|nodes|, nodes, j), nodes[j], Normals(nodes, j));
    BadRecordStops(data, |nodes|, nodes, j);
  }

  lemma ShortFrame(data: seq<Byte>, pos: nat, n: Node, list: seq<Node>)
    requires IsKey(n.key) && Fits(n) && pos <= |data| < pos + |Frame(n)| && data[pos..] == Frame(n)[..|data| - pos]
    ensures ErrorAt(data, pos, list) == EIO
  {
    if |data| >= pos + 8 {
      assert data[pos..pos + 8] == data[pos..][..8] == Le(SizeOf(n), 8);
      EightPow();
      ValOfLe(SizeOf(n), 8);
    }
  }
}
