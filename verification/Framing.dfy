/**
  A file made of a header and frames one after the other.
 */
module Framing {

  /** The bytes of `part` stand in `data` at `pos`. */
  ghost predicate At<T>(data: seq<T>, pos: nat, part: seq<T>) {
    pos + |part| <= |data| && data[pos..pos + |part|] == part
  }

  lemma AtBoth<T>(data: seq<T>, pos: nat, a: seq<T>, b: seq<T>)
    requires At(data, pos, a + b)
    ensures At(data, pos, a) && At(data, pos + |a|, b)
  {
    var part := data[pos..pos + |a + b|];
    assert part[..|a|] == a && part[|a|..] == b;
  }

  /** The file with its first `j` frames. */
  ghost function Joined<T>(header: seq<T>, frames: seq<seq<T>>, j: nat): seq<T>
    requires j <= |frames|
  {
    if j == 0 then header else Joined(header, frames, j - 1) + frames[j - 1]
  }

  /** Where the `j`-th frame begins. */
  ghost function Offset<T>(header: seq<T>, frames: seq<seq<T>>, j: nat): nat
    requires j <= |frames|
  {
    |Joined(header, frames, j)|
  }

  lemma {:induction false} JoinedGrows<T>(header: seq<T>, frames: seq<seq<T>>, i: nat, j: nat)
    requires i <= j <= |frames|
    ensures At(Joined(header, frames, j), 0, Joined(header, frames, i))
  {
    if i < j {
      JoinedGrows(header, frames, i, j - 1);
    }
  }

  /** Each frame stands at its offset. */
  lemma FrameStands<T>(header: seq<T>, frames: seq<seq<T>>, i: nat, j: nat, tail: seq<T>)
    requires i < j <= |frames|
    ensures At(Joined(header, frames, j) + tail, Offset(header, frames, i), frames[i])
    ensures Offset(header, frames, i + 1) == Offset(header, frames, i) + |frames[i]|
  {
    JoinedGrows(header, frames, i + 1, j);
    var data := Joined(header, frames, j);
    assert data[..Offset(header, frames, i + 1)] == Joined(header, frames, i) + frames[i];
  }

  lemma HeaderStands<T>(header: seq<T>, frames: seq<seq<T>>, j: nat, tail: seq<T>)
    requires j <= |frames|
    ensures At(Joined(header, frames, j) + tail, 0, header)
  {
    JoinedGrows(header, frames, 0, j);
    assert Joined(header, frames, j)[..|header|] == header;
  }

  /** A cut inside the `j`-th frame leaves the frames before it and a part. */
  lemma CutInside<T>(header: seq<T>, frames: seq<seq<T>>, m: nat, j: nat)
    requires j < |frames| && Offset(header, frames, j) <= m < Offset(header, frames, j + 1)
    ensures m < |Joined(header, frames, |frames|)|
    ensures Joined(header, frames, |frames|)[..m] == Joined(header, frames, j) + frames[j][..m - Offset(header, frames, j)]
  {
    JoinedGrows(header, frames, j + 1, |frames|);
    var all, upTo := Joined(header, frames, |frames|), Joined(header, frames, j + 1);
    assert all[..m] == upTo[..m];
  }

  // ------------------------------------------------------------------
  // Reading frame after frame
  // ------------------------------------------------------------------

  /** What one frame does to a load: it goes on behind the frame, or stops. */
  datatype Step<L, E> = Next(pos: nat, list: L) | Stop(error: E)

  /** Up to `count` frames from `pos` on: what was loaded, and why it stopped
      early if it did. */
  ghost function Load<L, E>(step: (nat, L) -> Step<L, E>, pos: nat, count: nat, list: L): (L, Step<L, E>)
    decreases count
  {
    if count == 0 then (list, Next(pos, list))
    else match step(pos, list)
      case Stop(e) => (list, Stop(e))
      case Next(pos', list') => Load(step, pos', count - 1, list')
  }

  /** A load that steps from offset to offset and from list to list comes to the
      `j`-th of both. */
  lemma {:induction false} LoadAlong<L(!new), E(!new)>(step: (nat, L) -> Step<L, E>, offset: nat --> nat, list: nat --> L, count: nat, j: nat)
    requires j <= count && forall i :: 0 <= i <= j ==> offset.requires(i) && list.requires(i)
    requires forall i :: 0 <= i < j ==> step(offset(i), list(i)) == Next(offset(i + 1), list(i + 1))
    ensures Load(step, offset(0), count, list(0)) == Load(step, offset(j), count - j, list(j))
  {
    if j > 0 {
      LoadAlong(step, offset, list, count, j - 1);
    }
  }
}
