/**
  Capturing a raw byte stream under a byte cap: the head in the fail-loud and drop-newest
  modes, an amortized tail in drop-oldest.
*/
module RawCapture {
  import opened Wrappers
  import opened OutputPolicy

  const USIZE_MAX: nat := 0xffff_ffff_ffff_ffff

  /** A Vec never holds more bytes than this. */
  const ISIZE_MAX: nat := 0x7fff_ffff_ffff_ffff

  function Min(a: nat, b: nat): nat {
    if a <= b then a else b
  }

  function SaturatingSub(a: nat, b: nat): nat {
    if a >= b then a - b else 0
  }

  function SaturatingDouble(a: nat): nat {
    Min(2 * a, USIZE_MAX)
  }

  function Head(s: Bytes, cap: nat): Bytes {
    s[..Min(|s|, cap)]
  }

  function Tail(s: Bytes, cap: nat): Bytes {
    s[|s| - Min(|s|, cap)..]
  }

  /** What the whole stream must leave behind. */
  function Retained(stream: Bytes, cap: Option<nat>, mode: OverflowMode): Bytes {
    match cap
    case None => stream
    case Some(n) => if mode.DropOldest? then Tail(stream, n) else Head(stream, n)
  }

  predicate Exceeds(stream: Bytes, cap: Option<nat>) {
    cap.Some? && |stream| > cap.value
  }

  ghost predicate Suffix(buf: Bytes, stream: Bytes) {
    && |buf| <= |stream|
    && forall i | 0 <= i < |buf| :: buf[i] == stream[|stream| - |buf| + i]
  }

  /** What is in the buffer between pushes: like `Retained`, but a tail may run on to 2 * cap. */
  ghost predicate Holds(buf: Bytes, stream: Bytes, cap: Option<nat>, mode: OverflowMode) {
    if mode.DropOldest? && cap.Some? then
      && Suffix(buf, stream)
      && Min(|stream|, cap.value) <= |buf| <= 2 * cap.value
    else buf == Retained(stream, cap, mode)
  }

  ghost predicate Captured(cap: Option<nat>, mode: OverflowMode, buf: Bytes, stream: Bytes, moved: nat) {
    && |buf| <= ISIZE_MAX
    && Holds(buf, stream, cap, mode)
    && moved + |buf| <= |stream|
  }

  /** The capture of one stream: the buffer and the two signals the verbs read at the end. */
  class Capture {
    const cap: Option<nat>
    const mode: OverflowMode
    var buf: Bytes
    var overflowed: bool
    var truncated: bool

    // History: everything pushed, and how many retained bytes compactions have moved.
    ghost var stream: Bytes
    ghost var moved: nat

    ghost predicate Valid()
      reads this
    {
      && Captured(cap, mode, buf, stream, moved)
      && overflowed == (mode.Error? && Exceeds(stream, cap))
      && truncated == (!mode.Error? && Exceeds(stream, cap))
    }

    constructor (cap: Option<nat>, mode: OverflowMode)
      ensures Valid() && this.cap == cap && this.mode == mode && buf == [] && stream == [] && moved == 0
    {
      this.cap, this.mode := cap, mode;
      buf, overflowed, truncated := [], false, false;
      stream, moved := [], 0;
    }

    /** One read from the pipe. The Vec's own length limit is the only demand. */
    method Push(chunk: Bytes)
      requires Valid() && |buf| + |chunk| <= ISIZE_MAX
      modifies this
      ensures Valid() && stream == old(stream) + chunk
      ensures (old(overflowed) ==> overflowed) && (old(truncated) ==> truncated)
    {
      if cap.None? {
        stream, buf := stream + chunk, buf + chunk;
        return;
      }
      var n := cap.value;
      match mode
      case Error =>
        HeadPush(buf, stream, moved, chunk, cap, mode);
        stream := stream + chunk;
        if |buf| + |chunk| > n {
          overflowed := true;
          var room := SaturatingSub(n, |buf|);
          buf := buf + chunk[..Min(room, |chunk|)];
        } else {
          buf := buf + chunk;
        }
      case DropNewest =>
        HeadPush(buf, stream, moved, chunk, cap, mode);
        stream := stream + chunk;
        var room := SaturatingSub(n, |buf|);
        var take := Min(room, |chunk|);
        if take < |chunk| {
          truncated := true;
        }
        buf := buf + chunk[..take];
      case DropOldest =>
        PushTail(chunk);
    }

    /** The drop-oldest arm of `Push`: compact only once the tail has outgrown twice the cap. */
    method PushTail(chunk: Bytes)
      requires Valid() && cap.Some? && mode.DropOldest? && |buf| + |chunk| <= ISIZE_MAX
      modifies this
      ensures Valid() && stream == old(stream) + chunk
      ensures old(truncated) ==> truncated
      ensures moved == old(moved) +
                if |old(buf)| + |chunk| > SaturatingDouble(cap.value) then cap.value else 0
    {
      var n := cap.value;
      TailPush(buf, stream, moved, chunk, cap, mode);
      stream := stream + chunk;
      buf := buf + chunk;
      if |buf| > n {
        truncated := true;
        if |buf| > SaturatingDouble(n) {
          TailCompacts(old(buf), old(stream), moved, chunk, cap, mode);
          var excess := |buf| - n;
          buf := buf[excess..];
          moved := moved + n;
        }
      }
    }

    /** The last step of a capture: exactly the specified bytes remain. */
    method Clamp()
      requires Valid()
      modifies this`buf, this`moved
      ensures buf == Retained(stream, cap, mode)
      ensures moved == old(moved) + if buf == old(buf) then 0 else |buf|
      ensures moved <= |stream|
    {
      if mode.DropOldest? && cap.Some? && |buf| > cap.value {
        var excess := |buf| - cap.value;
        SuffixTrims(buf, stream, cap.value);
        buf := buf[excess..];
        moved := moved + cap.value;
      }
    }
  }

  function Joined(chunks: seq<Bytes>): (r: Bytes) {
    if chunks == [] then [] else Joined(chunks[..|chunks| - 1]) + chunks[|chunks| - 1]
  }

  lemma SuffixTrims(buf: Bytes, stream: Bytes, cap: nat)
    requires Suffix(buf, stream) && cap <= |buf|
    ensures buf[|buf| - cap..] == Tail(stream, cap) && Suffix(Tail(stream, cap), stream)
  {
    var kept, tail := buf[|buf| - cap..], Tail(stream, cap);
    assert |kept| == |tail| == cap;
    forall i | 0 <= i < cap
      ensures kept[i] == tail[i]
    {
      assert kept[i] == buf[|buf| - cap + i] && tail[i] == stream[|stream| - cap + i];
    }
  }

  lemma HeadPush(buf: Bytes, stream: Bytes, moved: nat, chunk: Bytes, cap: Option<nat>, mode: OverflowMode)
    requires cap.Some? && !mode.DropOldest? && |buf| + |chunk| <= ISIZE_MAX
    requires Captured(cap, mode, buf, stream, moved)
    ensures var kept := chunk[..Min(SaturatingSub(cap.value, |buf|), |chunk|)];
      && Captured(cap, mode, buf + kept, stream + chunk, moved)
      && (|buf| + |chunk| > cap.value <==> |kept| < |chunk|)
      && (|buf| + |chunk| <= cap.value ==> kept == chunk)
    ensures Exceeds(stream + chunk, cap) == (Exceeds(stream, cap) || |buf| + |chunk| > cap.value)
  {
  }

  lemma TailPush(buf: Bytes, stream: Bytes, moved: nat, chunk: Bytes, cap: Option<nat>, mode: OverflowMode)
    requires cap.Some? && mode.DropOldest? && |buf| + |chunk| <= ISIZE_MAX
    requires Captured(cap, mode, buf, stream, moved)
    ensures |buf| + |chunk| <= SaturatingDouble(cap.value) ==> Captured(cap, mode, buf + chunk, stream + chunk, moved)
    ensures Exceeds(stream + chunk, cap) == (Exceeds(stream, cap) || |buf| + |chunk| > cap.value)
  {
  }

  lemma TailCompacts(buf: Bytes, stream: Bytes, moved: nat, chunk: Bytes, cap: Option<nat>, mode: OverflowMode)
    requires cap.Some? && mode.DropOldest? && SaturatingDouble(cap.value) < |buf| + |chunk| <= ISIZE_MAX
    requires Captured(cap, mode, buf, stream, moved)
    ensures var excess := |buf| + |chunk| - cap.value;
      && excess > cap.value
      && Captured(cap, mode, (buf + chunk)[excess..], stream + chunk, moved + cap.value)
  {
  }

  /**
    However the stream is cut into reads, the capture ends with the specified bytes of the whole
    stream and the specified signals, and compactions moved no more bytes than arrived.
  */
  method CaptureAll(chunks: seq<Bytes>, cap: Option<nat>, mode: OverflowMode)
    returns (kept: Bytes, overflowed: bool, truncated: bool)
    requires |Joined(chunks)| <= ISIZE_MAX
             || (cap.Some? && forall i | 0 <= i < |chunks| :: 2 * cap.value + |chunks[i]| <= ISIZE_MAX)
    ensures kept == Retained(Joined(chunks), cap, mode)
    ensures overflowed <==> mode.Error? && Exceeds(Joined(chunks), cap)
    ensures truncated <==> !mode.Error? && Exceeds(Joined(chunks), cap)
  {
    var capture := new Capture(cap, mode);
    assert chunks[..0] == [];
    for i := 0 to |chunks|
      invariant fresh(capture) && capture.Valid() && capture.cap == cap && capture.mode == mode
      invariant capture.stream == Joined(chunks[..i])
    {
      JoinedStep(chunks, i);
      capture.Push(chunks[i]);
    }
    assert chunks[..|chunks|] == chunks;
    capture.Clamp();
    kept, overflowed, truncated := capture.buf, capture.overflowed, capture.truncated;
  }

  lemma JoinedStep(chunks: seq<Bytes>, i: nat)
    requires i < |chunks|
    ensures Joined(chunks[..i + 1]) == Joined(chunks[..i]) + chunks[i]
    ensures |Joined(chunks[..i])| + |chunks[i]| <= |Joined(chunks)|
  {
    assert chunks[..i + 1][..i] == chunks[..i];
    JoinedPrefix(chunks, i + 1);
  }

  lemma {:induction false} JoinedPrefix(chunks: seq<Bytes>, i: nat)
    requires i <= |chunks|
    ensures |Joined(chunks[..i])| <= |Joined(chunks)|
  {
    if i == |chunks| {
      assert chunks[..i] == chunks;
    } else {
      var rest := chunks[..|chunks| - 1];
      JoinedPrefix(rest, i);
      assert rest[..i] == chunks[..i];
    }
  }
}
