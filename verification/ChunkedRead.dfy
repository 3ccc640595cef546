/** Project_3: server_read cuts a read into frames, client_read puts it together again,
    and the two refine the one-shot clamped read of hello_read.

    pread is short only at the end of the file, and one recv returns one send. */
module ChunkedRead {
  type byte = x: int | 0 <= x < 256

  const CHUNK := 4096

  /** hello_read: the slice of the file from offset, clamped to its end. */
  function OneShotRead(file: seq<byte>, size: nat, offset: nat): (r: seq<byte>)
    ensures |r| <= size
  {
    if offset < |file| then
      if offset + size > |file| then file[offset..] else file[offset..offset + size]
    else []
  }

  /** pread: as much of the request as lies before the end of the file. */
  function Pread(file: seq<byte>, count: nat, offset: nat): (r: seq<byte>)
    ensures |r| <= count
  {
    var from := if offset <= |file| then offset else |file|;
    var to := if from + count <= |file| then from + count else |file|;
    file[from..to]
  }

  /** htons and ntohs on a little-endian machine: the low 16 bits with their bytes swapped. */
  function Swap16(x: int): (r: int)
    ensures 0 <= r < 0x1_0000
  {
    var low := x % 0x1_0000;
    (low % 256) * 256 + low / 256
  }

  lemma TwoBytes(high: int, low: int)
    requires 0 <= high < 256 && 0 <= low < 256
    ensures (high * 256 + low) / 256 == high && (high * 256 + low) % 256 == low
    ensures (high * 256 + low) % 0x1_0000 == high * 256 + low
  {
  }

  /** On the wire the high byte of a short comes first. */
  lemma SwapSwapsBytes(x: int)
    ensures Swap16(x) % 256 == x % 0x1_0000 / 256
    ensures Swap16(x) / 256 == x % 256
  {
    TwoBytes(x % 0x1_0000 % 256, x % 0x1_0000 / 256);
  }

  /** The round trip is exact on what fits 16 bits and on nothing else. */
  lemma SwapRoundTrip(x: int)
    ensures Swap16(Swap16(x)) == x <==> 0 <= x < 0x1_0000
  {
    var low := x % 0x1_0000;
    TwoBytes(low % 256, low / 256);
    TwoBytes(low / 256, low % 256);
  }

  /** A message: the two header ints as they travel, and the bytes after them. */
  datatype Frame = Frame(size: int, done: int, payload: seq<byte>)

  /** What the client makes of a frame: the bytes it keeps and whether it stops. */
  predicate Carries(f: Frame, data: seq<byte>, last: bool) {
    && |data| <= CHUNK
    && Swap16(f.size) == |data|
    && data <= f.payload
    && Swap16(f.done) == (if last then 1 else 0)
  }

  function Message(data: seq<byte>, done: bool): Frame {
    Frame(Swap16(|data|), Swap16(if done then 1 else 0), data)
  }

  /** Every length the server sends survives its 16-bit header. */
  lemma MessageCarries(data: seq<byte>, done: bool)
    requires |data| <= CHUNK
    ensures Carries(Message(data, done), data, done)
  {
    SwapRoundTrip(|data|);
    SwapRoundTrip(if done then 1 else 0);
  }

  /** Frames that carry `data`, none of them marked last. */
  ghost predicate Unmarked(frames: seq<Frame>, data: seq<seq<byte>>) {
    if frames == [] then data == []
    else data != [] && Carries(frames[0], data[0], false) && Unmarked(frames[1..], data[1..])
  }

  /** Frames that carry `data`, with exactly the last of them marked. */
  ghost predicate Complete(frames: seq<Frame>, data: seq<seq<byte>>) {
    && frames != [] && data != []
    && if |frames| == 1 then |data| == 1 && Carries(frames[0], data[0], true)
       else Carries(frames[0], data[0], false) && Complete(frames[1..], data[1..])
  }

  lemma {:induction false} AppendFrame(frames: seq<Frame>, data: seq<seq<byte>>, f: Frame, d: seq<byte>, last: bool)
    requires Unmarked(frames, data) && Carries(f, d, last)
    ensures if last then Complete(frames + [f], data + [d]) else Unmarked(frames + [f], data + [d])
  {
    if frames == [] {
      assert [f][1..] == [];
    } else {
      AppendFrame(frames[1..], data[1..], f, d, last);
      assert (frames + [f])[1..] == frames[1..] + [f];
      assert (data + [d])[1..] == data[1..] + [d];
    }
  }

  // ---------------------------------------------------------------- framing

  /** The framing itself: full chunks while more than one chunk is asked for and the file
      lasts, then one last frame, empty when the file ended with a full chunk. */
  function Chunks(file: seq<byte>, size: nat, offset: nat): (c: seq<seq<byte>>)
    decreases size
  {
    if size > CHUNK && |Pread(file, CHUNK, offset)| == CHUNK then
      [Pread(file, CHUNK, offset)] + Chunks(file, size - CHUNK, offset + CHUNK)
    else
      [Pread(file, if size > CHUNK then CHUNK else size, offset)]
  }

  function Flatten(data: seq<seq<byte>>): seq<byte> {
    if data == [] then [] else data[0] + Flatten(data[1..])
  }

  /** A full chunk peels off the front of the read; a short one is all of it. */
  lemma SplitRead(file: seq<byte>, size: nat, offset: nat)
    requires size > CHUNK
    ensures var data := Pread(file, CHUNK, offset);
            if |data| < CHUNK then OneShotRead(file, size, offset) == data
            else OneShotRead(file, size, offset) == data + OneShotRead(file, size - CHUNK, offset + CHUNK)
  {
  }

  lemma OnePread(file: seq<byte>, size: nat, offset: nat)
    ensures Pread(file, size, offset) == OneShotRead(file, size, offset)
  {
  }

  lemma FlattenCons(d: seq<byte>, rest: seq<seq<byte>>, read: seq<byte>, whole: seq<byte>)
    requires Flatten(rest) == read && whole == d + read
    ensures Flatten([d] + rest) == whole
  {
    assert ([d] + rest)[1..] == rest;
  }

  lemma FlattenOne(d: seq<byte>)
    ensures Flatten([d]) == d
  {
    assert d + Flatten([]) == d;
  }

  lemma LastChunk(file: seq<byte>, size: nat, offset: nat)
    requires size > CHUNK ==> |Pread(file, CHUNK, offset)| < CHUNK
    ensures Chunks(file, size, offset) == [OneShotRead(file, size, offset)]
  {
    if size > CHUNK {
      SplitRead(file, size, offset);
    } else {
      OnePread(file, size, offset);
    }
  }

  /** The chunks end to end are the one-shot read. */
  lemma {:induction false} ChunksAreTheRead(file: seq<byte>, size: nat, offset: nat)
    ensures Flatten(Chunks(file, size, offset)) == OneShotRead(file, size, offset)
    decreases size
  {
    if size > CHUNK && |Pread(file, CHUNK, offset)| == CHUNK {
      SplitRead(file, size, offset);
      ChunksAreTheRead(file, size - CHUNK, offset + CHUNK);
      FlattenCons(Pread(file, CHUNK, offset), Chunks(file, size - CHUNK, offset + CHUNK),
                  OneShotRead(file, size - CHUNK, offset + CHUNK), OneShotRead(file, size, offset));
    } else {
      LastChunk(file, size, offset);
      FlattenOne(OneShotRead(file, size, offset));
    }
  }

  /** Frames of 4096 bytes that go out before the last one: as long as more than 4096
      bytes are still asked for and the file has 4096 to give. */
  function FullFrames(length: nat, size: nat, offset: nat): nat {
    var asked := if size > 0 then (size - 1) / 4096 else 0;
    var left := if offset < length then (length - offset) / 4096 else 0;
    if asked < left then asked else left
  }

  lemma {:induction false} ChunkSizes(file: seq<byte>, size: nat, offset: nat)
    ensures var c, n := Chunks(file, size, offset), FullFrames(|file|, size, offset);
            && |c| == n + 1
            && (forall i :: 0 <= i < n ==> |c[i]| == 4096)
            && |c[n]| == |OneShotRead(file, size, offset)| - 4096 * n <= 4096
    decreases size
  {
    var n := FullFrames(|file|, size, offset);
    if size > 4096 && |Pread(file, 4096, offset)| == 4096 {
      var rest := Chunks(file, size - 4096, offset + 4096);
      ChunkSizes(file, size - 4096, offset + 4096);
      SplitRead(file, size, offset);
      assert FullFrames(|file|, size - 4096, offset + 4096) == n - 1;
      assert Chunks(file, size, offset) == [Pread(file, 4096, offset)] + rest;
    } else {
      LastChunk(file, size, offset);
    }
  }

  lemma {:induction false} CompleteFrames(frames: seq<Frame>, data: seq<seq<byte>>)
    requires Complete(frames, data)
    ensures |frames| == |data|
    ensures forall i :: 0 <= i < |frames| ==> Carries(frames[i], data[i], i == |frames| - 1)
    decreases |frames|
  {
    if |frames| > 1 {
      CompleteFrames(frames[1..], data[1..]);
      assert forall i :: 1 <= i < |frames| ==> frames[i] == frames[1..][i - 1] && data[i] == data[1..][i - 1];
    }
  }

  /** The headers of a whole read: every frame but the last announces 4096 bytes, the last
      what is left of the read, and only the last says done. */
  lemma FrameHeaders(file: seq<byte>, size: nat, offset: nat, frames: seq<Frame>, i: nat)
    requires Complete(frames, Chunks(file, size, offset)) && i < |frames|
    ensures |frames| == FullFrames(|file|, size, offset) + 1
    ensures Swap16(frames[i].size) == if i < |frames| - 1 then 4096
                                      else |OneShotRead(file, size, offset)| - 4096 * (|frames| - 1)
    ensures Swap16(frames[i].done) == if i == |frames| - 1 then 1 else 0
  {
    CompleteFrames(frames, Chunks(file, size, offset));
    ChunkSizes(file, size, offset);
  }

  /** One turn of the framing loop: the frame sent, how much of the file it took, and
      whether it is the last. `stale` stands for what the unset n sends after the header
      when size is 0. */
  method SendFrame(file: seq<byte>, size: nat, offset: nat, stale: seq<byte>)
    returns (frame: Frame, n: nat, done: bool)
    ensures done <==> size <= CHUNK || |Pread(file, CHUNK, offset)| < CHUNK
    ensures Carries(frame, Pread(file, if size > CHUNK then CHUNK else size, offset), done)
    ensures n == |Pread(file, if size > CHUNK then CHUNK else size, offset)|
  {
    if size > CHUNK {
      var data := Pread(file, CHUNK, offset);
      n := |data|;
      done := n < CHUNK;
      MessageCarries(data, done);
      frame := Message(data, done);
    } else if size == 0 {
      done, n := true, 0;
      SwapRoundTrip(0);
      SwapRoundTrip(1);
      frame := Frame(size, Swap16(1), stale);
    } else {
      var data := Pread(file, size, offset);
      n := |data|;
      done := true;
      MessageCarries(data, true);
      frame := Message(data, true);
    }
  }

  /** The framing loop sends exactly the chunks, and marks exactly the last frame. */
  method ServerRead(file: seq<byte>, size0: nat, offset0: nat, stale: seq<byte>) returns (frames: seq<Frame>)
    ensures Complete(frames, Chunks(file, size0, offset0))
    ensures |frames| == FullFrames(|file|, size0, offset0) + 1
    ensures forall i :: 0 <= i < |frames| ==>
              Swap16(frames[i].size) == if i < |frames| - 1 then 4096
                                        else |OneShotRead(file, size0, offset0)| - 4096 * (|frames| - 1)
  {
    var size: nat, offset: nat, done := size0, offset0, false;
    ghost var sent: seq<seq<byte>> := [];
    frames := [];
    while !done
      invariant if done then Complete(frames, Chunks(file, size0, offset0))
                else Unmarked(frames, sent) && sent + Chunks(file, size, offset) == Chunks(file, size0, offset0)
      decreases !done, size
    {
      ghost var data := Pread(file, if size > CHUNK then CHUNK else size, offset);
      var frame, n;
      frame, n, done := SendFrame(file, size, offset, stale);
      AppendFrame(frames, sent, frame, data, done);
      frames := frames + [frame];
      if !done {
        PutTogether(sent, [data], Chunks(file, size - CHUNK, offset + CHUNK));
        size := size - n;
      }
      sent := sent + [data];
      offset := offset + n;
    }
    forall i | 0 <= i < |frames|
      ensures |frames| == FullFrames(|file|, size0, offset0) + 1
      ensures Swap16(frames[i].size) == if i < |frames| - 1 then 4096
                                        else |OneShotRead(file, size0, offset0)| - 4096 * (|frames| - 1)
    {
      FrameHeaders(file, size0, offset0, frames, i);
    }
  }

  lemma PutTogether<T>(a: seq<T>, b: seq<T>, c: seq<T>)
    ensures a + (b + c) == (a + b) + c
  {
  }

  // ------------------------------------------------------------- reassembly

  /** The reassembly loop: what the frames carry, end to end in buf, up to the marked one. */
  method ClientRead(frames: seq<Frame>, ghost data: seq<seq<byte>>, buf: array<byte>) returns (totalSize: nat)
    requires Complete(frames, data) && |Flatten(data)| <= buf.Length
    modifies buf
    ensures totalSize == |Flatten(data)|
    ensures buf[..totalSize] == Flatten(data)
    ensures forall x :: totalSize <= x < buf.Length ==> buf[x] == old(buf[x])
  {
    var done, next := false, 0;
    ghost var all, rest := Flatten(data), data;
    totalSize := 0;
    while !done
      invariant Reading(frames, next, all, totalSize, rest, done)
      invariant |all| <= buf.Length && buf[..totalSize] == all[..totalSize]
      invariant forall x :: totalSize <= x < buf.Length ==> buf[x] == old(buf[x])
      decreases !done, |frames| - next
    {
      ReadNext(frames, next, all, totalSize, rest);
      var rsize;
      rsize, done := ReceiveFrame(frames[next], buf, totalSize, all, |rest[0]|, |rest| == 1);
      totalSize := totalSize + rsize;
      rest := rest[1..];
      next := next + 1;
    }
  }

  /** `rest` is what the frames still to come carry, and the end of `all`. */
  ghost predicate Reading(frames: seq<Frame>, next: nat, all: seq<byte>, total: nat, rest: seq<seq<byte>>, done: bool) {
    && next <= |frames| && total <= |all|
    && Flatten(rest) == all[total..]
    && if done then rest == [] else next < |frames| && Complete(frames[next..], rest)
  }

  lemma ReadNext(frames: seq<Frame>, next: nat, all: seq<byte>, total: nat, rest: seq<seq<byte>>)
    requires Reading(frames, next, all, total, rest, false)
    ensures rest != [] && total + |rest[0]| <= |all|
    ensures Carries(frames[next], all[total..total + |rest[0]|], |rest| == 1)
    ensures Reading(frames, next + 1, all, total + |rest[0]|, rest[1..], |rest| == 1)
  {
    assert frames[next..][1..] == frames[next + 1..];
    assert all[total..][..|rest[0]|] == rest[0];
    assert all[total..][|rest[0]|..] == all[total + |rest[0]|..];
    if |rest| == 1 {
      assert |frames[next..]| == 1;
    }
  }

  /** recv into a buffer with room for 4096 bytes after the header. */
  function Received(payload: seq<byte>): (r: seq<byte>)
    ensures |r| <= 4096
  {
    if |payload| <= 4096 then payload else payload[..4096]
  }

  /** One turn of the reassembly loop. */
  method ReceiveFrame(frame: Frame, buf: array<byte>, at: nat,
                      ghost all: seq<byte>, ghost length: nat, ghost last: bool)
    returns (rsize: nat, done: bool)
    requires at + length <= |all| <= buf.Length && Carries(frame, all[at..at + length], last)
    requires buf[..at] == all[..at]
    modifies buf
    ensures rsize == length && done == last
    ensures buf[..at + rsize] == all[..at + rsize]
    ensures forall x :: at + rsize <= x < buf.Length ==> buf[x] == old(buf[x])
  {
    var data := Received(frame.payload);
    rsize := Swap16(frame.size);
    done := Swap16(frame.done) != 0;
    assert data[..rsize] == all[at..at + length];
    CopyInto(buf, at, data, rsize);
  }

  /** memcpy of the first `count` bytes of `from` to position `at`. */
  method CopyInto(buf: array<byte>, at: nat, from: seq<byte>, count: nat)
    requires at + count <= buf.Length && count <= |from|
    modifies buf
    ensures buf[..at + count] == old(buf[..at]) + from[..count]
    ensures forall x :: at + count <= x < buf.Length ==> buf[x] == old(buf[x])
  {
    var i := 0;
    while i < count
      invariant i <= count
      invariant buf[..at + i] == old(buf[..at]) + from[..i]
      invariant forall x :: at + i <= x < buf.Length ==> buf[x] == old(buf[x])
    {
      buf[at + i] := from[i];
      i := i + 1;
    }
  }

  /** A remote read gives the client the bytes and the count hello_read would give it
      locally, and touches nothing of buf beyond them. */
  method RemoteRead(file: seq<byte>, buf: array<byte>, offset: nat, stale: seq<byte>) returns (n: nat)
    modifies buf
    ensures n == |OneShotRead(file, buf.Length, offset)|
    ensures buf[..n] == OneShotRead(file, buf.Length, offset)
    ensures forall x :: n <= x < buf.Length ==> buf[x] == old(buf[x])
  {
    ChunksAreTheRead(file, buf.Length, offset);
    var frames := ServerRead(file, buf.Length, offset, stale);
    n := ClientRead(frames, Chunks(file, buf.Length, offset), buf);
  }

  /** The bytes and the length returned: the request clamped to what the file has left. */
  lemma ReadLength(file: seq<byte>, size: nat, offset: nat)
    ensures |OneShotRead(file, size, offset)| ==
            if offset >= |file| then 0 else if size <= |file| - offset then size else |file| - offset
    ensures forall x :: 0 <= x < |OneShotRead(file, size, offset)| ==>
              offset + x < |file| && OneShotRead(file, size, offset)[x] == file[offset + x]
  {
  }
}
