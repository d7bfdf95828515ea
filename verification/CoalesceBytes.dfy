/**
 * `coalesceByteStream`: small chunks are collected in a buffer of `minChunkSize` bytes, large ones
 * are passed on without copying. Outputs are views of arrays, so a buffer that was handed out must
 * never be written again.
 */
module CoalesceBytes {
  import opened Prelude

  type Byte = b: nat | b < 256

  // ----- on values -----

  /** What one chunk makes the generator yield, and what it leaves in the buffer. */
  function Step(carry: seq<Byte>, chunk: seq<Byte>, min: nat): (seq<seq<Byte>>, seq<Byte>)
    requires min >= 1 && |carry| <= min
  {
    var free := min - |carry|;
    if free > |chunk| then ([], carry + chunk)
    else if carry == [] && |chunk| >= min then ([chunk], [])
    else
      var rest := chunk[free..];
      if |rest| > min then ([carry + chunk[..free], rest], []) else ([carry + chunk[..free]], rest)
  }

  function Chunks(chunks: seq<seq<Byte>>, min: nat): (r: (seq<seq<Byte>>, seq<Byte>))
    requires min >= 1
    ensures |r.1| <= min
  {
    if chunks == [] then ([], [])
    else
      var (yielded, carry) := Chunks(chunks[..|chunks| - 1], min);
      var (more, carry') := Step(carry, chunks[|chunks| - 1], min);
      (yielded + more, carry')
  }

  function Coalesced(chunks: seq<seq<Byte>>, min: nat): seq<seq<Byte>>
    requires min >= 1
  {
    var (yielded, carry) := Chunks(chunks, min);
    if carry == [] then yielded else yielded + [carry]
  }

  lemma FlattenSnoc(parts: seq<seq<Byte>>, last: seq<Byte>)
    ensures Flatten(parts + [last]) == Flatten(parts) + last
  {
    assert (parts + [last])[..|parts|] == parts;
  }

  lemma NothingFlat()
    ensures Flatten<Byte>([]) == []
  {
  }

  lemma FlattenOne(a: seq<Byte>)
    ensures Flatten([a]) == a
  {
    assert [a] == [] + [a];
    FlattenSnoc([], a);
  }

  lemma FlattenTwo(a: seq<Byte>, b: seq<Byte>)
    ensures Flatten([a, b]) == a + b
  {
    assert [a, b] == [a] + [b];
    FlattenSnoc([a], b);
    FlattenOne(a);
  }

  lemma FlattenAppend(a: seq<seq<Byte>>, b: seq<seq<Byte>>)
    requires |b| <= 2
    ensures Flatten(a + b) == Flatten(a) + Flatten(b)
  {
    hide Flatten;
    NothingFlat();
    if |b| == 0 {
      assert a + b == a;
    } else if |b| == 1 {
      FlattenSnoc(a, b[0]);
      FlattenOne(b[0]);
      assert b == [b[0]];
    } else {
      FlattenSnoc(a, b[0]);
      FlattenSnoc(a + [b[0]], b[1]);
      FlattenTwo(b[0], b[1]);
      assert b == [b[0], b[1]] && a + b == a + [b[0]] + [b[1]];
    }
  }

  lemma StepOk(carry: seq<Byte>, chunk: seq<Byte>, min: nat)
    requires min >= 1 && |carry| <= min
    ensures var (out, carry') := Step(carry, chunk, min);
            && |out| <= 2 && Flatten(out) + carry' == carry + chunk
            && forall i :: 0 <= i < |out| ==> |out[i]| >= min
  {
    hide Flatten;
    NothingFlat();
    var free := min - |carry|;
    if free <= |chunk| {
      assert chunk == chunk[..free] + chunk[free..];
      FlattenOne(chunk);
      FlattenOne(carry + chunk[..free]);
      FlattenTwo(carry + chunk[..free], chunk[free..]);
    }
  }

  /**
   * When bytes are yielded: none while fewer than the minimum have been collected; a chunk that is large enough by
   * itself meets an empty buffer and goes on whole; otherwise exactly the minimum is yielded, and what is left of the
   * chunk as well if that is more than the buffer holds, while it stays there if it fits.
   */
  lemma SizesYielded(carry: seq<Byte>, chunk: seq<Byte>, min: nat)
    requires min >= 1 && |carry| <= min
    ensures var (out, carry') := Step(carry, chunk, min); var sum := |carry| + |chunk|;
            && (out == [] <==> sum < min)
            && (carry == [] && sum >= min ==> out == [chunk] && carry' == [])
            && (carry != [] && sum >= min ==>
                  && |out[0]| == min
                  && if sum <= 2 * min then |out| == 1 && |carry'| == sum - min
                     else |out| == 2 && |out[1]| == sum - min && carry' == [])
  {
  }

  lemma Regroup(a: seq<Byte>, b: seq<Byte>, c: seq<Byte>, d: seq<Byte>, e: seq<Byte>)
    requires b + c == d + e
    ensures (a + b) + c == (a + d) + e
  {
    assert (a + b) + c == a + (b + c);
    assert (a + d) + e == a + (d + e);
  }

  lemma {:induction false} ChunksOk(chunks: seq<seq<Byte>>, min: nat)
    requires min >= 1
    ensures var (yielded, carry) := Chunks(chunks, min);
            && Flatten(yielded) + carry == Flatten(chunks)
            && (forall i :: 0 <= i < |yielded| ==> |yielded[i]| >= min)
  {
    hide Step, Flatten;
    if chunks == [] {
      NothingFlat();
    } else {
      var front, chunk := chunks[..|chunks| - 1], chunks[|chunks| - 1];
      ChunksOk(front, min);
      var (yielded, carry) := Chunks(front, min);
      var (more, carry') := Step(carry, chunk, min);
      StepOk(carry, chunk, min);
      FlattenAppend(yielded, more);
      FlattenSnoc(front, chunk);
      assert chunks == front + [chunk];
      Regroup(Flatten(yielded), Flatten(more), carry', carry, chunk);
    }
  }

  /** The bytes are preserved in order; no output is empty, and all but the last have at least the minimum size. */
  lemma CoalescingPreservesBytes(chunks: seq<seq<Byte>>, min: nat)
    requires min >= 1
    ensures var out := Coalesced(chunks, min);
            && Flatten(out) == Flatten(chunks)
            && (forall i :: 0 <= i < |out| ==> out[i] != [])
            && (forall i :: 0 <= i < |out| - 1 ==> |out[i]| >= min)
  {
    hide Flatten, Chunks;
    ChunksOk(chunks, min);
    var (yielded, carry) := Chunks(chunks, min);
    FlattenSnoc(yielded, carry);
  }

  // ----- on buffers -----

  /** A part of an array, as `subarray` gives it. */
  datatype View = View(base: array<Byte>, from: nat, to: nat) {
    ghost predicate Valid() { from <= to <= base.Length }

    ghost function Bytes(): seq<Byte>
      requires Valid()
      reads base
    {
      base[from..to]
    }
  }

  ghost function Contents(chunks: seq<array<Byte>>): (r: seq<seq<Byte>>)
    reads chunks
    ensures |r| == |chunks| && forall i :: 0 <= i < |r| ==> r[i] == chunks[i][..]
  {
    if chunks == [] then [] else Contents(chunks[..|chunks| - 1]) + [chunks[|chunks| - 1][..]]
  }

  /** The outputs, read now, are these bytes. */
  ghost predicate Shows(outputs: seq<View>, bytes: seq<seq<Byte>>)
    reads set v | v in outputs :: v.base
  {
    |outputs| == |bytes| && forall i :: 0 <= i < |outputs| ==> outputs[i].Valid() && outputs[i].Bytes() == bytes[i]
  }

  lemma ShowsAppend(a: seq<View>, b: seq<View>, bytesA: seq<seq<Byte>>, bytesB: seq<seq<Byte>>)
    requires Shows(a, bytesA) && Shows(b, bytesB)
    ensures Shows(a + b, bytesA + bytesB)
  {
  }

  lemma ShowsOne(v: View)
    requires v.Valid()
    ensures Shows([v], [v.base[v.from..v.to]])
  {
  }

  method Copy(buffer: array<Byte>, offset: nat, chunk: array<Byte>, from: nat, to: nat)
    requires from <= to <= chunk.Length && offset + (to - from) <= buffer.Length && buffer != chunk
    modifies buffer
    ensures buffer[..offset] == old(buffer[..offset])
    ensures buffer[offset..offset + (to - from)] == chunk[from..to]
    ensures buffer[..offset + (to - from)] == old(buffer[..offset]) + chunk[from..to]
  {
    var k := 0;
    while k < to - from
      invariant 0 <= k <= to - from
      invariant buffer[..offset] == old(buffer[..offset])
      invariant buffer[offset..offset + k] == chunk[from..from + k]
    {
      buffer[offset + k] := chunk[from + k];
      k := k + 1;
    }
  }

  /** The buffer is filled up and yielded, and the rest of the chunk goes to a new one or is yielded too. */
  method FillAndRenew(buffer: array<Byte>, offset: nat, chunk: array<Byte>)
    returns (yielded: seq<View>, next: array<Byte>, offset': nat, ghost bytes: seq<seq<Byte>>)
    requires offset <= buffer.Length <= offset + chunk.Length && buffer.Length >= 1 && buffer != chunk
    modifies buffer
    ensures next.Length == buffer.Length && offset' <= next.Length && fresh(next)
    ensures var filled := old(buffer[..offset]) + chunk[..buffer.Length - offset];
            var rest := chunk[buffer.Length - offset..];
            && bytes == (if |rest| > buffer.Length then [filled, rest] else [filled])
            && next[..offset'] == (if |rest| > buffer.Length then [] else rest)
    ensures Shows(yielded, bytes)
    ensures forall v :: v in yielded ==> v.base in {buffer, chunk}
  {
    var freeSpace := buffer.Length - offset;
    ghost var rest := chunk[freeSpace..];
    Copy(buffer, offset, chunk, 0, freeSpace);
    assert chunk[0..freeSpace] == chunk[..freeSpace] && buffer[0..buffer.Length] == buffer[..offset + freeSpace];
    yielded, bytes := [View(buffer, 0, buffer.Length)], [old(buffer[..offset]) + chunk[..freeSpace]];
    next := new Byte[buffer.Length];
    offset' := 0;
    var remaining := chunk.Length - freeSpace;
    assert chunk[freeSpace..chunk.Length] == rest && next[..0] == [];
    if remaining > buffer.Length {
      yielded, bytes := yielded + [View(chunk, freeSpace, chunk.Length)], bytes + [rest];
    } else if remaining > 0 {
      Copy(next, 0, chunk, freeSpace, chunk.Length);
      offset' := remaining;
      assert next[..offset'] == next[0..offset'] == rest;
    }
  }

  /**
   * One chunk. The buffer is written only here, and when it is yielded the generator goes on with a new one.
   */
  method Absorb(buffer: array<Byte>, offset: nat, chunk: array<Byte>)
    returns (yielded: seq<View>, next: array<Byte>, offset': nat, ghost bytes: seq<seq<Byte>>)
    requires buffer.Length >= 1 && offset <= buffer.Length && buffer != chunk
    modifies buffer
    ensures next.Length == buffer.Length && offset' <= next.Length
    ensures (bytes, next[..offset']) == Step(old(buffer[..offset]), chunk[..], buffer.Length)
    ensures Shows(yielded, bytes)
    ensures next == buffer || fresh(next)
    ensures forall v :: v in yielded ==> v.base in {buffer, chunk} && v.base != next
    ensures offset == 0 && buffer.Length <= chunk.Length ==>   // a large chunk is passed on and not copied
              yielded == [View(chunk, 0, chunk.Length)] && next == buffer && offset' == 0
              && buffer[..] == old(buffer[..])
  {
    yielded, next, offset', bytes := [], buffer, offset, [];
    ghost var carry, given := buffer[..offset], chunk[..];
    var freeSpace := buffer.Length - offset;
    if freeSpace > chunk.Length {
      Copy(buffer, offset, chunk, 0, chunk.Length);
      offset' := offset + chunk.Length;
      assert chunk[0..chunk.Length] == given;
    } else if offset == 0 && chunk.Length >= buffer.Length {
      yielded, bytes := [View(chunk, 0, chunk.Length)], [given];
      assert chunk[0..chunk.Length] == given && carry == [] && next[..offset'] == [];
    } else {
      yielded, next, offset', bytes := FillAndRenew(buffer, offset, chunk);
    }
    assert chunk[..] == given;
    assert next[..offset'] == Step(carry, given, buffer.Length).1;
    assert bytes == Step(carry, given, buffer.Length).0;
  }

  lemma NoChunks(chunks: seq<seq<Byte>>, min: nat)
    requires min >= 1
    ensures Chunks(chunks[..0], min) == ([], [])
  {
  }

  lemma ChunksSnoc(front: seq<seq<Byte>>, chunk: seq<Byte>, min: nat)
    requires min >= 1
    ensures var (yielded, carry) := Chunks(front, min);
            Chunks(front + [chunk], min) == (yielded + Step(carry, chunk, min).0, Step(carry, chunk, min).1)
  {
    hide Step;
    assert (front + [chunk])[..|front|] == front;
  }

  /** One round of the loop: what is yielded joins the outputs, and none of them lies on the buffer used next. */
  method Emit(outputs: seq<View>, ghost atYield: seq<seq<Byte>>, buffer: array<Byte>, offset: nat, chunk: array<Byte>)
    returns (outputs': seq<View>, ghost atYield': seq<seq<Byte>>, next: array<Byte>, offset': nat)
    requires buffer.Length >= 1 && offset <= buffer.Length && buffer != chunk
    requires Shows(outputs, atYield) && forall v :: v in outputs ==> v.base != buffer
    modifies buffer
    ensures next.Length == buffer.Length && offset' <= next.Length && (next == buffer || fresh(next))
    ensures Shows(outputs', atYield') && forall v :: v in outputs' ==> v.base != next
    ensures var (more, carry) := Step(old(buffer[..offset]), chunk[..], buffer.Length);
            atYield' == atYield + more && next[..offset'] == carry
  {
    hide Step;
    var more: seq<View>;
    ghost var bytes: seq<seq<Byte>>;
    more, next, offset', bytes := Absorb(buffer, offset, chunk);
    ShowsAppend(outputs, more, atYield, bytes);
    outputs', atYield' := outputs + more, atYield + bytes;
  }

  /** After the last chunk, what is left in the buffer is yielded. */
  method YieldRest(outputs: seq<View>, ghost atYield: seq<seq<Byte>>, buffer: array<Byte>, offset: nat)
    returns (outputs': seq<View>, ghost atYield': seq<seq<Byte>>)
    requires offset <= buffer.Length && Shows(outputs, atYield)
    ensures Shows(outputs', atYield')
    ensures atYield' == if buffer[..offset] == [] then atYield else atYield + [buffer[..offset]]
  {
    outputs', atYield' := outputs, atYield;
    if offset > 0 {
      hide Shows;
      ShowsOne(View(buffer, 0, offset));
      ShowsAppend(outputs, [View(buffer, 0, offset)], atYield, [buffer[0..offset]]);
      assert buffer[0..offset] == buffer[..offset];
      outputs', atYield' := outputs + [View(buffer, 0, offset)], atYield + [buffer[..offset]];
    }
  }

  /**
   * The generator, run to its end. What it yields shows the specified bytes when all is done, and each output already
   * showed them when it was yielded: nothing that was handed out is written again, and neither are the inputs.
   */
  method Coalesce(chunks: seq<array<Byte>>, minChunkSize: int)
    returns (ok: bool, outputs: seq<View>, ghost atYield: seq<seq<Byte>>)
    ensures ok <==> minChunkSize >= 1
    ensures ok ==> atYield == Coalesced(Contents(chunks), minChunkSize)
    ensures ok ==> Shows(outputs, atYield)
  {
    outputs, atYield := [], [];
    assert Shows(outputs, atYield);
    if minChunkSize < 1 {
      return false, outputs, atYield;
    }
    hide Step, Chunks, Shows, Contents;
    ok := true;
    var buffer := new Byte[minChunkSize];
    var offset := 0;
    ghost var all := Contents(chunks);
    NoChunks(all, minChunkSize);
    for n := 0 to |chunks|
      invariant buffer.Length == minChunkSize && fresh(buffer) && 0 <= offset <= minChunkSize
      invariant Contents(chunks) == all
      invariant Shows(outputs, atYield) && forall v :: v in outputs ==> v.base != buffer
      invariant (atYield, buffer[..offset]) == Chunks(all[..n], minChunkSize)
    {
      assert all[..n + 1] == all[..n] + [chunks[n][..]];
      ChunksSnoc(all[..n], chunks[n][..], minChunkSize);
      outputs, atYield, buffer, offset := Emit(outputs, atYield, buffer, offset, chunks[n]);
    }
    assert all[..|chunks|] == all;
    outputs, atYield := YieldRest(outputs, atYield, buffer, offset);
  }
}
