/**
  The Paper Pro's frame buffer lies inside a region of the drawing process's memory
  that an allocator has cut into blocks. Each block carries an 8-byte header whose
  first four bytes, little-endian, hold a length; the walk hops from header to header
  until it meets a block at least as large as one frame.
*/
module FrameLocator {
  import opened Wrappers
  import opened Memory

  /** The length field of the header `offset` bytes into the region at `start`. */
  function LengthAt(mem: seq<byte>, start: nat, offset: nat): nat
    requires start + offset + 12 <= |mem|
  {
    LittleEndian32(mem[start + offset + 8..start + offset + 12])
  }

  /** Reading the 8-byte header `offset` bytes into the region and taking its length field. */
  function HeaderLength(mem: seq<byte>, start: nat, offset: nat): (r: Result<nat, Error>)
    ensures r.Success? <==> start + offset + 16 <= |mem|
    ensures r.Success? ==> r.value == LengthAt(mem, start, offset)
    ensures r.Failure? ==> r == Failure(ReadFailed)
  {
    var header :- ReadExact(mem, start + offset + 8, 8);
    assert header[..4] == mem[start + offset + 8..start + offset + 12];
    Success(LittleEndian32(header[..4]))
  }

  /** Read the header at `offset` and go on from there. */
  function Probe(mem: seq<byte>, start: nat, size: nat, offset: nat): Result<nat, Error>
    decreases |mem| - offset, 1
  {
    match HeaderLength(mem, start, offset)
    case Failure(e) => Failure(e)
    case Success(length) => Continue(mem, start, size, offset, length)
  }

  /**
    Having read `length` at `offset`: stop if the block is large enough, otherwise
    hop `length - 2` bytes further. A length below 2 would make the hop negative and a
    length of exactly 2 would read the same header forever; both are reported.
  */
  function Continue(mem: seq<byte>, start: nat, size: nat, offset: nat, length: nat): Result<nat, Error>
    requires start + offset + 16 <= |mem|
    decreases |mem| - offset, 0
  {
    if length >= size then Success(start + offset)
    else if length < 2 then Failure(LengthUnderflow)
    else if length == 2 then Failure(NoProgress)
    else Probe(mem, start, size, offset + (length - 2))
  }

  /** `calculate_frame_pointer` as a function: the walk starts as if a length of 2 had been read. */
  function Walk(mem: seq<byte>, start: nat, size: nat): Result<nat, Error> {
    if 2 >= size then Success(start) else Probe(mem, start, size, 0)
  }

  /**
    `calculate_frame_pointer`: the loop of the source, with `probed` telling the
    initial length 2 apart from one that was read.
  */
  method CalculateFramePointer(mem: seq<byte>, start: nat, size: nat) returns (r: Result<nat, Error>)
    ensures r == Walk(mem, start, size)
  {
    var offset: nat := 0;
    var length: nat := 2;
    var probed := false;
    while length < size
      invariant !probed ==> offset == 0 && length == 2
      invariant !probed && 2 < size ==> Walk(mem, start, size) == Probe(mem, start, size, 0)
      invariant probed ==> start + offset + 16 <= |mem|
      invariant probed ==> Walk(mem, start, size) == Continue(mem, start, size, offset, length)
      decreases if probed then |mem| - offset else |mem| + 1
    {
      if length < 2 {
        return Failure(LengthUnderflow);
      }
      if probed && length == 2 {
        return Failure(NoProgress);
      }
      offset := offset + (length - 2);
      var header := ReadExact(mem, start + offset + 8, 8);
      if header.Failure? {
        return Failure(ReadFailed);
      }
      assert header.value[..4] == mem[start + offset + 8..start + offset + 12];
      length := LittleEndian32(header.value[..4]);
      probed := true;
    }
    return Success(start + offset);
  }

  /** One hop of the walk: the block at `a` is too small and the next header is at `b`. */
  predicate Hop(mem: seq<byte>, start: nat, size: nat, a: nat, b: nat) {
    && start + a + 16 <= |mem|
    && 3 <= LengthAt(mem, start, a) < size
    && b == a + (LengthAt(mem, start, a) - 2)
  }

  /** The offsets a walk visits, from 0, each reached from the one before by a hop. */
  predicate Chain(mem: seq<byte>, start: nat, size: nat, offsets: seq<nat>) {
    && |offsets| >= 1 && offsets[0] == 0
    && forall i | 0 <= i < |offsets| - 1 :: Hop(mem, start, size, offsets[i], offsets[i + 1])
  }

  /**
    Whenever the walk succeeds on a real frame size (more than 2 bytes), it has
    followed a chain of hops from offset 0, each adding `length - 2`, and the length
    read at the last offset is at least the frame size.
  */
  lemma WalkSound(mem: seq<byte>, start: nat, size: nat)
    requires size > 2 && Walk(mem, start, size).Success?
    ensures exists offsets ::
      && Chain(mem, start, size, offsets)
      && var last := offsets[|offsets| - 1];
      && start + last + 16 <= |mem|
      && Walk(mem, start, size) == Success(start + last)
      && LengthAt(mem, start, last) >= size
  {
    var offsets := ProbeSound(mem, start, size, 0, [0]);
  }

  lemma {:induction false} ProbeSound(mem: seq<byte>, start: nat, size: nat, offset: nat, prefix: seq<nat>)
    returns (offsets: seq<nat>)
    requires size > 2 && Probe(mem, start, size, offset).Success?
    requires Chain(mem, start, size, prefix) && prefix[|prefix| - 1] == offset
    ensures Chain(mem, start, size, offsets)
    ensures var last := offsets[|offsets| - 1];
      && start + last + 16 <= |mem|
      && Probe(mem, start, size, offset) == Success(start + last)
      && LengthAt(mem, start, last) >= size
    decreases |mem| - offset
  {
    var length := HeaderLength(mem, start, offset).value;
    if length >= size {
      offsets := prefix;
    } else {
      var next := offset + (length - 2);
      var extended := prefix + [next];
      assert forall i | 0 <= i < |extended| - 1 :: extended[i] == prefix[i];
      assert Hop(mem, start, size, extended[|prefix| - 1], extended[|prefix|]);
      offsets := ProbeSound(mem, start, size, next, extended);
    }
  }

  /** The first header looked at is 8 bytes into the region. */
  lemma WalkFirstProbe(mem: seq<byte>, start: nat, size: nat)
    requires size > 2
    ensures start + 16 > |mem| ==> Walk(mem, start, size) == Failure(ReadFailed)
    ensures start + 16 <= |mem| && LengthAt(mem, start, 0) >= size ==>
      Walk(mem, start, size) == Success(start)
  {
    if start + 16 <= |mem| {
      assert Probe(mem, start, size, 0) == Continue(mem, start, size, 0, LengthAt(mem, start, 0));
    }
  }

  /** A header that holds exactly 2 ends the walk: the source would read it again forever. */
  lemma WalkStuck(mem: seq<byte>, start: nat, size: nat)
    requires size > 3 && start + 16 <= |mem| && LengthAt(mem, start, 0) == 2
    ensures Walk(mem, start, size) == Failure(NoProgress)
  {
    assert Probe(mem, start, size, 0) == Continue(mem, start, size, 0, 2);
  }
}
