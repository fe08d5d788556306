/** The bounded tail of raw terminal output kept for timeout diagnostics. */
module RawTail {
  import opened Sequences

  type Byte = bv8

  const RAW_TAIL_CAP: nat := 2048

  function LastBytes(s: seq<Byte>, n: nat): seq<Byte> {
    if |s| <= n then s else s[|s| - n..]
  }

  class Tail {
    var bytes: seq<Byte>

    ghost predicate Valid()
      reads this
    {
      |bytes| <= RAW_TAIL_CAP
    }

    constructor ()
      ensures Valid() && bytes == []
    {
      bytes := [];
    }

    method Push(chunk: seq<Byte>)
      requires Valid()
      modifies this
      ensures Valid() && bytes == LastBytes(old(bytes) + chunk, RAW_TAIL_CAP)
    {
      ghost var before := bytes;
      PushedBytes(before, chunk);
      hide LastBytes;
      if |chunk| >= RAW_TAIL_CAP {
        bytes := [];
        bytes := bytes + chunk[|chunk| - RAW_TAIL_CAP..];
        return;
      }
      while |bytes| + |chunk| > RAW_TAIL_CAP
        invariant |bytes| <= |before| && bytes == before[|before| - |bytes|..]
        invariant |bytes| + |chunk| >= RAW_TAIL_CAP || bytes == before
      {
        bytes := bytes[1..];
      }
      bytes := bytes + chunk;
    }

    /** Any number of chunks, in any split, leaves the last bytes of their concatenation. */
    method PushAll(chunks: seq<seq<Byte>>)
      requires Valid()
      modifies this
      ensures Valid() && bytes == LastBytes(old(bytes) + Concat(chunks), 2048)
    {
      ghost var before := bytes;
      assert before + Concat(chunks[..0]) == before;
      for i := 0 to |chunks|
        invariant Valid() && bytes == LastBytes(before + Concat(chunks[..i]), RAW_TAIL_CAP)
      {
        assert chunks[..i + 1][..i] == chunks[..i];
        assert before + Concat(chunks[..i + 1]) == before + Concat(chunks[..i]) + chunks[i];
        TailOfTail(before + Concat(chunks[..i]), chunks[i], RAW_TAIL_CAP);
        Push(chunks[i]);
      }
      assert chunks[..|chunks|] == chunks;
    }
  }

  /** The last bytes of a text end it, and are as many as there may be. */
  lemma LastBytesEnd(s: seq<Byte>, n: nat)
    ensures |LastBytes(s, n)| == (if |s| <= n then |s| else n)
    ensures exists front :: s == front + LastBytes(s, n)
  {
    assert s == s[..|s| - |LastBytes(s, n)|] + LastBytes(s, n);
  }

  /** What a push leaves, by the length of the chunk. */
  lemma PushedBytes(before: seq<Byte>, chunk: seq<Byte>)
    requires |before| <= RAW_TAIL_CAP
    ensures |chunk| >= RAW_TAIL_CAP ==>
      LastBytes(before + chunk, RAW_TAIL_CAP) == chunk[|chunk| - RAW_TAIL_CAP..]
    ensures |chunk| < RAW_TAIL_CAP <= |before| + |chunk| ==>
      LastBytes(before + chunk, RAW_TAIL_CAP) == before[|before| + |chunk| - RAW_TAIL_CAP..] + chunk
    ensures |before| + |chunk| <= RAW_TAIL_CAP ==> LastBytes(before + chunk, RAW_TAIL_CAP) == before + chunk
  {
  }

  /** What one push keeps is all a later push needs: the tail of a tail and more bytes is the
      tail of everything. */
  lemma TailOfTail(all: seq<Byte>, chunk: seq<Byte>, n: nat)
    ensures LastBytes(LastBytes(all, n) + chunk, n) == LastBytes(all + chunk, n)
  {
  }
}
