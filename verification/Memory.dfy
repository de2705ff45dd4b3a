/**
  Raw memory as the engine sees it: what a `char*` of the engine can point to,
  C string length, and the joining of a chain of fixed-size buffers
  (BufferPool.hpp, BufferPool.cpp).
 */
module Memory {

  const NUL: char := '\0'

  /**
    A `char*`.  `Buffer(index)` is the data of the node at `index` of the pool's storage
    list, which never erases a node.  `Text(id)` is the text of the `id`-th message a
    connection ever enqueued; it dangles once that message is popped.
   */
  datatype Pointer = Null | Buffer(index: nat) | Text(id: nat)

  /** The C library's strlen: the position of the first NUL. */
  function Strlen(s: seq<char>): (n: nat)
    ensures n <= |s|
    ensures forall i :: 0 <= i < n ==> s[i] != NUL
    ensures n < |s| ==> s[n] == NUL
  {
    if s == [] || s[0] == NUL then 0 else 1 + Strlen(s[1..])
  }

  ghost function Flatten(chain: seq<seq<char>>): seq<char> {
    if chain == [] then [] else Flatten(chain[..|chain| - 1]) + chain[|chain| - 1]
  }

  /** What joining a chain means: every byte of the non-last buffers, then the last one up to its first NUL. */
  ghost function Join(chain: seq<seq<char>>): seq<char>
    requires chain != []
  {
    var last := chain[|chain| - 1];
    Flatten(chain[..|chain| - 1]) + last[..Strlen(last)]
  }

  ghost predicate AllOfSize(chain: seq<seq<char>>, size: nat) {
    forall k :: 0 <= k < |chain| ==> |chain[k]| == size
  }

  /** The size of `k` whole buffers, as a sum. */
  ghost function Total(k: nat, size: nat): nat {
    if k == 0 then 0 else Total(k - 1, size) + size
  }

  lemma {:induction false} TotalIsProduct(k: nat, size: nat)
    ensures Total(k, size) == k * size
  {
    if k > 0 {
      TotalIsProduct(k - 1, size);
      assert k * size == (k - 1) * size + size;
    }
  }

  lemma {:induction false} FlattenLength(chain: seq<seq<char>>, size: nat)
    requires AllOfSize(chain, size)
    ensures |Flatten(chain)| == Total(|chain|, size)
  {
    if chain != [] {
      FlattenLength(chain[..|chain| - 1], size);
    }
  }

  lemma {:induction false} FlattenAt(chain: seq<seq<char>>, size: nat, k: nat, i: nat)
    requires AllOfSize(chain, size) && k < |chain| && i < size
    ensures Total(k, size) + i < |Flatten(chain)|
    ensures Flatten(chain)[Total(k, size) + i] == chain[k][i]
  {
    var n := |chain| - 1;
    FlattenLength(chain[..n], size);
    if k < n {
      FlattenAt(chain[..n], size, k, i);
    }
  }

  /** How long a joined chain is, and that it ends with the last buffer's text. */
  lemma JoinLength(chain: seq<seq<char>>, size: nat)
    requires chain != [] && AllOfSize(chain, size)
    ensures |Join(chain)| == (|chain| - 1) * size + Strlen(chain[|chain| - 1])
    ensures Join(chain)[(|chain| - 1) * size..] == chain[|chain| - 1][..Strlen(chain[|chain| - 1])]
  {
    FlattenLength(chain[..|chain| - 1], size);
    TotalIsProduct(|chain| - 1, size);
  }

  /** Where every byte of a joined chain before the last buffer comes from: an index-wise reading of `Join`. */
  lemma JoinByte(chain: seq<seq<char>>, size: nat, k: nat, i: nat)
    requires chain != [] && AllOfSize(chain, size) && k < |chain| - 1 && i < size
    ensures k * size + i < |Join(chain)| && Join(chain)[k * size + i] == chain[k][i]
  {
    var front := chain[..|chain| - 1];
    FlattenAt(front, size, k, i);
    TotalIsProduct(k, size);
    assert front[k] == chain[k];
  }

  /** The bytes the arrays hold now. */
  ghost predicate Holds(buffers: seq<array<char>>, chain: seq<seq<char>>)
    reads buffers
  {
    |chain| == |buffers| && forall k :: 0 <= k < |chain| ==> buffers[k][..] == chain[k]
  }

  /** The C library's memcpy between two distinct blocks. */
  method Memcpy(dst: array<char>, at: nat, src: array<char>, count: nat)
    requires dst != src && at + count <= dst.Length && count <= src.Length
    modifies dst
    ensures dst[..at + count] == old(dst[..at]) + src[..count]
  {
    forall i | 0 <= i < count {
      dst[at + i] := src[i];
    }
  }

  lemma FlattenNext(chain: seq<seq<char>>, k: nat)
    requires k < |chain|
    ensures Flatten(chain[..k + 1]) == Flatten(chain[..k]) + chain[k]
  {
    assert chain[..k + 1][..k] == chain[..k];
  }

  /** The copying loop of both forms: fills all but the end of a string, advancing `dst` and `it`. */
  method CopyWhole(text: array<char>, buffers: seq<array<char>>, bufferSize: nat,
                   ghost lastBufferSize: nat, ghost chain: seq<seq<char>>)
    returns (dst: nat, it: nat)
    requires buffers != [] && AllOfSize(chain, bufferSize) && Holds(buffers, chain) && text !in buffers
    requires text.Length == Total(|buffers| - 1, bufferSize) + lastBufferSize
    modifies text
    ensures it == |buffers| - 1 && dst + lastBufferSize == text.Length
    ensures text[..dst] == Flatten(chain[..it])
  {
    dst, it := 0, 0;
    while it + 1 != |buffers|
      invariant 0 <= it < |buffers|
      invariant dst + Total(|buffers| - 1 - it, bufferSize) + lastBufferSize == text.Length
      invariant Holds(buffers, chain)
      invariant text[..dst] == Flatten(chain[..it])
      decreases |buffers| - it
    {
      FlattenNext(chain, it);
      assert buffers[it][..bufferSize] == chain[it];
      Memcpy(text, dst, buffers[it], bufferSize);
      dst := dst + bufferSize;
      it := it + 1;
    }
  }

  /** Joins a chain into a string whose size was computed beforehand. */
  method CopyChain(buffers: seq<array<char>>, bufferSize: nat, totalSize: nat, lastBufferSize: nat,
                   ghost chain: seq<seq<char>>)
    returns (result: string)
    requires buffers != [] && AllOfSize(chain, bufferSize) && Holds(buffers, chain)
    requires lastBufferSize == Strlen(chain[|chain| - 1])
    requires totalSize == Total(|buffers| - 1, bufferSize) + lastBufferSize
    ensures result == Join(chain)
  {
    var text := new char[totalSize](_ => NUL);
    var dst, it := CopyWhole(text, buffers, bufferSize, lastBufferSize, chain);
    assert buffers[it][..] == chain[it];
    Memcpy(text, dst, buffers[it], lastBufferSize);
    assert text[..totalSize] == text[..];
    result := text[..];
  }

  /** The list form (BufferPool.cpp): the size is a product. */
  method ConcatBuffers(buffers: seq<array<char>>, bufferSize: nat, ghost chain: seq<seq<char>>) returns (result: string)
    requires buffers != [] && AllOfSize(chain, bufferSize) && Holds(buffers, chain)
    requires NUL in chain[|chain| - 1]
    ensures result == Join(chain)
  {
    TotalIsProduct(|buffers| - 1, bufferSize);
    var back := buffers[|buffers| - 1];
    var totalSize := (|buffers| - 1) * bufferSize + Strlen(back[..]);
    result := CopyChain(buffers, bufferSize, totalSize, Strlen(back[..]), chain);
  }

  /** The iterator form (BufferPool.hpp), over the range `begin` to `end`: the size is a running sum. */
  method ConcatRange(range: seq<array<char>>, bufferSize: nat, ghost chain: seq<seq<char>>) returns (result: string)
    requires range != [] && AllOfSize(chain, bufferSize) && Holds(range, chain)
    requires NUL in chain[|chain| - 1]
    ensures result == Join(chain)
  {
    var totalSize := 0;
    var it := 0;
    while it + 1 != |range|
      invariant 0 <= it < |range|
      invariant totalSize == Total(it, bufferSize)
      decreases |range| - it
    {
      totalSize := totalSize + bufferSize;
      it := it + 1;
    }
    var lastBufferSize := Strlen(range[it][..]);
    totalSize := totalSize + lastBufferSize;
    result := CopyChain(range, bufferSize, totalSize, lastBufferSize, chain);
  }
}
