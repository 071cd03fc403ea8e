// The generic write/read primitives of the stream layer: `writeValue` on a
// container and on an iterator into a container, the element-wise and the
// chunked `_write` loops, the `write` entry points and the bounded `read`.
//
// A container target is a `Container` object whose element sequence the
// primitives grow in place; the input is a sequence `src` read through an
// iterator, represented by its index into `src`.
module StreamBase {
  import Common

  // ---------------------------------------------------------------------
  // Specification functions
  // ---------------------------------------------------------------------

  /** `resize(s, n)`: truncate, or extend with `fill` (the element type's
      default value). */
  function Resize<T>(s: seq<T>, n: nat, fill: T): (r: seq<T>)
    ensures |r| == n
    ensures forall i :: 0 <= i < n && i < |s| ==> r[i] == s[i]
    ensures forall i :: |s| <= i < n ==> r[i] == fill
  {
    if n <= |s| then s[..n] else s + seq(n - |s|, _ => fill)
  }

  /** Contents of the container and position of the iterator after a write. */
  datatype IterState<T> = IterState(elems: seq<T>, pos: nat)

  /** Iterator `writeValue` as written: beyond the end it resizes to pos - 1
      before appending. */
  function IterWriteAsWritten<T>(s: seq<T>, pos: nat, v: T, fill: T): IterState<T>
  {
    if pos < |s| then IterState(s[pos := v], pos + 1)
    else IterState((if pos > |s| then Resize(s, pos - 1, fill) else s) + [v], pos + 1)
  }

  /** Iterator `writeValue` as intended: the value lands at the iterator's
      position; beyond the end the gap is filled first. */
  function IterWrite<T>(s: seq<T>, pos: nat, v: T, fill: T): IterState<T>
  {
    if pos < |s| then IterState(s[pos := v], pos + 1)
    else IterState((if pos > |s| then Resize(s, pos, fill) else s) + [v], pos + 1)
  }

  /** The corrected write stores `v` at the old position, moves the iterator
      one step, keeps every other existing element and fills the gap. */
  lemma IterWriteStores<T>(s: seq<T>, pos: nat, v: T, fill: T)
    ensures var r := IterWrite(s, pos, v, fill);
            |r.elems| == (if pos < |s| then |s| else pos + 1) &&
            r.elems[pos] == v && r.pos == pos + 1 &&
            (forall i :: 0 <= i < |s| && i != pos ==> r.elems[i] == s[i]) &&
            (forall i :: |s| <= i < pos ==> r.elems[i] == fill)
  {
    var r := IterWrite(s, pos, v, fill);
    if pos > |s| {
      var g := Resize(s, pos, fill);
      assert r.elems == g + [v];
      forall i | |s| <= i < pos ensures r.elems[i] == fill {
        assert r.elems[i] == g[i];
      }
    }
  }

  /** Overwrite and append are the same in both versions. */
  lemma IterWriteAgreeWithinEnd<T>(s: seq<T>, pos: nat, v: T, fill: T)
    requires pos <= |s|
    ensures IterWriteAsWritten(s, pos, v, fill) == IterWrite(s, pos, v, fill)
    ensures pos < |s| ==> IterWrite(s, pos, v, fill) == IterState(s[pos := v], pos + 1)
    ensures pos == |s| ==> IterWrite(s, pos, v, fill) == IterState(s + [v], pos + 1)
  {
  }

  /** Beyond the end the code as written puts the value one place early and
      leaves the iterator two places past the new end. */
  lemma IterWriteAsWrittenBeyondEnd<T>(s: seq<T>, pos: nat, v: T, fill: T)
    requires pos > |s|
    ensures var r := IterWriteAsWritten(s, pos, v, fill);
            |r.elems| == pos && r.elems[pos - 1] == v && r.pos == pos + 1 &&
            r.elems[..|s|] == s
  {
    var r := IterWriteAsWritten(s, pos, v, fill);
    var g := Resize(s, pos - 1, fill);
    assert r.elems == g + [v];
    assert r.elems[..|s|] == g[..|s|];
  }

  /** Concrete discrepancy: an empty container and an iterator at position 1. */
  lemma IterWriteOffByOne()
    ensures IterWriteAsWritten([], 1, 'x', ' ') == IterState(['x'], 2)
    ensures IterWrite([], 1, 'x', ' ') == IterState([' ', 'x'], 2)
  {
    assert Resize([], 1, ' ') == [' '];
  }

  /** Elements a round of the chunked `_write` copies: the input chunk,
      clamped to the output chunk and to what is left to write. */
  function ChunkStep(ilen: nat, olen: nat, n: nat): (m: nat)
    ensures m <= ilen && m <= olen && m <= n
    ensures m == 0 <==> ilen == 0 || olen == 0 || n == 0
    ensures m == ilen || m == olen || m == n
  {
    var m := if ilen > olen then olen else ilen;
    if m > n then n else m
  }

  /** The input chunk of a range of pointers: everything from the iterator
      to the end of the range. */
  function RangeChunk(len: nat): (chunk: nat -> nat)
    ensures forall p: nat :: p < len ==> chunk(p) == len - p
  {
    p => if p <= len then len - p else 0
  }

  // ---------------------------------------------------------------------
  // Container targets
  // ---------------------------------------------------------------------

  class Container<T> {
    var elems: seq<T>
    /** The value `resize` gives new elements. */
    const fill: T

    constructor (fill: T)
      ensures elems == [] && this.fill == fill
    {
      elems := [];
      this.fill := fill;
    }

    /** `writeValue(cont, val)`: append `val`, nothing else changes. */
    method WriteValue(v: T)
      modifies this
      ensures elems == old(elems) + [v]
    {
      elems := elems + [v];
    }

    /** Element-wise `_write`: `n` writes of `src[iter]`, `src[iter + 1]`, ...;
        returns the advanced input iterator. */
    method WriteElementwise(src: seq<T>, iter: nat, n: nat) returns (next: nat)
      requires iter + n <= |src|
      modifies this
      ensures next == iter + n
      ensures elems == old(elems) + src[iter..iter + n]
    {
      var left := n;
      next := iter;
      while left > 0
        invariant next + left == iter + n
        invariant elems == old(elems) + src[iter..next]
      {
        assert src[iter..next + 1] == src[iter..next] + [src[next]];
        WriteValue(src[next]);
        left, next := left - 1, next + 1;
      }
    }

    /** Chunked `_write`. `ichunk(p)` is the length of the input chunk the
        iterator offers at `p`; `ochunk(len, m)` is the free space the target
        offers once `m` elements are reserved at length `len`. An empty output
        chunk falls back to element-wise writing. Every input chunk met must
        be non-empty, or the loop makes no progress (see `ChunkStep`). */
    method WriteChunked(src: seq<T>, iter: nat, n: nat, ichunk: nat -> nat, ochunk: (nat, nat) -> nat)
      returns (next: nat)
      requires iter + n <= |src|
      requires forall p: nat :: iter <= p < iter + n ==> ichunk(p) > 0
      modifies this
      ensures next == iter + n
      ensures elems == old(elems) + src[iter..iter + n]
    {
      var left := n;
      next := iter;
      while left > 0
        invariant next + left == iter + n
        invariant elems == old(elems) + src[iter..next]
        decreases left
      {
        var ilen := ichunk(next);
        var olen := ochunk(|elems|, ilen);
        if olen == 0 {
          var rest := WriteElementwise(src, next, left);
          Common.ConcatRegroup(old(elems), src[iter..next], src[next..next + left]);
          assert src[iter..next] + src[next..next + left] == src[iter..iter + n];
          next := rest;
          return;
        }
        var m := ChunkStep(ilen, olen, left);
        var chunk := new T[olen](_ => fill);
        var k := 0;
        while k < m
          invariant 0 <= k <= m
          invariant chunk[..k] == src[next..next + k]
          invariant elems == old(elems) + src[iter..next]
        {
          chunk[k] := src[next + k];
          assert chunk[..k + 1] == chunk[..k] + [chunk[k]];
          k := k + 1;
        }
        assert src[iter..next + m] == src[iter..next] + src[next..next + m];
        assert chunk[..m] == src[next..next + m];
        Common.ConcatRegroup(old(elems), src[iter..next], src[next..next + m]);
        elems := elems + chunk[..m];
        next, left := next + m, left - m;
      }
    }

    /** `write(target, ptr, n)`: the range [ptr, ptr + n) as input, whose
        chunk is always the rest of the range, so the loop ends. */
    method WritePointer(src: seq<T>, ochunk: (nat, nat) -> nat)
      modifies this
      ensures elems == old(elems) + src
    {
      var next := WriteChunked(src, 0, |src|, RangeChunk(|src|), ochunk);
      assert src[0..|src|] == src;
    }

    /** `write(target, cont)`: all of `cont`, from its beginning. */
    method WriteContainer(cont: seq<T>, ichunk: nat -> nat, ochunk: (nat, nat) -> nat)
      requires forall p: nat :: p < |cont| ==> ichunk(p) > 0
      modifies this
      ensures elems == old(elems) + cont
    {
      var next := WriteChunked(cont, 0, |cont|, ichunk, ochunk);
      assert cont[0..|cont|] == cont;
    }

    /** `read(target, iter, n)`: copy until `n` elements are copied or the
        input is at its end; returns how many were copied and the advanced
        iterator. */
    method Read(src: seq<T>, iter: nat, n: nat) returns (copied: nat, next: nat)
      requires iter <= |src|
      modifies this
      ensures copied == (if n < |src| - iter then n else |src| - iter)
      ensures next == iter + copied
      ensures elems == old(elems) + src[iter..next]
    {
      copied, next := 0, iter;
      while next < |src| && copied < n
        invariant next == iter + copied <= |src|
        invariant copied <= n
        invariant elems == old(elems) + src[iter..next]
      {
        assert src[iter..next + 1] == src[iter..next] + [src[next]];
        WriteValue(src[next]);
        copied, next := copied + 1, next + 1;
      }
    }

    /** `read(target, cont)`: exactly `length(cont)` elements from the
        beginning of `cont`. */
    method ReadContainer(cont: seq<T>)
      modifies this
      ensures elems == old(elems) + cont
    {
      var copied, next := Read(cont, 0, |cont|);
      assert cont[0..|cont|] == cont;
    }
  }

  // ---------------------------------------------------------------------
  // Iterator targets
  // ---------------------------------------------------------------------

  /** An iterator into a container, at position `pos` (possibly beyond its
      end). */
  class Iter<T> {
    const target: Container<T>
    var pos: nat

    constructor (target: Container<T>, pos: nat)
      ensures this.target == target && this.pos == pos
    {
      this.target := target;
      this.pos := pos;
    }

    /** Iterator `writeValue` as written (resizes to pos - 1). */
    method WriteValueAsWritten(v: T)
      modifies this, target
      ensures IterState(target.elems, pos) == IterWriteAsWritten(old(target.elems), old(pos), v, target.fill)
    {
      var len := |target.elems|;
      if pos < len {
        target.elems := target.elems[pos := v];
        pos := pos + 1;
      } else {
        if pos > len {
          target.elems := Resize(target.elems, pos - 1, target.fill);
        }
        target.WriteValue(v);
        pos := pos + 1;
      }
    }

    /** Iterator `writeValue` as intended (resizes to pos). */
    method WriteValue(v: T)
      modifies this, target
      ensures IterState(target.elems, pos) == IterWrite(old(target.elems), old(pos), v, target.fill)
      ensures target.elems[old(pos)] == v && pos == old(pos) + 1
    {
      IterWriteStores(target.elems, pos, v, target.fill);
      var len := |target.elems|;
      if pos < len {
        target.elems := target.elems[pos := v];
        pos := pos + 1;
      } else {
        if pos > len {
          target.elems := Resize(target.elems, pos, target.fill);
        }
        target.WriteValue(v);
        pos := pos + 1;
      }
    }
  }
}
