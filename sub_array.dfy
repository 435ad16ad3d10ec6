/**
  A model of the `SubArray` trait and its implementation for fixed-size arrays
  `[T; M]`: extracting a window of `n` contiguous elements starting at a
  run-time `offset`, either as a read-only view (`sub_array_ref`) or as a
  mutable view whose writes land in the source (`sub_array_mut`).

  The only failure is a bounds violation (`offset + n` past the end), on which
  `sub_array_ref` and `sub_array_mut` panic; the model returns `Panic` instead
  of a window.
 */
module SubArray {

  /** The outcome of an extraction: a window, or the panic on a bounds violation. */
  datatype Outcome<+R> = Ok(value: R) | Panic

  /** The bounds check both extractions perform. */
  predicate InBounds(length: nat, n: nat, offset: nat) {
    offset + n <= length
  }

  /** The `n` elements of `source` starting at `offset`, in order. */
  function Window<T>(source: seq<T>, n: nat, offset: nat): (w: seq<T>)
    requires InBounds(|source|, n, offset)
    ensures |w| == n
    ensures forall i :: 0 <= i < n ==> w[i] == source[offset + i]
  {
    source[offset..offset + n]
  }

  /**
    `sub_array_ref::<n>(offset)`: the read-only view. It succeeds exactly when
    `offset + n` is within the source, and then holds exactly `n` elements, the
    i-th being the source's element `offset + i`; it never clamps or shortens.
   */
  function SubArrayRef<T>(source: seq<T>, n: nat, offset: nat): (r: Outcome<seq<T>>)
    ensures r.Ok? <==> offset + n <= |source|
    ensures r.Ok? ==> |r.value| == n
    ensures r.Ok? ==> forall i :: 0 <= i < n ==> r.value[i] == source[offset + i]
  {
    if InBounds(|source|, n, offset) then Ok(Window(source, n, offset)) else Panic
  }

  /** A window is the source with the part before and the part after cut off. */
  lemma Reassemble<T>(source: seq<T>, n: nat, offset: nat)
    requires InBounds(|source|, n, offset)
    ensures source[..offset] + Window(source, n, offset) + source[offset + n..] == source
  {
    assert source[..offset] + source[offset..offset + n] == source[..offset + n];
  }

  /** Any sequence that agrees with the source at every window position is the window. */
  lemma WindowDetermined<T>(source: seq<T>, n: nat, offset: nat, w: seq<T>)
    requires InBounds(|source|, n, offset)
    requires |w| == n
    requires forall i :: 0 <= i < n ==> w[i] == source[offset + i]
    ensures SubArrayRef(source, n, offset) == Ok(w)
  {
    assert Window(source, n, offset) == w;
  }

  /** A zero-length window succeeds at every offset up to and including the length. */
  lemma ZeroLengthWindow<T>(source: seq<T>, offset: nat)
    ensures SubArrayRef(source, 0, offset) == (if offset <= |source| then Ok([]) else Panic)
  {
  }

  /** A window as long as the source, at offset 0, is the whole source in order. */
  lemma FullLengthWindow<T>(source: seq<T>)
    ensures SubArrayRef(source, |source|, 0) == Ok(source)
  {
    assert Window(source, |source|, 0) == source;
  }

  /**
    The view returned by `sub_array_mut::<n>(offset)`: a reference to the
    source's own storage (`source`, never a copy) together with where the
    window starts and how long it is.
   */
  class MutWindow<T> {
    const source: array<T>
    const offset: nat
    const len: nat

    /** The window lies inside the source. */
    predicate Valid() {
      InBounds(source.Length, len, offset)
    }

    constructor (source: array<T>, len: nat, offset: nat)
      requires InBounds(source.Length, len, offset)
      ensures Valid()
      ensures this.source == source && this.len == len && this.offset == offset
    {
      this.source := source;
      this.len := len;
      this.offset := offset;
    }

    /** What reading the whole view gives right now: the `[T; N]` the view points to. */
    function Contents(): (w: seq<T>)
      requires Valid()
      reads source
      ensures |w| == len
      ensures forall i :: 0 <= i < len ==> w[i] == source[offset + i]
    {
      Window(source[..], len, offset)
    }

    /** Reading element `i` of the view reads the source at `offset + i`. */
    method Get(i: nat) returns (x: T)
      requires Valid()
      requires i < len
      ensures x == source[offset + i]
      ensures x == Contents()[i]
    {
      x := source[offset + i];
    }

    /**
      Writing element `i` of the view writes the source at `offset + i` and
      nowhere else; the view sees the write as well.
     */
    method Set(i: nat, v: T)
      requires Valid()
      requires i < len
      modifies source
      ensures source[..] == old(source[..])[offset + i := v]
      ensures forall j :: 0 <= j < source.Length && j != offset + i ==> source[j] == old(source[j])
      ensures Contents() == old(Contents())[i := v]
    {
      source[offset + i] := v;
      assert source[..] == old(source[..])[offset + i := v];
    }

    /**
      Performing the writes `ws` through the view, one `Set` after another,
      leaves the source as `ApplyWrites` of the shifted writes describes, and
      the view's contents as the same writes applied to its old contents.
     */
    method SetAll(ws: seq<Write<T>>)
      requires Valid()
      requires WritesWithin(ws, len)
      modifies source
      ensures WritesWithin(Shifted(ws, offset), source.Length)
      ensures source[..] == ApplyWrites(old(source[..]), Shifted(ws, offset))
      ensures Contents() == ApplyWrites(old(Contents()), ws)
    {
      WritesThroughWindow(source[..], len, offset, ws);
      ghost var s0 := source[..];
      var k := 0;
      while k < |ws|
        invariant 0 <= k <= |ws|
        invariant WritesWithin(ws[k..], len)
        invariant WritesWithin(Shifted(ws[k..], offset), source.Length)
        invariant ApplyWrites(source[..], Shifted(ws[k..], offset))
               == ApplyWrites(s0, Shifted(ws, offset))
      {
        ghost var before := source[..];
        ghost var sh := Shifted(ws[k..], offset);
        assert sh[0] == Write(ws[k].index + offset, ws[k].value);
        assert ws[k..][1..] == ws[k + 1..];
        assert sh[1..] == Shifted(ws[k + 1..], offset);
        Set(ws[k].index, ws[k].value);
        assert source[..] == before[sh[0].index := sh[0].value];
        k := k + 1;
      }
      assert ws[k..] == [];
      assert source[..] == ApplyWrites(s0, Shifted(ws, offset));
      assert Contents() == source[..][offset..offset + len];
    }
  }

  /**
    `sub_array_mut::<n>(offset)`: the mutable view. It succeeds exactly when
    the read-only view does, aliases the very array it was taken from, and
    before any write holds what `SubArrayRef` returns.
   */
  method SubArrayMut<T>(a: array<T>, n: nat, offset: nat) returns (r: Outcome<MutWindow<T>>)
    ensures r.Ok? <==> offset + n <= a.Length
    ensures r.Ok? ==> r.value.Valid() && r.value.source == a
    ensures r.Ok? ==> r.value.len == n && r.value.offset == offset
    ensures r.Ok? ==> SubArrayRef(a[..], n, offset) == Ok(r.value.Contents())
  {
    if InBounds(a.Length, n, offset) {
      var w := new MutWindow(a, n, offset);
      r := Ok(w);
    } else {
      r := Panic;
    }
  }

  /** One write through a view: which element of the view, and its new value. */
  datatype Write<T> = Write(index: nat, value: T)

  /** Every write addresses one of the first `n` positions. */
  predicate WritesWithin<T>(ws: seq<Write<T>>, n: nat) {
    forall k :: 0 <= k < |ws| ==> ws[k].index < n
  }

  /** The contents after performing the writes `ws` in order, each as `MutWindow.Set` does. */
  function ApplyWrites<T>(s: seq<T>, ws: seq<Write<T>>): (r: seq<T>)
    requires WritesWithin(ws, |s|)
    ensures |r| == |s|
    decreases |ws|
  {
    if ws == [] then s
    else ApplyWrites(s[ws[0].index := ws[0].value], ws[1..])
  }

  /** The writes on the source that the view's writes `ws` become, for a view at `offset`. */
  function Shifted<T>(ws: seq<Write<T>>, offset: nat): (r: seq<Write<T>>)
    ensures |r| == |ws|
    ensures forall k :: 0 <= k < |ws| ==> r[k] == Write(ws[k].index + offset, ws[k].value)
    decreases |ws|
  {
    if ws == [] then []
    else [Write(ws[0].index + offset, ws[0].value)] + Shifted(ws[1..], offset)
  }

  /**
    Any run of writes through a view is seen in the source: the source
    afterwards is its untouched part before the window, the view's contents
    after those writes, and its untouched part after the window.
   */
  lemma {:induction false} WritesThroughWindow<T>(s: seq<T>, n: nat, offset: nat, ws: seq<Write<T>>)
    requires InBounds(|s|, n, offset)
    requires WritesWithin(ws, n)
    ensures WritesWithin(Shifted(ws, offset), |s|)
    ensures ApplyWrites(s, Shifted(ws, offset))
         == s[..offset] + ApplyWrites(Window(s, n, offset), ws) + s[offset + n..]
    decreases |ws|
  {
    var sh := Shifted(ws, offset);
    if ws == [] {
      Reassemble(s, n, offset);
    } else {
      var w := ws[0];
      var s' := s[offset + w.index := w.value];
      assert sh[0] == Write(offset + w.index, w.value);
      assert sh[1..] == Shifted(ws[1..], offset);
      assert WritesWithin(ws[1..], n);
      WritesThroughWindow(s', n, offset, ws[1..]);
      assert s'[..offset] == s[..offset];
      assert s'[offset + n..] == s[offset + n..];
      assert Window(s', n, offset) == Window(s, n, offset)[w.index := w.value];
    }
  }
}
