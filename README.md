# sub-array, modelled in Dafny

The `sub-array` crate has one trait, `SubArray`, and one implementation of it,
for fixed-size arrays `[T; M]`. Given a window length `N`, known at compile time,
and an `offset`, known at run time, it returns a reference to the `N`
contiguous elements `source[offset .. offset + N]`. It copies nothing.
`sub_array_ref` gives a read-only view. `sub_array_mut` gives a mutable view whose
writes land in the source array. Both panic when `offset + N` is past the end of
the array. That bounds check is the crate's only failure.

The model has two files:

- `sub_array.dfy`, module `SubArray`, is the crate itself.
  - `SubArrayRef` is `sub_array_ref`: a total function on `seq<T>`. It returns
    `Ok(window)` or `Panic`.
  - `SubArrayMut` is `sub_array_mut`. It takes an `array<T>` and returns a
    `MutWindow`, or `Panic`. A `MutWindow` holds the source array itself, an
    offset and a length. `Get` and `Set` index the returned `&mut [T; N]`, and
    `Set` writes straight into the source array.
  - `ApplyWrites` and `Shifted` describe any run of writes made through a view.
    The lemma `WritesThroughWindow` shows where such a run lands in the source,
    and `MutWindow.SetAll` performs such a run with `Set` and is proved to
    agree with them.
- `sub_array_tests.dfy`, module `SubArrayTests`, restates the crate's
  documentation examples and unit tests. Read-only scenarios are lemmas. Mutable
  scenarios are methods that build their own array.

## Model

| member | source | states |
|---|---|---|
| `SubArray.Window` | src/lib.rs:56-57 | the slice `source[offset..offset+n]` has exactly `n` elements, and element `i` is source element `offset + i` |
| `SubArray.SubArrayRef` | src/lib.rs:56-58 | the read-only view succeeds if and only if `offset + n <= length`, and panics otherwise; a view it returns has exactly `n` elements, element `i` being source element `offset + i` (never clamped, wrapped or shortened) |
| `SubArray.Reassemble` | src/lib.rs:57 | the part of the source before the window, then the window, then the part after it, make up the whole source in order: the view drops and repeats nothing |
| `SubArray.WindowDetermined` | src/lib.rs:56-58 | any sequence of length `n` that agrees with the source at `offset + i` for every `i < n` is exactly what `sub_array_ref` returns |
| `SubArray.ZeroLengthWindow` | src/lib.rs:77-87 | a zero-length window yields the empty view at every offset up to and including the length, and panics only past the end |
| `SubArray.FullLengthWindow` | src/lib.rs:89-99 | a window as long as the source, at offset 0, yields the whole source in its original order |
| `SubArray.MutWindow.constructor` | src/lib.rs:61 | a mutable view refers to the given array itself, with the given offset and length, and lies inside it |
| `SubArray.MutWindow.Contents` | src/lib.rs:61 | the view currently holds the source's `len` elements from `offset`, in order: element `i` is source element `offset + i` |
| `SubArray.MutWindow.Get` | src/lib.rs:61 | reading view element `i` reads source element `offset + i` |
| `SubArray.MutWindow.Set` | src/lib.rs:23-24 | writing view element `i` changes source element `offset + i` and no other source element; the view's contents change at `i` only |
| `SubArray.MutWindow.SetAll` | src/lib.rs:23-24 | a run of writes through the view, one `Set` after another, leaves the source equal to `ApplyWrites` of the writes shifted by `offset`, and the view's contents equal to the same writes applied to its old contents |
| `SubArray.SubArrayMut` | src/lib.rs:60-62 | the mutable view succeeds if and only if `offset + n <= length`; it aliases the very array it was taken from (no copy) at that offset and length; before any write it holds exactly what `sub_array_ref` returns for the same `n` and `offset` |
| `SubArray.ApplyWrites` | src/lib.rs:60-61 | performing any run of in-bounds element writes keeps the length of the array |
| `SubArray.Shifted` | src/lib.rs:61 | view write `k`, at view index `j`, is a source write at index `offset + j` with the same value |
| `SubArray.WritesThroughWindow` | src/lib.rs:19-28 | after any run of writes through a view, the source is its untouched prefix, then the view's contents after those same writes, then its untouched suffix |
| `SubArrayTests.DocExampleRef` | src/lib.rs:12-14 | three elements at offset 1 of `[1..7]` are `[2, 3, 4]` |
| `SubArrayTests.EmptyRef` | src/lib.rs:77-81 | a zero-length view at offset 0 of an empty array is empty |
| `SubArrayTests.FullRef` | src/lib.rs:89-93 | a three-element view at offset 0 of `[1, 2, 3]` is `[1, 2, 3]` |
| `SubArrayTests.SingleElementRefs` | src/lib.rs:101-129 | the first, middle and last one-element views of `[1, 2, 3]` are `[1]`, `[2]` and `[3]` |
| `SubArrayTests.PastEndPanics` | src/lib.rs:41-42 | a one-element window starting at the length, or a window that runs past the end, panics |
| `SubArrayTests.NotCloneRef` | src/lib.rs:148-153 | three `NotClone` elements at offset 1 are `foo`, `bar`, `qux`; `SubArrayRef` puts no characteristic (equality, default value) on its element type |
| `SubArrayTests.SomeStrings` | src/lib.rs:162-169 | two strings at offset 2 are `["bar", "qux"]` |
| `SubArrayTests.DocExampleMut` | src/lib.rs:19-28 | appending `"bar"` through a one-element mutable view at offset 2 turns the source into `["baz", "qux", "foobar"]` |
| `SubArrayTests.EmptyMut` | src/lib.rs:83-87 | a zero-length mutable view at offset 0 of an empty array is empty |
| `SubArrayTests.FullMut` | src/lib.rs:95-99 | a three-element mutable view at offset 0 of `[1, 2, 3]` is `[1, 2, 3]` |
| `SubArrayTests.SingleElementMuts` | src/lib.rs:107-135 | the first, middle and last one-element mutable views of `[1, 2, 3]` are `[1]`, `[2]` and `[3]` |
| `SubArrayTests.NotCloneMut` | src/lib.rs:155-160 | a three-element mutable view at offset 1 of the `NotClone` array holds `foo`, `bar`, `qux`; `SubArrayMut` puts no characteristic on its element type |

## Left out

- The panic is modelled as the value `Panic`. The model does not stop the program, and it does not model the panic message.
- `usize` overflow of `offset + N` is not modelled, because offsets are unbounded `nat`s. In Rust an overflowing sum also ends in a panic: in debug builds from the addition, and in release builds because the wrapped end is below `offset`. So the outcome is the same as in the model.
- Lifetimes and the borrow checker's exclusivity rule (one live mutable view, or any number of read-only ones) are not modelled. The model assumes one view is used at a time.
- The read-only view is a `seq` value, so the model cannot state that it is the same storage as the source. Only the mutable view shows aliasing, through the identity of its array.
- `try_into().unwrap()` and the slice-to-array conversion belong to the `core` library, which is not part of this model. The model keeps only their net effect: the bounds check and the slice's contents.
- `MutWindow.Get` and `MutWindow.Set` require `i < len`. That bound belongs to Rust's own indexing of the returned `[T; N]`, not to this crate.
- `String::push_str` in the documentation example is modelled as string concatenation. Every other element mutation is an abstract write of a new value.
- src/lib.rs implements the trait only for `[T; M]` (src/lib.rs:53-63); there is no implementation for unsized slices or for `&mut` wrappers, so none is modelled.
- Element types that cannot be duplicated (no `Clone`) cannot be expressed: every Dafny value can be copied, and `SubArrayRef` returns a new `seq`. The model keeps what it can: neither extraction puts any characteristic on its element type.
- `#![no_std]`, `extern crate alloc` and the rest of the test scaffolding are not modelled.
