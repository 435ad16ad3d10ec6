/**
  The concrete scenarios of the crate's documentation and unit tests, stated
  against the model: each read-only one as a lemma, each mutable one as a
  method that builds its own array, takes the mutable view and returns what
  the test compares.
 */
module SubArrayTests {
  import opened SubArray

  /**
    The element type of the tests that use a type without `Clone`. Dafny cannot
    forbid copying a value; what carries over is that `SubArrayRef` and
    `SubArrayMut` put no characteristic at all on their element type.
   */
  datatype NotClone = NotClone(name: string)

  const NotCloneArray: seq<NotClone> :=
    [NotClone("abc"), NotClone("foo"), NotClone("bar"), NotClone("qux"), NotClone("fox")]

  /** Three elements at offset 1 of `[1, 2, 3, 4, 5, 6, 7]` are `[2, 3, 4]`. */
  lemma DocExampleRef()
    ensures SubArrayRef([1, 2, 3, 4, 5, 6, 7], 3, 1) == Ok([2, 3, 4])
  {
    WindowDetermined([1, 2, 3, 4, 5, 6, 7], 3, 1, [2, 3, 4]);
  }

  /** A zero-length window at offset 0 of an empty array is empty. */
  lemma EmptyRef()
    ensures SubArrayRef<int>([], 0, 0) == Ok([])
  {
    ZeroLengthWindow<int>([], 0);
  }

  /** A three-element window at offset 0 of a three-element array is the array. */
  lemma FullRef()
    ensures SubArrayRef([1, 2, 3], 3, 0) == Ok([1, 2, 3])
  {
    FullLengthWindow([1, 2, 3]);
  }

  /** The first, middle and last one-element windows of `[1, 2, 3]`. */
  lemma SingleElementRefs()
    ensures SubArrayRef([1, 2, 3], 1, 0) == Ok([1])
    ensures SubArrayRef([1, 2, 3], 1, 1) == Ok([2])
    ensures SubArrayRef([1, 2, 3], 1, 2) == Ok([3])
  {
    WindowDetermined([1, 2, 3], 1, 0, [1]);
    WindowDetermined([1, 2, 3], 1, 1, [2]);
    WindowDetermined([1, 2, 3], 1, 2, [3]);
  }

  /** A one-element window starting at the length, or one element too long, panics. */
  lemma PastEndPanics()
    ensures SubArrayRef([1, 2, 3], 1, 3) == Panic
    ensures SubArrayRef([1, 2, 3], 4, 0) == Panic
    ensures SubArrayRef([1, 2, 3], 3, 1) == Panic
  {
  }

  /** Extraction of `NotClone` elements, through an element type left unconstrained. */
  lemma NotCloneRef()
    ensures SubArrayRef(NotCloneArray, 3, 1) == Ok([NotClone("foo"), NotClone("bar"), NotClone("qux")])
  {
    WindowDetermined(NotCloneArray, 3, 1, [NotClone("foo"), NotClone("bar"), NotClone("qux")]);
  }

  /** Two strings at offset 2. */
  lemma SomeStrings()
    ensures SubArrayRef(["abc", "foo", "bar", "qux", "fox"], 2, 2) == Ok(["bar", "qux"])
  {
    WindowDetermined(["abc", "foo", "bar", "qux", "fox"], 2, 2, ["bar", "qux"]);
  }

  /**
    A one-element mutable view at offset 2 of `["baz", "qux", "foo"]`; appending
    `"bar"` to its element changes the source's last element.
   */
  method DocExampleMut() returns (r: seq<string>)
    ensures r == ["baz", "qux", "foobar"]
  {
    var arr := new string[3]["baz", "qux", "foo"];
    var sub := SubArrayMut(arr, 1, 2);
    if sub.Panic? {
      assert false;
    } else {
      var x := sub.value.Get(0);
      assert x == "foo";
      assert x + "bar" == "foobar";
      sub.value.Set(0, x + "bar");
    }
    r := arr[..];
  }

  /** A zero-length mutable view at offset 0 of an empty array is empty. */
  method EmptyMut() returns (r: seq<int>)
    ensures r == []
  {
    var arr := new int[0];
    var sub := SubArrayMut(arr, 0, 0);
    if sub.Panic? {
      assert false;
    } else {
      r := sub.value.Contents();
    }
  }

  /** A three-element mutable view at offset 0 of `[1, 2, 3]` is the array. */
  method FullMut() returns (r: seq<int>)
    ensures r == [1, 2, 3]
  {
    var arr := new int[3][1, 2, 3];
    var sub := SubArrayMut(arr, 3, 0);
    if sub.Panic? {
      assert false;
    } else {
      r := sub.value.Contents();
      assert r == arr[..];
    }
  }

  /** The first, middle and last one-element mutable views of `[1, 2, 3]`. */
  method SingleElementMuts() returns (first: seq<int>, middle: seq<int>, last: seq<int>)
    ensures first == [1] && middle == [2] && last == [3]
  {
    var arr := new int[3][1, 2, 3];
    var sub := SubArrayMut(arr, 1, 0);
    if sub.Panic? { assert false; } else { first := sub.value.Contents(); }
    sub := SubArrayMut(arr, 1, 1);
    if sub.Panic? { assert false; } else { middle := sub.value.Contents(); }
    sub := SubArrayMut(arr, 1, 2);
    if sub.Panic? { assert false; } else { last := sub.value.Contents(); }
  }

  /** A mutable view of `NotClone` elements, through an element type left unconstrained. */
  method NotCloneMut() returns (r: seq<NotClone>)
    ensures r == [NotClone("foo"), NotClone("bar"), NotClone("qux")]
  {
    var arr := new NotClone[5](i requires 0 <= i < 5 => NotCloneArray[i]);
    var sub := SubArrayMut(arr, 3, 1);
    if sub.Panic? {
      assert false;
    } else {
      r := sub.value.Contents();
    }
  }
}
