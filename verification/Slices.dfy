/** Go slices: a window on a backing array. Appending writes in place while the
    array has room, and otherwise copies to a new, larger array, so slices with a
    common prefix may or may not share their elements. */
module Slices {

  datatype Slice<T> = Slice(arr: array<T>, len: nat) {
    ghost predicate Fits() {
      len <= arr.Length
    }

    ghost function View(): seq<T>
      requires Fits()
      reads arr
    {
      arr[..len]
    }
  }

  method Append<T>(s: Slice<T>, x: T) returns (r: Slice<T>)
    requires s.Fits()
    modifies s.arr
    ensures r.Fits() && r.len == s.len + 1 && r.View() == old(s.View()) + [x]
    ensures if s.len < s.arr.Length then r.arr == s.arr && s.arr[..] == old(s.arr[..])[s.len := x]
            else fresh(r.arr) && s.arr[..] == old(s.arr[..])
  {
    if s.len < s.arr.Length {
      s.arr[s.len] := x;
      r := Slice(s.arr, s.len + 1);
    } else {
      var capacity: nat :| capacity > s.len;
      var grown := new T[capacity](i requires 0 <= i reads s.arr => if i < s.len && i < s.arr.Length then s.arr[i] else x);
      r := Slice(grown, s.len + 1);
    }
  }
}
