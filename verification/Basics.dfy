/** Types and sequence facts shared by every module. */
module Basics {

  datatype Option<+T> = None | Some(value: T)

  /** One octet, as it travels through sockets and BIOs. */
  type byte = x: int | 0 <= x < 256

  function Bit(b: bool): nat { if b then 1 else 0 }

  /** The concatenation of a sequence of pieces, in order. */
  function Flatten<T>(parts: seq<seq<T>>): seq<T> {
    if parts == [] then [] else parts[0] + Flatten(parts[1..])
  }

  lemma {:induction false} FlattenAppend<T>(a: seq<seq<T>>, b: seq<seq<T>>)
    ensures Flatten(a + b) == Flatten(a) + Flatten(b)
  {
    if a == [] {
      assert a + b == b;
    } else {
      assert (a + b)[1..] == a[1..] + b;
      FlattenAppend(a[1..], b);
    }
  }

  lemma Regroup<T>(a: seq<T>, b: seq<T>, c: seq<T>)
    ensures (a + b) + c == a + (b + c)
  {
  }
}
