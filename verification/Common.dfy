/** What several of the models share. */
module Common {
  type Byte = x: int | 0 <= x < 256

  datatype Option<T> = None | Some(value: T)

  /** The numbers from base on, len of them. */
  function Span(base: nat, len: nat): (s: set<nat>)
    ensures forall x :: x in s <==> base <= x < base + len
  {
    if len == 0 then {} else Span(base, len - 1) + {base + len - 1}
  }
}
