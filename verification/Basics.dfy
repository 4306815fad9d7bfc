/** Machine integers, failure types and byte-sequence facts shared by every module. */
module Basics {
  const MAX_U64: nat := 0xFFFF_FFFF_FFFF_FFFF
  const MAX_U32: nat := 0xFFFF_FFFF

  type Byte = x: int | 0 <= x < 256
  type U32 = x: int | 0 <= x <= MAX_U32
  type U64 = x: int | 0 <= x <= MAX_U64

  datatype Option<+T> = None | Some(value: T)

  /** A value or an error, usable with `:-` the way the source uses `?`. */
  datatype Result<+T, +E> = Ok(value: T) | Err(error: E) {
    predicate IsFailure() {
      Err?
    }

    function PropagateFailure<U>(): Result<U, E>
      requires Err?
    {
      Err(error)
    }

    function Extract(): T
      requires Ok?
    {
      value
    }
  }

  /** `checked_*(..).ok_or(error)?`: the unbounded result when a u64 can hold it. */
  function Checked<E>(value: int, error: E): (r: Result<U64, E>)
    ensures r.Ok? <==> 0 <= value <= MAX_U64
    ensures r.Ok? ==> r.value == value
    ensures r.Err? ==> r.error == error
  {
    if 0 <= value <= MAX_U64 then Ok(value) else Err(error)
  }

  function Min(a: int, b: int): int {
    if a <= b then a else b
  }

  function Max(a: int, b: int): int {
    if a <= b then b else a
  }

  /** `u64::saturating_sub`. */
  function SaturatingSub(a: nat, b: nat): nat {
    if a >= b then a - b else 0
  }

  /** All chunks, joined in order. */
  function Flatten<T>(chunks: seq<seq<T>>): seq<T> {
    if chunks == [] then [] else Flatten(chunks[..|chunks| - 1]) + chunks[|chunks| - 1]
  }

  lemma FlattenAppend<T>(chunks: seq<seq<T>>, chunk: seq<T>)
    ensures Flatten(chunks + [chunk]) == Flatten(chunks) + chunk
  {
    assert (chunks + [chunk])[..|chunks|] == chunks;
  }
}
