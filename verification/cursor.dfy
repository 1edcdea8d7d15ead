/** The cursor record both scanners keep in their pointers, and the clamp
    every move applies to the position. */
module Cursor {
  import opened JsValues

  /** `{ pos, lastPos, lastMatch }` */
  datatype State = State(pos: int, lastPos: int, lastMatch: Value)

  /** A position pulled back into `[0, len]`. */
  function Clamp(p: int, len: nat): (r: int)
    ensures 0 <= r <= len
    ensures 0 <= p <= len ==> r == p
    ensures p < 0 ==> r == 0
    ensures p > len ==> r == len
  {
    if p < 0 then 0 else if p > len then len else p
  }
}
