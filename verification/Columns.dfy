/** Ids in the database's four-byte integer columns. */
module Columns {

  predicate InInt4(id: int) { -0x8000_0000 <= id < 0x8000_0000 }

  /** The cast a bound id goes through: the one id of the column's width that is the same in its low 32 bits. */
  function Wrap32(id: int): (r: int)
    ensures InInt4(r) && (r - id) % 0x1_0000_0000 == 0
    ensures InInt4(id) ==> r == id
  {
    var low := id % 0x1_0000_0000;
    if low < 0x8000_0000 then low else low - 0x1_0000_0000
  }
}
