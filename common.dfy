/** Small vocabulary shared by every module: optional values, the exceptions the
    modelled C# code can raise, and the 32-bit integers it computes with. */
module Common {

  /** A C# reference that may be null, or a lookup that may miss. */
  datatype Option<+T> = None | Some(value: T)

  /** The exceptions the modelled code lets escape to its caller. */
  datatype Failure =
    | NullReference        // a member access on null
    | InvalidOperation     // LINQ First() on an empty selection
    | ArgumentOutOfRange   // List indexer with a bad index

  /** What a C# call does: return a value, or throw. */
  datatype Outcome<+T> = Returned(value: T) | Threw(failure: Failure)

  const Int32Min: int := -0x8000_0000
  const Int32Max: int := 0x7FFF_FFFF

  /** C#'s `int`. */
  type Int32 = x: int | Int32Min <= x <= Int32Max

  /** C#'s unchecked `a - b` on `int`: the difference, wrapped into 32 bits. */
  function Sub32(a: Int32, b: Int32): (r: Int32)
    ensures (r - (a - b)) % 0x1_0000_0000 == 0
    ensures Int32Min <= a - b <= Int32Max ==> r == a - b
  {
    var d := a - b;
    if d < Int32Min then d + 0x1_0000_0000
    else if d > Int32Max then d - 0x1_0000_0000
    else d
  }

  /** A price no larger than the balance never wraps and never drives the balance negative. */
  lemma AffordableSubtraction(balance: Int32, price: Int32)
    requires 0 <= price <= balance
    ensures Sub32(balance, price) == balance - price
    ensures 0 <= Sub32(balance, price) <= balance
  {
  }
}
