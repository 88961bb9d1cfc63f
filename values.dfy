/** Values shared by the till, the change selector, the transaction log and the routes. */
module Values {

  datatype Option<+T> = None | Some(value: T)

  datatype Result<+T, +E> = Success(value: T) | Failure(error: E)

  /** The `type` string a route hands to the till update and to the transaction log. */
  datatype Kind = CHARGE | PAYMENT | CHANGE | EMPTY

  /**
   * A numeric field of a JSON request body, as the JavaScript checks see it:
   * absent, an integer, or a finite number that is not an integer. `Fraction(f)`
   * stands for some value strictly between `f` and `f + 1`; every check the
   * register applies to such a value depends only on `f`.
   */
  datatype Num = Missing | Whole(n: int) | Fraction(floor: int)

  /** JavaScript's `!x`: true for an absent field and for zero. */
  predicate Falsy(x: Num)
  {
    x.Missing? || x == Whole(0)
  }

  /** JavaScript's `x < 0` (an absent field compares as false). */
  predicate Negative(x: Num)
  {
    match x
    case Missing => false
    case Whole(n) => n < 0
    case Fraction(f) => f < 0
  }

  /** The denominations the register recognises, largest first. */
  const LegalTender: seq<int> := [100000, 50000, 20000, 10000, 5000, 1000, 500, 200, 100, 50]

  /** The error text listing the legal tender, as the JavaScript template renders the array. */
  const TenderMessage: string :=
    "Denomination must be one of this: 100000,50000,20000,10000,5000,1000,500,200,100,50"
}
