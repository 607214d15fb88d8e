/** Data types of the wallet: money, payment statuses, the three ledger
    records and the error values the service returns. */
module Types {

  /** Amount in minimum currency units. The Go type is a signed 64-bit
      integer; the model computes exactly (see IsInt64 for the range). */
  type Money = int

  const MinInt64: int := -0x8000_0000_0000_0000
  const MaxInt64: int := 0x7fff_ffff_ffff_ffff

  predicate IsInt64(x: int) {
    MinInt64 <= x <= MaxInt64
  }

  /** A payment status is a string type in Go: three predefined values and
      whatever text an imported dump holds. */
  datatype Status = Ok | Fail | InProgress | Other(text: string)

  function StatusText(s: Status): string {
    match s
    case Ok => "OK"
    case Fail => "FAIL"
    case InProgress => "INPROGRESS"
    case Other(t) => t
  }

  /** Reading a status back from its text: the predefined texts map to the
      predefined statuses, any other text is kept as it is. */
  function StatusOf(text: string): (s: Status)
    ensures StatusText(s) == text
    ensures s.Other? <==> text !in {"OK", "FAIL", "INPROGRESS"}
  {
    if text == "OK" then Ok
    else if text == "FAIL" then Fail
    else if text == "INPROGRESS" then InProgress
    else Other(text)
  }

  /** A status whose text cannot be mistaken for a predefined one. */
  predicate Canonical(s: Status) {
    s.Other? ==> s.text !in {"OK", "FAIL", "INPROGRESS"}
  }

  /** The text of a canonical status determines it: the three predefined
      texts are distinct and none of them is the text of an Other. */
  lemma StatusTextInjective(s: Status, t: Status)
    requires Canonical(s) && Canonical(t)
    ensures StatusText(s) == StatusText(t) ==> s == t
    ensures StatusOf(StatusText(s)) == s
  {
  }

  datatype Payment = Payment(id: string, accountId: int, amount: Money, category: string, status: Status)

  datatype Account = Account(id: int, phone: string, balance: Money)

  datatype Favorite = Favorite(id: string, accountId: int, name: string, amount: Money, category: string)

  /** Progress pairs a part number with a partial sum; nothing in the
      modelled code produces one. */
  datatype Progress = Progress(part: int, result: Money)

  datatype Error =
    | PhoneRegistered
    | AmountMustBePositive
    | AccountNotFound
    | NotEnoughBalance
    | PaymentNotFound
    | PaymentsNotFound
    | FavoriteNotFound
    | InvalidSyntax      // strconv.Atoi: not a decimal integer
    | ValueOutOfRange    // strconv.Atoi: outside the 64-bit range
    | IndexOutOfRange    // a dump line with fewer fields than the code indexes

  datatype Option<+T> = None | Some(value: T)

  /** The value-or-error pair of a Go `(T, error)` return. */
  datatype Result<+T> = Success(value: T) | Failure(error: Error) {
    predicate IsFailure() {
      Failure?
    }

    function PropagateFailure<U>(): Result<U>
      requires Failure?
    {
      Failure(error)
    }

    function Extract(): T
      requires Success?
    {
      value
    }
  }
}
