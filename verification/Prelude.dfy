/** Result types and division bounds shared by the components of the model. */
module Prelude {

  /** A value that may be absent: the source's `T | null` and `T | undefined`. */
  datatype Option<+T> = None | Some(value: T)

  /** A call that returns or throws: the source's exceptions become `Err` values. */
  datatype Result<+T, +E> = Ok(value: T) | Err(error: E)

  lemma OneMore(n: nat, b: nat)
    ensures (n + 1) * b == n * b + b
  {
  }

  lemma Quotient(n: nat, b: nat, total: nat)
    requires b >= 1 && n * b <= total
    ensures n <= total / b
  {
    var q := total / b;
    assert total < q * b + b;
    if n > q { Product(q + 1, n, b); }
  }

  lemma {:induction false} Product(m: nat, n: nat, b: nat)
    requires m <= n
    ensures m * b <= n * b
  {
  }
}
