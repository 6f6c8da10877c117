/** Shared vocabulary: optional values, error-carrying results, the injected
    clock, and the few string helpers the JavaScript source takes from its
    standard library (`replace(/\D/g, '')`, `startsWith`). */
module Common {
  import Seqs

  /** `null`/`undefined` versus a present value. */
  datatype Option<+T> = None | Some(value: T)

  /** A value or the error a JavaScript `throw` would carry. */
  datatype Result<+T, +E> = Ok(value: T) | Err(error: E)

  /** Completion of a step that returns nothing but may throw. */
  datatype Outcome<+E> = Pass | Fail(error: E)

  /** Instants, as milliseconds since the epoch. Clocks are inputs of the model. */
  type Timestamp = nat

  /** JavaScript truthiness of an optional string: missing and "" are falsy. */
  predicate Truthy(s: Option<string>) {
    s.Some? && s.value != ""
  }

  predicate IsDigit(c: char) {
    '0' <= c <= '9'
  }

  predicate AllDigits(s: string) {
    forall i :: 0 <= i < |s| ==> IsDigit(s[i])
  }

  /** `s.replace(/\D/g, '')`: the decimal digits of `s`, in their order. */
  function Digits(s: string): (d: string)
    ensures AllDigits(d)
    ensures |d| <= |s|
    ensures AllDigits(s) ==> d == s
  {
    if s == [] then []
    else if IsDigit(s[0]) then [s[0]] + Digits(s[1..])
    else Digits(s[1..])
  }

  /** The digits are exactly the input's digit characters, in their order:
      `Digits` is the filter that keeps digits. */
  lemma {:induction false} DigitsKeepsEveryDigit(s: string)
    ensures Digits(s) == Seqs.Filter(s, IsDigit)
  {
    if s != [] {
      DigitsKeepsEveryDigit(s[1..]);
    }
  }

  /** Stripping non-digits distributes over concatenation. */
  lemma {:induction false} DigitsAppend(a: string, b: string)
    ensures Digits(a + b) == Digits(a) + Digits(b)
  {
    if a == [] {
      assert a + b == b;
    } else {
      assert (a + b)[0] == a[0];
      assert (a + b)[1..] == a[1..] + b;
      DigitsAppend(a[1..], b);
    }
  }
}
