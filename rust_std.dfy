/** The few pieces of the Rust standard library that the binding layer leans
    on: fixed-width integers, `Option`, a `Result` that may also end in a
    panic, and `CString::new`, which refuses a string with an interior NUL. */
module RustStd {

  newtype i32 = x: int | -0x8000_0000 <= x < 0x8000_0000
  newtype u32 = x: int | 0 <= x < 0x1_0000_0000
  newtype u64 = x: int | 0 <= x < 0x1_0000_0000_0000_0000

  const U64_MAX: int := 0xFFFF_FFFF_FFFF_FFFF

  datatype Option<+T> = None | Some(value: T)

  /** How a Rust call ends: it returns `Ok`, it returns `Err`, or it panics
      (an `expect`, an `unwrap` or an out-of-range slice). A panic carries a
      paraphrase of its message: the text an `expect` names, or a fixed text
      for an `unwrap` or a slice, without the values Rust formats into it. */
  datatype Outcome<+T, +E> = Ok(value: T) | Err(error: E) | Panic(message: string)

  /** The `?` operator on a call that did not return `Ok`: its error is
      returned, its panic goes on unwinding. */
  function Propagate<T, U, E>(o: Outcome<T, E>): (r: Outcome<U, E>)
    requires !o.Ok?
    ensures r.Err? <==> o.Err?
    ensures r.Panic? <==> o.Panic?
    ensures o.Err? ==> r.error == o.error
    ensures o.Panic? ==> r.message == o.message
  {
    if o.Err? then Err(o.error) else Panic(o.message)
  }

  /** The message of `Result::unwrap` on an `Err`. */
  const UNWRAP_ERR: string := "called `Result::unwrap()` on an `Err` value"

  const NUL: char := '\0'

  /** `std::ffi::NulError`: where the first NUL is, and the rejected bytes. */
  datatype NulError = NulError(position: nat, bytes: string)

  /** Index of the first NUL in `s`. */
  function NulPosition(s: string): (i: nat)
    requires NUL in s
    ensures i < |s| && s[i] == NUL
    ensures NUL !in s[..i]
  {
    if s[0] == NUL then 0
    else
      assert NUL in s[1..] by { var k :| 0 <= k < |s| && s[k] == NUL; assert s[1..][k - 1] == NUL; }
      var j := NulPosition(s[1..]);
      assert s[..j + 1] == [s[0]] + s[1..][..j];
      j + 1
  }

  /** `CString::new`: a C string holds no interior NUL, so one is refused
      with the position of the first NUL. */
  function CStringNew(s: string): (r: Outcome<string, NulError>)
    ensures r.Ok? <==> NUL !in s
    ensures r.Ok? ==> r.value == s
    ensures r.Err? ==> r.error.bytes == s && r.error.position < |s|
    ensures r.Err? ==> s[r.error.position] == NUL && NUL !in s[..r.error.position]
    ensures !r.Panic?
  {
    if NUL in s then Err(NulError(NulPosition(s), s)) else Ok(s)
  }
}
