/** The C int / int32_t the repository computes with.  Signed overflow is undefined
    in C, so an operation is modelled only where its result is representable. */
module Int32 {
  const INT_MAX := 0x7fff_ffff
  const INT_MIN := -0x8000_0000

  newtype int32 = x: int | INT_MIN <= x <= INT_MAX

  predicate Fits(x: int) {
    INT_MIN <= x <= INT_MAX
  }

  const ENOMEM: int32 := 12
}
