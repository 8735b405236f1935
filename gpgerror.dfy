/** The native error value gpgme_error_t as libgpg-error lays it out: an unsigned
  * 32-bit word with the error source in bits 24..30 and the error code in bits
  * 0..15, plus the two native lookups the binding calls (strerror_r and
  * code_from_errno), which it cannot see into. */
module GpgError {
  import opened Base

  /** gpgme_error_t: an unsigned 32-bit value. */
  type ErrorT = x: int | 0 <= x < 0x1_0000_0000

  /** gpgme_err_code_t values: the 16-bit code field. */
  type ErrCodeT = x: int | 0 <= x < 0x1_0000

  const NO_ERROR: ErrorT := 0

  const SOURCE_SHIFT: int := 0x100_0000   // 2^24
  const SOURCE_DIM: int := 0x80           // mask 127
  const CODE_DIM: int := 0x1_0000         // mask 0xffff

  const GPG_ERR_SOURCE_GPGME: int := 7
  /** GPGME_ERR_SOURCE_DEFAULT, the source gpgme_error() stamps on a code. */
  const GPG_ERR_SOURCE_USER_1: int := 32

  const GPG_ERR_GENERAL: int := 1
  const GPG_ERR_CANCELED: int := 99
  const GPG_ERR_EOF: int := 16383

  /** gpgme_err_source: bits 24..30. */
  function ErrSource(e: ErrorT): (s: int)
    ensures 0 <= s < SOURCE_DIM
  {
    (e / SOURCE_SHIFT) % SOURCE_DIM
  }

  /** gpgme_err_code: bits 0..15. */
  function ErrCode(e: ErrorT): (c: ErrCodeT)
  {
    e % CODE_DIM
  }

  /** gpgme_err_make(source, code) for a C long source and code: both are
    * converted to 32-bit enums and masked; a zero code gives no error at all. */
  function ErrMake(source: int, code: int): (e: ErrorT)
    ensures e == NO_ERROR <==> code % 0x1_0000_0000 == 0 || (code % CODE_DIM == 0 && source % SOURCE_DIM == 0)
    ensures code % 0x1_0000_0000 != 0 ==> ErrCode(e) == code % CODE_DIM && ErrSource(e) == source % SOURCE_DIM
  {
    if code % 0x1_0000_0000 == 0 then NO_ERROR
    else (source % SOURCE_DIM) * SOURCE_SHIFT + code % CODE_DIM
  }

  /** gpgme_error(code): the code stamped with the library's default source. */
  function GpgmeErrorOf(code: ErrCodeT): ErrorT
  {
    ErrMake(GPG_ERR_SOURCE_USER_1, code)
  }

  /** No bit outside the source and code fields is set. */
  predicate FieldsOnly(e: ErrorT)
  {
    e == ErrSource(e) * SOURCE_SHIFT + ErrCode(e)
  }

  /** An error value that source and code alone describe and that gpgme_err_make
    * can rebuild from them: no stray bits, and a zero code only as NO_ERROR. */
  predicate WellFormed(e: ErrorT)
  {
    FieldsOnly(e) && (e == NO_ERROR || ErrCode(e) != 0)
  }

  /** gpgme_err_make never sets a bit outside the two fields (but a code that is a
    * non-zero multiple of 2^16 leaves a bare source with a zero code). */
  lemma MakeFieldsOnly(source: int, code: int)
    ensures FieldsOnly(ErrMake(source, code))
    ensures code % CODE_DIM != 0 ==> WellFormed(ErrMake(source, code))
  {
  }

  /** A non-zero error is rebuilt exactly from its own source and code precisely
    * when it is well formed. */
  lemma {:induction false} MakeInvertsSourceAndCode(e: ErrorT)
    requires e != NO_ERROR
    ensures ErrMake(ErrSource(e), ErrCode(e)) == e <==> WellFormed(e)
  {
    if WellFormed(e) {
      assert ErrCode(e) % 0x1_0000_0000 == ErrCode(e);
    } else if ErrCode(e) != 0 {
      var m := ErrMake(ErrSource(e), ErrCode(e));
      assert m == ErrSource(e) * SOURCE_SHIFT + ErrCode(e);
    }
  }

  /** The native functions the binding calls but does not define: strerror_r
    * (None when it reports failure, including a truncated message) and
    * code_from_errno. */
  datatype Gpgme = Gpgme(strerror: ErrorT -> Option<seq<byte>>, codeFromErrno: int -> ErrCodeT)
}
