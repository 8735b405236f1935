/** Error translation between the two sides (src/pygpgme-error.c): a native error
  * becomes None or a GpgmeError carrying (source, code, strerror), and a pending
  * Python exception becomes a native error value. */
module Errors {
  import opened Base
  import opened Codecs
  import opened GpgError
  import opened Host

  /** The message of an error: strerror_r's text decoded as UTF-8 with
    * replacement, or "Unknown" when the lookup fails. */
  function StrError(lib: Gpgme, e: ErrorT): seq<CodePoint>
  {
    match lib.strerror(e)
    case Some(msg) => Utf8Decode(msg)
    case None => Text("Unknown")
  }

  /** The GpgmeError instance built for a non-zero error: constructed with
    * (source, code, strerror) and carrying them as attributes too. */
  function ErrorException(lib: Gpgme, e: ErrorT): Exception
  {
    var source := IntV(ErrSource(e));
    var code := IntV(ErrCode(e));
    var msg := StrV(StrError(lib, e));
    Exception(GpgmeErrorClass, Some(TupleV([source, code, msg])),
              map["source" := source, "code" := code, "strerror" := msg])
  }

  /** pygpgme_error_object: None for NO_ERROR, otherwise the exception object
    * (not raised). */
  function ErrorObject(lib: Gpgme, e: ErrorT): (v: Value)
    ensures v == NoneV <==> e == NO_ERROR
    ensures e != NO_ERROR ==> v.ExcV? && v.exc.cls == GpgmeErrorClass
    ensures e != NO_ERROR ==>
      TupleItem(v.exc.args, 0) == Some(IntV(ErrSource(e))) && "source" in v.exc.attrs && v.exc.attrs["source"] == IntV(ErrSource(e))
    ensures e != NO_ERROR ==>
      TupleItem(v.exc.args, 1) == Some(IntV(ErrCode(e))) && "code" in v.exc.attrs && v.exc.attrs["code"] == IntV(ErrCode(e))
    ensures e != NO_ERROR ==> v.exc.args.Some? && v.exc.args.value.TupleV? && |v.exc.args.value.items| == 3
    ensures e != NO_ERROR && lib.strerror(e).Some? ==>
      TupleItem(v.exc.args, 2) == Some(StrV(Utf8Decode(lib.strerror(e).value))) &&
      "strerror" in v.exc.attrs && v.exc.attrs["strerror"] == StrV(Utf8Decode(lib.strerror(e).value))
    ensures e != NO_ERROR && lib.strerror(e).None? ==>
      TupleItem(v.exc.args, 2) == Some(StrV(Text("Unknown"))) && "strerror" in v.exc.attrs && v.exc.attrs["strerror"] == StrV(Text("Unknown"))
  {
    if e == NO_ERROR then NoneV else ExcV(ErrorException(lib, e))
  }

  /** The native error check_pyerror derives from a pending exception. Absent
    * anything better it is gpgme_error(GPG_ERR_GENERAL). */
  function PendingToError(lib: Gpgme, pending: Option<Exception>): ErrorT
  {
    match pending
    case None => NO_ERROR
    case Some(exc) =>
      var general := GpgmeErrorOf(GPG_ERR_GENERAL);
      match TupleItem(exc.args, 0)
      case None => general
      case Some(source) =>
        if exc.cls == GpgmeErrorClass then
          match TupleItem(exc.args, 1)
          case None => general
          case Some(code) =>
            if IsPyInt(source) && IsPyInt(code)
            then ErrMake(AsLong(PyIntValue(source)), AsLong(PyIntValue(code)))
            else general
        else if exc.cls == OSErrorClass then
          if IsPyInt(source) then lib.codeFromErrno(ToCInt(AsLong(PyIntValue(source)))) else general
        else general
  }

  /** pygpgme_check_error: 0 for NO_ERROR; otherwise -1 with the GpgmeError for
    * the error pending (replacing whatever was pending before). */
  method CheckError(py: Interp, lib: Gpgme, err: ErrorT) returns (r: int)
    modifies py
    ensures r == 0 <==> err == NO_ERROR
    ensures r == 0 || r == -1
    ensures py.pending == (if err == NO_ERROR then old(py.pending) else Some(ErrorException(lib, err)))
    ensures py.errno == old(py.errno) && py.unraisable == old(py.unraisable)
  {
    if err == NO_ERROR {
      return 0;
    }
    var exc := ErrorObject(lib, err);
    py.pending := Some(exc.exc);
    return -1;
  }

  /** pygpgme_check_pyerror: translate the pending exception, then clear it. */
  method CheckPyError(py: Interp, lib: Gpgme) returns (err: ErrorT)
    modifies py
    ensures err == PendingToError(lib, old(py.pending))
    ensures py.pending == None
    ensures py.errno == old(py.errno) && py.unraisable == old(py.unraisable)
  {
    if py.pending.None? {
      return NO_ERROR;
    }
    var exc := py.pending.value;
    err := GpgmeErrorOf(GPG_ERR_GENERAL);
    var source := TupleItem(exc.args, 0);
    if source.Some? {
      if exc.cls == GpgmeErrorClass {
        var code := TupleItem(exc.args, 1);
        if code.Some? && IsPyInt(source.value) && IsPyInt(code.value) {
          err := ErrMake(AsLong(PyIntValue(source.value)), AsLong(PyIntValue(code.value)));
        }
      } else if exc.cls == OSErrorClass {
        if IsPyInt(source.value) {
          err := lib.codeFromErrno(ToCInt(AsLong(PyIntValue(source.value))));
        }
      }
    }
    py.pending := None;
  }

  /** pygpgme_no_constructor: the tp_init of every wrapper type; always fails. */
  method NoConstructor(py: Interp, typeName: string) returns (r: int)
    modifies py
    ensures r == -1
    ensures py.pending == Some(RaisedWith(NotImplementedErrorClass, "can not directly create instances of " + typeName))
    ensures py.errno == old(py.errno) && py.unraisable == old(py.unraisable)
  {
    py.pending := Some(RaisedWith(NotImplementedErrorClass, "can not directly create instances of " + typeName));
    return -1;
  }

  /** Round trip: raising the exception error_object builds and translating it
    * back gives gpgme_err_make of the same source and code, hence the same
    * source and code whenever the code is not zero, and exactly the same value
    * precisely when the value is well formed. */
  lemma {:induction false} RoundTrip(lib: Gpgme, e: ErrorT)
    requires e != NO_ERROR
    ensures PendingToError(lib, Some(ErrorObject(lib, e).exc)) == ErrMake(ErrSource(e), ErrCode(e))
    ensures ErrCode(e) != 0 ==>
      var back := PendingToError(lib, Some(ErrorObject(lib, e).exc));
      ErrSource(back) == ErrSource(e) && ErrCode(back) == ErrCode(e)
    ensures PendingToError(lib, Some(ErrorObject(lib, e).exc)) == e <==> WellFormed(e)
  {
    var exc := ErrorObject(lib, e).exc;
    assert TupleItem(exc.args, 0) == Some(IntV(ErrSource(e)));
    assert TupleItem(exc.args, 1) == Some(IntV(ErrCode(e)));
    assert AsLong(ErrSource(e)) == ErrSource(e) && AsLong(ErrCode(e)) == ErrCode(e);
    MakeInvertsSourceAndCode(e);
  }

  /** A GpgmeError whose first two args are ints translates to gpgme_err_make of
    * them. */
  lemma GpgmeErrorTranslation(lib: Gpgme, source: int, code: int, rest: seq<Value>, attrs: map<string, Value>)
    requires FitsLong(source) && FitsLong(code)
    ensures PendingToError(lib, Some(Exception(GpgmeErrorClass, Some(TupleV([IntV(source), IntV(code)] + rest)), attrs)))
            == ErrMake(source, code)
  {
  }

  /** The cancellation protocol: a callback that raises GpgmeError(source,
    * ERR_CANCELED, ...) hands the engine a non-zero error whose code is
    * GPG_ERR_CANCELED, so the operation is aborted. */
  lemma {:induction false} CancelPropagates(lib: Gpgme, source: int, rest: seq<Value>, attrs: map<string, Value>)
    requires FitsLong(source)
    ensures var err := PendingToError(lib, Some(Exception(GpgmeErrorClass,
                          Some(TupleV([IntV(source), IntV(GPG_ERR_CANCELED)] + rest)), attrs)));
            err != NO_ERROR && ErrCode(err) == GPG_ERR_CANCELED && ErrSource(err) == source % SOURCE_DIM
  {
    GpgmeErrorTranslation(lib, source, GPG_ERR_CANCELED, rest, attrs);
  }

  /** An OSError (IOError) whose first arg is an int maps through
    * code_from_errno of it, as a C int. */
  lemma OSErrorTranslation(lib: Gpgme, errno: int, rest: seq<Value>, attrs: map<string, Value>)
    requires FitsLong(errno)
    ensures PendingToError(lib, Some(Exception(OSErrorClass, Some(TupleV([IntV(errno)] + rest)), attrs)))
            == lib.codeFromErrno(ToCInt(errno))
  {
  }

  /** Everything else gives gpgme_error(GPG_ERR_GENERAL): no `args`, an empty
    * args tuple, a GpgmeError without a second arg or with a non-int field, an
    * OSError with a non-int first arg, or an exception of a class outside the
    * GpgmeError and OSError hierarchies. */
  lemma GeneralFallback(lib: Gpgme, exc: Exception)
    requires
      || TupleItem(exc.args, 0).None?
      || (exc.cls == GpgmeErrorClass &&
          (TupleItem(exc.args, 1).None? || !IsPyInt(TupleItem(exc.args, 0).value) || !IsPyInt(TupleItem(exc.args, 1).value)))
      || (exc.cls == OSErrorClass && !IsPyInt(TupleItem(exc.args, 0).value))
      || (exc.cls != GpgmeErrorClass && exc.cls != OSErrorClass)
    ensures PendingToError(lib, Some(exc)) == GpgmeErrorOf(GPG_ERR_GENERAL)
    ensures ErrCode(PendingToError(lib, Some(exc))) == GPG_ERR_GENERAL
  {
  }

  /** The translation reads args[0] and args[1] only: a GpgmeError whose `code`
    * attribute says ERR_CANCELED but whose args are empty is not a
    * cancellation, it is GPG_ERR_GENERAL. */
  lemma CodeAttributeIsNotRead(lib: Gpgme, attrs: map<string, Value>)
    requires "code" in attrs && attrs["code"] == IntV(GPG_ERR_CANCELED)
    ensures ErrCode(PendingToError(lib, Some(Exception(GpgmeErrorClass, Some(TupleV([])), attrs)))) == GPG_ERR_GENERAL
  {
  }

  /** A raised exception can still read as success: a GpgmeError with a zero
    * code, or an OSError with errno 0 (which code_from_errno maps to 0), gives
    * NO_ERROR, so the engine carries on as if the callback had returned. */
  lemma ZeroCodeReadsAsSuccess(lib: Gpgme, source: int, rest: seq<Value>)
    requires FitsLong(source)
    requires lib.codeFromErrno(0) == 0
    ensures PendingToError(lib, Some(Exception(GpgmeErrorClass, Some(TupleV([IntV(source), IntV(0)] + rest)), map[]))) == NO_ERROR
    ensures PendingToError(lib, Some(Exception(OSErrorClass, Some(TupleV([IntV(0)] + rest)), map[]))) == NO_ERROR
  {
  }
}
