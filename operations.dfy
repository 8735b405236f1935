/** What the Context operations return or raise once the engine has run
  * (src/pygpgme-context.c): the result, or the GpgmeError for the engine's
  * error annotated with the details the engine reported. Each operation is a
  * function of the engine's error, of the native result it exposes afterwards
  * and of what the snapshot builders produced for that result (None being the
  * NULL a builder returns when an allocation fails, with MemoryError pending). */
module Operations {
  import opened Base
  import opened Codecs
  import opened GpgError
  import opened Native
  import opened Host
  import Errors
  import Keys
  import GenkeyResults

  /** The end of an operation: a return value, a raised exception, or a crash
    * of the interpreter (a NULL pointer dereferenced). */
  datatype OpOutcome = Ok(value: Value) | Err(exc: Exception) | Crash

  /** One invalid key as the (fpr, error) pair: fpr decoded as ASCII with
    * replacement or None, the reason as error_object makes it. */
  function InvalidKeyEntry(lib: Gpgme, k: InvalidKey): (v: Value)
    ensures v.TupleV? && |v.items| == 2
    ensures (v.items[0] == NoneV <==> k.fpr.None?) && v.items[0] == Keys.NullableAscii(k.fpr)
    ensures k.fpr.Some? ==> v.items[0].StrV? && |v.items[0].text| == |k.fpr.value|
    ensures (v.items[1] == NoneV <==> k.reason == NO_ERROR) && v.items[1] == Errors.ErrorObject(lib, k.reason)
    ensures k.reason != NO_ERROR ==> v.items[1] == ExcV(Errors.ErrorException(lib, k.reason))
  {
    TupleV([Keys.NullableAscii(k.fpr), Errors.ErrorObject(lib, k.reason)])
  }

  /** The invalid keys in list order. */
  function InvalidKeyList(lib: Gpgme, keys: seq<InvalidKey>): (vs: seq<Value>)
    ensures |vs| == |keys|
    ensures forall i :: 0 <= i < |keys| ==> vs[i] == InvalidKeyEntry(lib, keys[i])
  {
    seq(|keys|, i requires 0 <= i < |keys| => InvalidKeyEntry(lib, keys[i]))
  }

  /** PyObject_SetAttrString on the exception instance. */
  function WithAttr(exc: Exception, name: string, v: Value): (r: Exception)
    ensures r.cls == exc.cls && r.args == exc.args
    ensures r.attrs.Keys == exc.attrs.Keys + {name}
    ensures r.attrs[name] == v
    ensures forall other :: other in exc.attrs && other != name ==> r.attrs[other] == exc.attrs[other]
  {
    Exception(exc.cls, exc.args, exc.attrs[name := v])
  }

  /** Attaching attributes never changes the error an exception stands for when
    * it is handed back to the engine. */
  lemma AttrsDoNotChangeError(lib: Gpgme, exc: Exception, name: string, v: Value)
    ensures Errors.PendingToError(lib, Some(WithAttr(exc, name, v))) == Errors.PendingToError(lib, Some(exc))
  {
  }

  /** decode_encrypt_result: a GpgmeError gets `invalid_recipients` when the
    * engine has an encrypt result; anything else passes through unchanged. */
  function DecodeEncryptResult(lib: Gpgme, exc: Exception, res: Option<EncryptResult>): (r: Exception)
    ensures r.cls == exc.cls && r.args == exc.args
    ensures exc.cls != GpgmeErrorClass || res.None? ==> r == exc
    ensures exc.cls == GpgmeErrorClass && res.Some? ==>
      r.attrs.Keys == exc.attrs.Keys + {"invalid_recipients"} &&
      r.attrs["invalid_recipients"] == ListV(InvalidKeyList(lib, res.value.invalidRecipients))
  {
    if exc.cls != GpgmeErrorClass || res.None? then exc
    else WithAttr(exc, "invalid_recipients", ListV(InvalidKeyList(lib, res.value.invalidRecipients)))
  }

  /** decode_decrypt_result: a GpgmeError gets `unsupported_algorithm` (UTF-8
    * with replacement, or None) and `wrong_key_usage` when the engine has a
    * decrypt result. */
  function DecodeDecryptResult(lib: Gpgme, exc: Exception, res: Option<DecryptResult>): (r: Exception)
    ensures r.cls == exc.cls && r.args == exc.args
    ensures exc.cls != GpgmeErrorClass || res.None? ==> r == exc
    ensures exc.cls == GpgmeErrorClass && res.Some? ==>
      r.attrs.Keys == exc.attrs.Keys + {"unsupported_algorithm", "wrong_key_usage"} &&
      (r.attrs["unsupported_algorithm"] == NoneV <==> res.value.unsupportedAlgorithm.None?) &&
      r.attrs["unsupported_algorithm"] == Keys.NullableUtf8(res.value.unsupportedAlgorithm) &&
      r.attrs["wrong_key_usage"] == BoolV(res.value.wrongKeyUsage)
  {
    if exc.cls != GpgmeErrorClass || res.None? then exc
    else
      var withAlgo := WithAttr(exc, "unsupported_algorithm", Keys.NullableUtf8(res.value.unsupportedAlgorithm));
      WithAttr(withAlgo, "wrong_key_usage", BoolV(res.value.wrongKeyUsage))
  }

  /** Setting `signatures` to the list a builder produced. When the builder
    * failed, the list is NULL and the binding's Py_DECREF(list) dereferences
    * it. */
  function AttachSignaturesAsWritten(exc: Exception, list: Option<seq<Value>>): (o: OpOutcome)
    ensures list.None? <==> o == Crash
    ensures list.Some? ==> o == Err(WithAttr(exc, "signatures", ListV(list.value)))
  {
    if list.None? then Crash else Err(WithAttr(exc, "signatures", ListV(list.value)))
  }

  /** The same with the NULL list skipped: the exception is raised without
    * `signatures`. */
  function AttachSignatures(exc: Exception, list: Option<seq<Value>>): (o: OpOutcome)
    ensures o.Err? && o.exc.cls == exc.cls && o.exc.args == exc.args
    ensures list.None? ==> o.exc == exc
    ensures list.Some? ==> "signatures" in o.exc.attrs && o.exc.attrs["signatures"] == ListV(list.value)
  {
    if list.None? then Err(exc) else Err(WithAttr(exc, "signatures", ListV(list.value)))
  }

  /** The two agree whenever the list could be built; they differ only where
    * the binding as written crashes. */
  lemma AttachSignaturesOnlyFixesCrash(exc: Exception, list: Option<seq<Value>>)
    ensures AttachSignaturesAsWritten(exc, list) != AttachSignatures(exc, list) <==> list.None?
  {
  }

  /** The result of a successful operation whose value is a signature list:
    * the list, an empty list when the engine has no result, and MemoryError
    * when the builder failed. */
  function SignatureListResult(hasResult: bool, list: Option<seq<Value>>): (o: OpOutcome)
    ensures !hasResult ==> o == Ok(ListV([]))
    ensures hasResult ==> (o.Ok? <==> list.Some?)
    ensures hasResult && list.Some? ==> o == Ok(ListV(list.value))
    ensures o.Err? ==> o.exc == NoMemory
  {
    if !hasResult then Ok(ListV([]))
    else if list.None? then Err(NoMemory)
    else Ok(ListV(list.value))
  }

  /** encrypt, once the engine has run. */
  function EncryptOutcome(lib: Gpgme, err: ErrorT, res: Option<EncryptResult>): (o: OpOutcome)
    ensures err == NO_ERROR <==> o == Ok(NoneV)
    ensures err != NO_ERROR ==> o == Err(DecodeEncryptResult(lib, Errors.ErrorException(lib, err), res))
    ensures err != NO_ERROR ==> o.exc.cls == GpgmeErrorClass && o.exc.args == Errors.ErrorException(lib, err).args
    ensures err != NO_ERROR && res.Some? ==>
      "invalid_recipients" in o.exc.attrs &&
      o.exc.attrs["invalid_recipients"] == ListV(InvalidKeyList(lib, res.value.invalidRecipients))
  {
    if err == NO_ERROR then Ok(NoneV)
    else Err(DecodeEncryptResult(lib, Errors.ErrorException(lib, err), res))
  }

  /** sign as written: on failure the exception carries `invalid_signers` and
    * `signatures` when the engine has a sign result; on success the value is
    * the NewSignature list. `list` is what newsiglist made of the result's
    * signatures. check_error always raises a GpgmeError, so the class test
    * before the annotation always passes. */
  function SignOutcomeAsWritten(lib: Gpgme, err: ErrorT, res: Option<SignResult>, list: Option<seq<Value>>): (o: OpOutcome)
    ensures o == Crash <==> err != NO_ERROR && res.Some? && list.None?
  {
    if err == NO_ERROR then SignatureListResult(res.Some?, list)
    else
      var exc := Errors.ErrorException(lib, err);
      if res.None? then Err(exc)
      else AttachSignaturesAsWritten(WithAttr(exc, "invalid_signers", ListV(InvalidKeyList(lib, res.value.invalidSigners))), list)
  }

  /** A failed signing whose NewSignature list cannot be allocated brings the
    * interpreter down. */
  lemma SignAsWrittenCrashes(lib: Gpgme, sig: NativeNewSignature)
    ensures SignOutcomeAsWritten(lib, GpgmeErrorOf(GPG_ERR_GENERAL), Some(SignResult([], [sig])), None) == Crash
  {
    assert GpgmeErrorOf(GPG_ERR_GENERAL) != NO_ERROR;
  }

  /** sign with the NULL list skipped. */
  function SignOutcome(lib: Gpgme, err: ErrorT, res: Option<SignResult>, list: Option<seq<Value>>): (o: OpOutcome)
    ensures !o.Crash?
    ensures err == NO_ERROR ==> o == SignatureListResult(res.Some?, list)
    ensures err != NO_ERROR ==> o.Err? && o.exc.cls == GpgmeErrorClass && o.exc.args == Errors.ErrorException(lib, err).args
    ensures err != NO_ERROR && res.None? ==> o == Err(Errors.ErrorException(lib, err))
    ensures err != NO_ERROR && res.Some? ==>
      "invalid_signers" in o.exc.attrs &&
      o.exc.attrs["invalid_signers"] == ListV(InvalidKeyList(lib, res.value.invalidSigners))
    ensures err != NO_ERROR && res.Some? && list.Some? ==>
      "signatures" in o.exc.attrs && o.exc.attrs["signatures"] == ListV(list.value)
  {
    if err == NO_ERROR then SignatureListResult(res.Some?, list)
    else
      var exc := Errors.ErrorException(lib, err);
      if res.None? then Err(exc)
      else AttachSignatures(WithAttr(exc, "invalid_signers", ListV(InvalidKeyList(lib, res.value.invalidSigners))), list)
  }

  /** The correction changes sign's outcome exactly where it crashed. */
  lemma {:induction false} SignCorrectionOnlyFixesCrash(lib: Gpgme, err: ErrorT, res: Option<SignResult>, list: Option<seq<Value>>)
    ensures SignOutcome(lib, err, res, list) != SignOutcomeAsWritten(lib, err, res, list) <==>
            SignOutcomeAsWritten(lib, err, res, list) == Crash
  {
    if err != NO_ERROR && res.Some? {
      var exc := WithAttr(Errors.ErrorException(lib, err), "invalid_signers", ListV(InvalidKeyList(lib, res.value.invalidSigners)));
      AttachSignaturesOnlyFixesCrash(exc, list);
    }
  }

  /** encrypt_sign as written: the encrypt annotation first, then, when the
    * engine has a sign result, `invalid_signers` and the NewSignature list,
    * which crashes on a NULL list as sign does. */
  function EncryptSignOutcomeAsWritten(lib: Gpgme, err: ErrorT, encrypted: Option<EncryptResult>, signed: Option<SignResult>,
                                       list: Option<seq<Value>>): (o: OpOutcome)
    ensures o == Crash <==> err != NO_ERROR && signed.Some? && list.None?
    ensures err == NO_ERROR ==> o == SignatureListResult(signed.Some?, list)
  {
    if err == NO_ERROR then SignatureListResult(signed.Some?, list)
    else
      var exc := DecodeEncryptResult(lib, Errors.ErrorException(lib, err), encrypted);
      if signed.None? then Err(exc)
      else AttachSignaturesAsWritten(WithAttr(exc, "invalid_signers", ListV(InvalidKeyList(lib, signed.value.invalidSigners))), list)
  }

  /** encrypt_sign with the NULL list skipped: the encrypt annotation first,
    * then the sign annotation when the engine has a sign result. */
  function EncryptSignOutcome(lib: Gpgme, err: ErrorT, encrypted: Option<EncryptResult>, signed: Option<SignResult>,
                              list: Option<seq<Value>>): (o: OpOutcome)
    ensures !o.Crash?
    ensures err == NO_ERROR ==> o == SignatureListResult(signed.Some?, list)
    ensures err != NO_ERROR ==> o.Err? && o.exc.args == Errors.ErrorException(lib, err).args
    ensures err != NO_ERROR ==>
      ("invalid_recipients" in o.exc.attrs <==> encrypted.Some?) &&
      ("invalid_signers" in o.exc.attrs <==> signed.Some?)
    ensures err != NO_ERROR && encrypted.Some? ==>
      o.exc.attrs["invalid_recipients"] == ListV(InvalidKeyList(lib, encrypted.value.invalidRecipients))
    ensures err != NO_ERROR && signed.Some? ==>
      o.exc.attrs["invalid_signers"] == ListV(InvalidKeyList(lib, signed.value.invalidSigners))
    ensures err != NO_ERROR && signed.Some? && list.Some? ==>
      "signatures" in o.exc.attrs && o.exc.attrs["signatures"] == ListV(list.value)
  {
    if err == NO_ERROR then SignatureListResult(signed.Some?, list)
    else
      var exc := DecodeEncryptResult(lib, Errors.ErrorException(lib, err), encrypted);
      if signed.None? then Err(exc)
      else AttachSignatures(WithAttr(exc, "invalid_signers", ListV(InvalidKeyList(lib, signed.value.invalidSigners))), list)
  }

  /** The correction changes encrypt_sign's outcome exactly where it crashed. */
  lemma {:induction false} EncryptSignCorrectionOnlyFixesCrash(lib: Gpgme, err: ErrorT, encrypted: Option<EncryptResult>,
                                                               signed: Option<SignResult>, list: Option<seq<Value>>)
    ensures EncryptSignOutcome(lib, err, encrypted, signed, list) != EncryptSignOutcomeAsWritten(lib, err, encrypted, signed, list) <==>
            EncryptSignOutcomeAsWritten(lib, err, encrypted, signed, list) == Crash
  {
    if err != NO_ERROR && signed.Some? {
      var exc := DecodeEncryptResult(lib, Errors.ErrorException(lib, err), encrypted);
      AttachSignaturesOnlyFixesCrash(WithAttr(exc, "invalid_signers", ListV(InvalidKeyList(lib, signed.value.invalidSigners))), list);
    }
  }

  /** decrypt, once the engine has run. */
  function DecryptOutcome(lib: Gpgme, err: ErrorT, res: Option<DecryptResult>): (o: OpOutcome)
    ensures err == NO_ERROR <==> o == Ok(NoneV)
    ensures err != NO_ERROR ==> o == Err(DecodeDecryptResult(lib, Errors.ErrorException(lib, err), res))
  {
    if err == NO_ERROR then Ok(NoneV)
    else Err(DecodeDecryptResult(lib, Errors.ErrorException(lib, err), res))
  }

  /** verify as written: on failure with a verify result the Signature list is
    * attached, and a NULL list is dereferenced. */
  function VerifyOutcomeAsWritten(lib: Gpgme, err: ErrorT, res: Option<VerifyResult>, list: Option<seq<Value>>): (o: OpOutcome)
    ensures o == Crash <==> err != NO_ERROR && res.Some? && list.None?
    ensures err == NO_ERROR ==> o == SignatureListResult(res.Some?, list)
  {
    if err == NO_ERROR then SignatureListResult(res.Some?, list)
    else
      var exc := Errors.ErrorException(lib, err);
      if res.None? then Err(exc) else AttachSignaturesAsWritten(exc, list)
  }

  /** verify with the NULL list skipped: on failure the exception carries
    * `signatures` when the engine has a verify result; `list` is what siglist
    * made of its signatures. */
  function VerifyOutcome(lib: Gpgme, err: ErrorT, res: Option<VerifyResult>, list: Option<seq<Value>>): (o: OpOutcome)
    ensures !o.Crash?
    ensures err == NO_ERROR ==> o == SignatureListResult(res.Some?, list)
    ensures err != NO_ERROR ==> o.Err? && o.exc.args == Errors.ErrorException(lib, err).args
    ensures err != NO_ERROR && res.Some? && list.Some? ==>
      "signatures" in o.exc.attrs && o.exc.attrs["signatures"] == ListV(list.value)
    ensures err != NO_ERROR && (res.None? || list.None?) ==> o == Err(Errors.ErrorException(lib, err))
  {
    if err == NO_ERROR then SignatureListResult(res.Some?, list)
    else
      var exc := Errors.ErrorException(lib, err);
      if res.None? then Err(exc) else AttachSignatures(exc, list)
  }

  /** The correction changes verify's outcome exactly where it crashed. */
  lemma {:induction false} VerifyCorrectionOnlyFixesCrash(lib: Gpgme, err: ErrorT, res: Option<VerifyResult>, list: Option<seq<Value>>)
    ensures VerifyOutcome(lib, err, res, list) != VerifyOutcomeAsWritten(lib, err, res, list) <==>
            VerifyOutcomeAsWritten(lib, err, res, list) == Crash
  {
    if err != NO_ERROR && res.Some? {
      AttachSignaturesOnlyFixesCrash(Errors.ErrorException(lib, err), list);
    }
  }

  /** decrypt_verify as written: a failure returns straight after the decrypt
    * annotation, so the signature annotation that follows it is never reached. */
  function DecryptVerifyOutcomeAsWritten(lib: Gpgme, err: ErrorT, decrypted: Option<DecryptResult>,
                                         verified: Option<VerifyResult>, list: Option<seq<Value>>): (o: OpOutcome)
    ensures err != NO_ERROR ==> o == DecryptOutcome(lib, err, decrypted)
    ensures err == NO_ERROR ==> o == SignatureListResult(verified.Some?, list)
  {
    if err != NO_ERROR then Err(DecodeDecryptResult(lib, Errors.ErrorException(lib, err), decrypted))
    else SignatureListResult(verified.Some?, list)
  }

  /** Whatever the engine verified, a failing decrypt_verify as written never
    * carries `signatures`. */
  lemma {:induction false} DecryptVerifyErrorsLackSignatures(lib: Gpgme, err: ErrorT, decrypted: Option<DecryptResult>,
                                                  verified: Option<VerifyResult>, list: Option<seq<Value>>)
    requires err != NO_ERROR
    ensures DecryptVerifyOutcomeAsWritten(lib, err, decrypted, verified, list).Err?
    ensures "signatures" !in DecryptVerifyOutcomeAsWritten(lib, err, decrypted, verified, list).exc.attrs
  {
    var exc := Errors.ErrorException(lib, err);
    assert exc.attrs.Keys == {"source", "code", "strerror"};
  }

  /** decrypt_verify with the signature annotation reached: the decrypt
    * annotation, then `signatures` when the engine has a verify result. */
  function DecryptVerifyOutcome(lib: Gpgme, err: ErrorT, decrypted: Option<DecryptResult>,
                                verified: Option<VerifyResult>, list: Option<seq<Value>>): (o: OpOutcome)
    ensures !o.Crash?
    ensures err == NO_ERROR ==> o == SignatureListResult(verified.Some?, list)
    ensures err != NO_ERROR ==> o.Err? && o.exc.args == Errors.ErrorException(lib, err).args
    ensures err != NO_ERROR && verified.Some? && list.Some? ==>
      "signatures" in o.exc.attrs && o.exc.attrs["signatures"] == ListV(list.value)
    ensures err != NO_ERROR && decrypted.Some? ==>
      "unsupported_algorithm" in o.exc.attrs && "wrong_key_usage" in o.exc.attrs &&
      o.exc.attrs["wrong_key_usage"] == BoolV(decrypted.value.wrongKeyUsage)
  {
    if err == NO_ERROR then SignatureListResult(verified.Some?, list)
    else
      var exc := DecodeDecryptResult(lib, Errors.ErrorException(lib, err), decrypted);
      if verified.None? then Err(exc) else AttachSignatures(exc, list)
  }

  /** The correction keeps every success and every decrypt annotation, and adds
    * `signatures` to exactly the failures that have a buildable list. */
  lemma {:induction false} DecryptVerifyCorrectionAddsSignatures(lib: Gpgme, err: ErrorT, decrypted: Option<DecryptResult>,
                                                      verified: Option<VerifyResult>, list: Option<seq<Value>>)
    ensures err == NO_ERROR ==>
      DecryptVerifyOutcome(lib, err, decrypted, verified, list) == DecryptVerifyOutcomeAsWritten(lib, err, decrypted, verified, list)
    ensures err != NO_ERROR ==>
      var fixed := DecryptVerifyOutcome(lib, err, decrypted, verified, list).exc;
      var written := DecryptVerifyOutcomeAsWritten(lib, err, decrypted, verified, list).exc;
      fixed.attrs.Keys == written.attrs.Keys + (if verified.Some? && list.Some? then {"signatures"} else {}) &&
      forall name :: name in written.attrs ==> fixed.attrs[name] == written.attrs[name]
  {
    if err != NO_ERROR {
      DecryptVerifyErrorsLackSignatures(lib, err, decrypted, verified, list);
    }
  }

  /** import and genkey, once the engine has run: `snapshot` is what the
    * result builder returned (Some(None) when the engine has no result, None
    * when the builder failed). On failure the snapshot, even None, becomes the
    * exception's `result`; on success it is the value. */
  function ResultOutcome(lib: Gpgme, err: ErrorT, snapshot: Option<Value>): (o: OpOutcome)
    ensures err == NO_ERROR && snapshot.Some? ==> o == Ok(snapshot.value)
    ensures err == NO_ERROR && snapshot.None? ==> o == Err(NoMemory)
    ensures err != NO_ERROR ==> o.Err? && o.exc.args == Errors.ErrorException(lib, err).args
    ensures err != NO_ERROR ==> ("result" in o.exc.attrs <==> snapshot.Some?)
    ensures err != NO_ERROR && snapshot.Some? ==> o.exc.attrs["result"] == snapshot.value
  {
    if err == NO_ERROR then
      if snapshot.Some? then Ok(snapshot.value) else Err(NoMemory)
    else
      var exc := Errors.ErrorException(lib, err);
      if snapshot.Some? then Err(WithAttr(exc, "result", snapshot.value)) else Err(exc)
  }

  /** genkey's outcome with the GenkeyResult snapshot: a failed generation that
    * left a result carries it as `result`. */
  lemma GenkeyFailureCarriesResult(lib: Gpgme, err: ErrorT, res: NativeGenkeyResult)
    requires err != NO_ERROR
    ensures var o := ResultOutcome(lib, err, GenkeyResults.GenkeyResult(Some(res), true));
            o.Err? && "result" in o.exc.attrs && o.exc.attrs["result"].RecordV? &&
            o.exc.attrs["result"].fields["primary"] == BoolV(res.primary)
  {
  }
}
