# pygpgme binding core, modelled in Dafny

pygpgme is a CPython extension that exposes GPGME, the GnuPG Made Easy
library. Everything cryptographic happens inside GPGME. What the binding
itself decides is modelled here:

- how it translates errors between the two sides: a `gpgme_error_t` becomes
  `None` or a `gpgme.GpgmeError`, and a pending Python exception becomes a
  `gpgme_error_t` for a callback's return value;
- how it turns the `keylist` pattern argument into a NULL-terminated C array
  and frees it;
- the stream adapter that lets a Python file object serve as a
  `gpgme_data_t`: read clamping, the mapping of exceptions to `errno`, and
  ownership of the file;
- reference counting: the passphrase and progress callback slots of a
  `gpgme.Context`, `gpgme.Key` wrappers owning one native key reference,
  child views (`Subkey`, `UserId`, `KeySig`) keeping their parent alive, and
  the `signers` list;
- the recipient array passed to `encrypt` and `encrypt_sign`;
- the `KeyIter` state machine: StopIteration on GPGME's EOF only, and the
  listing ended exactly once when the iterator goes away;
- the read-only snapshots of native results: signatures and their
  notations, import statuses, generated keys, and invalid keys;
- how the engine's error is annotated with those snapshots in `encrypt`,
  `encrypt_sign`, `decrypt`, `decrypt_verify`, `sign`, `verify`, `import`
  and `genkey`.

## How it is modelled

- **The interpreter** is an `Interp` object (`host.dfy`). It holds three
  pieces of state:
  - the pending exception;
  - the C `errno`;
  - the objects handed to `PyErr_WriteUnraisable`.
- **Python objects.** Objects with identity (`ObjV`, `KeyV`) carry a
  reference count field. Immutable values (ints, strs, bytes, tuples) are
  plain datatype values.
- **Python code the binding calls** is a `CallOutcome` parameter: a callback,
  or a file's `read`/`write`/`seek`/`tell`. The outcome either returns a
  value or raises an exception.
- **Allocation failures** are an oracle. `oom` is the set of positions, in
  program order, of the allocations that fail. Some builders instead use a
  set of `Site`s.
- **The C heap** is a `CHeap` block count. This is how the model shows that
  every failure path frees what it allocated.
- **Functions of GPGME whose results the binding interprets**
  (`gpgme_strerror_r`, `gpgme_err_code_from_errno`) are the two fields of a
  `Gpgme` record.
- **The engine's outcomes** are parameters. These are the error an
  operation returns, and the result structure it exposes afterwards.
- **libgpg-error's packing of error values** is written out in `gpgerror.dfy`
  with its real bit layout:
  - source in bits 24 to 30;
  - code in bits 0 to 15;
  - `gpgme_err_make` masks both, and a zero code gives `GPG_ERR_NO_ERROR`;
  - `gpgme_error` stamps `GPG_ERR_SOURCE_USER_1`.
- **Codecs.** `PyUnicode_DecodeUTF8(..., "replace")`,
  `PyUnicode_DecodeASCII(..., "replace")` and `PyUnicode_AsUTF8String` are
  concrete definitions in `codecs.dfy`. `strdup`'s NUL truncation is
  `Base.UpToNul`.
- **Exception classes.** The binding tests classes with
  `PyErr_GivenExceptionMatches`, which accepts subclasses. So each class of
  `Host.ExcClass` stands for the class and all its subclasses:
  `OSErrorClass` also covers `PermissionError`, `FileNotFoundError` and the
  rest, and `GpgmeErrorClass` covers any subclass of GpgmeError.
  `OtherClass` names only classes outside those hierarchies.
- **Python version.** The model uses Python 3 semantics: `IOError` is
  `OSError`, and `bool` passes `PyLong_Check`.

Two behaviours of the code are easy to misread:

- **`decrypt_verify` never attaches `signatures` to its exception.** On
  failure the code returns right after the decrypt annotation, so the
  signature annotation that follows is dead code
  (`src/pygpgme-context.c:874-877`, `src/pygpgme-context.c:882-901`). The
  behaviour as written is `Operations.DecryptVerifyOutcomeAsWritten`. The
  evident intent is `Operations.DecryptVerifyOutcome`. See Findings.
- **A truncated notation list is never returned.** The notation loop of
  `pygpgme_siglist_new` stops early only when `Py_BuildValue` fails. That
  failure leaves an exception pending, and the `PyErr_Occurred` check after
  the item then discards the whole list (`src/pygpgme-signature.c:157-180`).
  So no list with a truncated `notations` member comes back.
  `Signatures.SigListNew` states this: every returned item carries all of its
  notations.

## Model

| member | source | states |
|---|---|---|
| GpgError.ErrMake | src/pygpgme-error.c:130-136 | `gpgme_err_make` is `GPG_ERR_NO_ERROR` exactly when the code is zero as a 32-bit value, or when the masked code and the masked source are both zero. When the code is non-zero as a 32-bit value, its code and source read back as the arguments' low 16 and 7 bits. |
| GpgError.MakeInvertsSourceAndCode | src/pygpgme-error.c:34-37 | A non-zero error is rebuilt exactly from its own source and code if and only if it has no stray bits and a non-zero code. |
| Errors.ErrorObject | src/pygpgme-error.c:25-86 | `None` if and only if the error is `GPG_ERR_NO_ERROR`. Otherwise a GpgmeError whose args are exactly the three items `(source, code, strerror)`, also set as attributes. `strerror` is the UTF-8 decoding (with replacement) of the native message, or "Unknown" when the native lookup fails. |
| Errors.CheckError | src/pygpgme-error.c:90-105 | Returns 0 exactly for `GPG_ERR_NO_ERROR` and leaves the pending exception alone. Otherwise returns -1 with the GpgmeError for the error pending. |
| Errors.CheckPyError | src/pygpgme-error.c:107-151 | Returns `PendingToError` of the exception pending on entry (`GPG_ERR_NO_ERROR` when none is pending) and always clears it. |
| Errors.NoConstructor | src/pygpgme-error.c:153-160 | Always fails with -1 and NotImplementedError "can not directly create instances of <type>". |
| Errors.RoundTrip | src/pygpgme-error.c:130-136 | Translating the exception `error_object` builds back with `check_pyerror` gives `gpgme_err_make(source, code)`. This is the same source and code whenever the code is non-zero, and the identical value exactly for well-formed errors. |
| Errors.GpgmeErrorTranslation | src/pygpgme-error.c:130-136 | A GpgmeError whose first two args are ints translates to `gpgme_err_make` of them. |
| Errors.CancelPropagates | src/pygpgme-context.c:294-296 | A raised `GpgmeError(source, ERR_CANCELED, ...)` hands the engine a non-zero error with code `GPG_ERR_CANCELED` and the same source. |
| Errors.OSErrorTranslation | src/pygpgme-error.c:137-141 | An OSError whose first arg is an int maps through `gpgme_err_code_from_errno` of it, taken as a C int. |
| Errors.GeneralFallback | src/pygpgme-error.c:117-141 | Every other exception gives `gpg_error(GPG_ERR_GENERAL)`: no args, an empty tuple, a missing second arg, non-int fields, or a class outside the GpgmeError and OSError hierarchies. |
| Errors.CodeAttributeIsNotRead | src/pygpgme-error.c:122-136 | Only `args` is read. A GpgmeError whose `code` attribute says ERR_CANCELED but whose args are empty translates to GPG_ERR_GENERAL, not to a cancellation. |
| Errors.ZeroCodeReadsAsSuccess | src/pygpgme-error.c:130-141 | A raised GpgmeError with code 0, or an OSError with errno 0, translates to `GPG_ERR_NO_ERROR`. |
| Data.ErrnoFor | src/pygpgme-data.c:26-49 | An OSError's int `errno` attribute becomes errno, through a C long into a C int. Anything else gives EINVAL. Only a long overflow leaves an exception pending. |
| Data.SetErrno | src/pygpgme-data.c:26-49 | Consumes the pending exception and sets errno and the pending state as `ErrnoFor` says. |
| Data.ReadCount | src/pygpgme-data.c:62-78 | -1 exactly when `read()` raised or returned something other than bytes. Otherwise `min(len(result), size)`. |
| Data.ReadCb | src/pygpgme-data.c:51-83 | Returns `ReadCount` and copies exactly that prefix of the bytes into the buffer, leaving the rest untouched. A raise sets errno through `set_errno`, and a non-bytes result sets EINVAL. |
| Data.WriteCount | src/pygpgme-data.c:100-110 | The full size exactly when the bytes object was made and `write()` did not raise, whatever `write()` returned. Otherwise -1. |
| Data.WriteCb | src/pygpgme-data.c:85-111 | Returns `WriteCount`. A failed buffer or a raising `write()` sets errno through `set_errno`. |
| Data.SeekOffset | src/pygpgme-data.c:121-146 | When `seek()` and `tell()` both return and `tell()` gives an int, exactly that int, or -1 when it does not fit a C long (`PyInt_AsLong`'s overflow value). -1 when either call raised or `tell()` did not return an int. |
| Data.SeekCb | src/pygpgme-data.c:113-147 | Returns `SeekOffset`, so `tell()`'s value after a successful `seek()`, setting errno from the raising call, or EINVAL for a non-int `tell()`. |
| Data.DataNew | src/pygpgme-data.c:168-189 | For `None`: no handle, success, no reference taken. On native failure: -1, NULL, the GpgmeError pending, no reference. On success: a fresh handle on the file, which gains exactly one reference. |
| Data.ReleaseCb | src/pygpgme-data.c:149-158 | Drops the file's reference exactly once and marks the handle released. |
| Data.DataLifetime | src/pygpgme-data.c:168-189 | A data object made and then released leaves the file's reference count where it was. |
| Keys.KeyNew | src/pygpgme-key.c:612-624 | A fresh wrapper on the key that takes exactly one native reference. On allocation failure: NULL, MemoryError, and no reference taken. |
| Keys.KeyDealloc | src/pygpgme-key.c:415-421 | Gives the wrapper's native reference back exactly once and forgets the key. |
| Keys.KeyLifetime | src/pygpgme-key.c:612-624 | `key_new` followed by dealloc leaves the native count unchanged. |
| Keys.SubkeyDealloc | src/pygpgme-key.c:23-30 | Releases the parent Key exactly once and nulls the pointer. The parent's key is untouched. |
| Keys.UserIdDealloc | src/pygpgme-key.c:300-307 | Releases the parent Key exactly once and nulls the pointer. |
| Keys.KeySigDealloc | src/pygpgme-key.c:159-166 | Releases the parent UserId exactly once and nulls the pointer. |
| Keys.GetSubkeys | src/pygpgme-key.c:523-547 | One fresh Subkey per native node, in order, each with the Key as parent. The Key gains one reference per view. A failed view allocation gives NULL with MemoryError and leaves the Key's count unchanged. The unchecked append is assumed to succeed (see Left out). |
| Keys.GetUids | src/pygpgme-key.c:549-573 | The same for UserId views over the user id list. |
| Keys.UserIdGetSignatures | src/pygpgme-key.c:367-391 | One KeySig per signature, in order, whose parent is the UserId and not the Key. All or nothing when a view allocation fails. The unchecked append is assumed to succeed (see Left out). |
| Keys.NullableAscii | src/pygpgme-key.c:98-116 | `None` exactly for a NULL string. Otherwise one character per byte, with ASCII bytes kept. |
| Keys.NullableUtf8 | src/pygpgme-key.c:226-264 | `None` exactly for a NULL string. Otherwise the decoded text. |
| Keys.AsciiGettersAgree | src/pygpgme-key.c:98-116 | For pure-ASCII strings the ASCII and UTF-8 getters agree. |
| Keys.SubkeyAttrs | src/pygpgme-key.c:32-128 | `keyid` and `fpr` are the ASCII decodings (`NullableAscii`) of the native strings, so `None` exactly when the string is NULL. |
| Keys.KeySigAttrs | src/pygpgme-key.c:168-270 | `status` is `error_object` of the native status, so `None` exactly for `GPG_ERR_NO_ERROR`. `keyid` is decoded as ASCII. `uid`, `name`, `email` and `comment` are decoded as UTF-8. Each text field is `None` exactly for NULL. |
| Keys.UserIdAttrs | src/pygpgme-key.c:309-365 | `uid`, `name`, `email` and `comment` are the UTF-8 decodings (`NullableUtf8`) of the native strings, so `None` exactly for NULL. |
| Keys.KeyAttrs | src/pygpgme-key.c:423-521 | `issuer_serial` and `chain_id` are decoded as ASCII and `issuer_name` as UTF-8. Each is `None` exactly for NULL. |
| Signatures.NewSignatureRecord | src/pygpgme-signature.c:61-89 | `fpr` is the ASCII decoding of the native fingerprint, `None` exactly for NULL. `type`, `pubkey_algo`, `hash_algo`, `sig_class` and `timestamp` are copied from the native fields. |
| Signatures.NotationValue | src/pygpgme-signature.c:157-170 | A notation becomes the pair of its name decoded as UTF-8 with replacement and its value as the exact bytes. |
| Signatures.NotationValues | src/pygpgme-signature.c:157-170 | One pair per notation, in order. |
| Signatures.SignatureRecord | src/pygpgme-signature.c:141-180 | `fpr` is the ASCII decoding of the native fingerprint, `None` exactly for NULL. `status` and `validity_reason` are `error_object` of the native errors, `None` exactly for `GPG_ERR_NO_ERROR`. `notations` is the complete pair list, `wrong_key_usage` the native flag as a bool, and `summary`, `timestamp`, `exp_timestamp` and `validity` are copied. |
| Signatures.NewSigListNew | src/pygpgme-signature.c:55-90 | One NewSignature per native node, in order. Of the checked failures, NULL with an exception pending exactly when an item's allocation fails or an exception is pending after filling an item. The unchecked list allocation and appends are assumed to succeed (see Left out). |
| Signatures.NotationList | src/pygpgme-signature.c:157-170 | Appends pairs in order and stops at the first pair that cannot be built, with MemoryError then pending. |
| Signatures.SigListNew | src/pygpgme-signature.c:133-185 | One Signature per native node, in order, each with all its notations. Any checked failure, including one in the notation loop, gives NULL with an exception pending. The unchecked list allocations and appends are assumed to succeed (see Left out). |
| ImportResults.StatusTripleValue | src/pygpgme-import.c:116-136 | The (fpr, error, status) triple: fpr is the ASCII decoding of the native fingerprint, `None` exactly for NULL. The error is `error_object` of the status's result, `None` exactly for `GPG_ERR_NO_ERROR`. The status is copied. |
| ImportResults.StatusTriples | src/pygpgme-import.c:116-136 | One triple per import status, in order. |
| ImportResults.CounterFields | src/pygpgme-import.c:95-111 | The fourteen counters copied verbatim from the native result. |
| ImportResults.ImportRecord | src/pygpgme-import.c:44-67 | A `gpgme.Import` whose `imports` is the triple list and whose other members are the counters. |
| ImportResults.ImportResult | src/pygpgme-import.c:79-139 | `None` when the engine has no result. NULL with MemoryError exactly when the object, the list or one of the triples cannot be allocated. The unchecked append is assumed to succeed (see Left out). Otherwise `ImportRecord` of the counters and all triples in order. |
| GenkeyResults.GenkeyResult | src/pygpgme-genkey.c:49-75 | `None` when the engine has no result, NULL when the object cannot be allocated. Otherwise exactly `primary`, `sub` (bools of the flags) and `fpr`, the ASCII decoding of the native fingerprint (`NullableAscii`), `None` exactly for NULL. |
| GenkeyResults.HexFingerprintKept | src/pygpgme-genkey.c:66-68 | An ASCII fingerprint comes back as the same characters. |
| KeyPatterns.PatternItem | src/pygpgme-context.c:1147-1162 | A bytes item is taken as is and a str item is UTF-8 encoded (failing exactly when it holds a surrogate). Anything else is a TypeError. |
| KeyPatterns.SequencePatterns | src/pygpgme-context.c:1140-1170 | Entries exactly when every item is a str or bytes and no allocation fails. Then there are n entries in order, each the item's bytes up to the first NUL. With no allocation failure, a failure is the first bad item's exception. |
| KeyPatterns.ParsePatterns | src/pygpgme-context.c:1101-1180 | `None` gives no array. A str or bytes gives one entry, or MemoryError. A failed encode gives its UnicodeEncodeError, a non-sequence gives TypeError, and a tuple or list goes through `SequencePatterns`. |
| KeyPatterns.FreeKeyPatterns | src/pygpgme-context.c:1088-1096 | Frees every string before the NULL terminator, then the array. The heap shrinks by exactly that many blocks plus one. |
| KeyPatterns.ParseSequence | src/pygpgme-context.c:1135-1178 | The sequence branch: on success a fresh array equal to the entries plus NULL, with one heap block per entry plus the array. On failure NULL, the exception pending, and the heap as it was. |
| KeyPatterns.ParseKeyPatterns | src/pygpgme-context.c:1101-1180 | Follows `ParsePatterns`: no array, a fresh NULL-terminated array holding exactly the entries, or -1 and NULL with the exception pending and no partial array left on the heap. |
| Contexts.Context.GetCallback | src/pygpgme-context.c:299-312 | Returns the installed callable with a new reference, or `None` when the binding did not install one. The progress getter (lines 340-353) is the same. |
| Contexts.Context.SetCallback | src/pygpgme-context.c:315-337 | Releases the previous callback only if the binding installed it. `None` or deletion clears the slot, and any other value is installed with one new reference. The other slot is untouched. The progress setter (lines 356-378) is the same. |
| Contexts.Context.Dealloc | src/pygpgme-context.c:57-80 | With a native context, releases each installed callback once per slot holding it. Both slots end up empty and the context released. |
| Contexts.Context.GetSigners | src/pygpgme-context.c:384-407 | A tuple with one fresh Key per native signer, in order. Each native key ends up with one more reference per occurrence. On an allocation failure, NULL with MemoryError and every native count restored. |
| Contexts.Context.ReleaseWrappers | src/pygpgme-context.c:397-399 | Dropping the partial list deallocates each wrapper, giving each native reference back. |
| Contexts.Context.ReplaceSigners | src/pygpgme-context.c:426-438 | Clears the native list, then adds the keys of the items before the first non-Key, in order. Succeeds exactly when every item is a Key. |
| Contexts.Context.SetSigners | src/pygpgme-context.c:410-443 | Deletion is refused with AttributeError, and a non-sequence with TypeError, both leaving the list unchanged. Otherwise the new list is the keys before the first non-Key, which raises TypeError, so the update is not atomic. |
| Contexts.FirstNonKey | src/pygpgme-context.c:428-436 | The index of the first item that is not a Key, or the length. |
| Contexts.LiveKeysInOrder | src/pygpgme-context.c:428-438 | For items that are all live Keys, the signer list is exactly their native keys, in order. |
| Contexts.BuildRecipients | src/pygpgme-context.c:608-627 | `None`, where allowed, gives NULL. A non-sequence gives the TypeError. A non-Key item gives a TypeError before any native call, with the array freed. Otherwise a fresh array of the keys in order plus a NULL terminator. |
| Contexts.PassphraseError | src/pygpgme-context.c:33-35 | No error when the callback returns. A raise of any class other than GpgmeError and OSError gives GPG_ERR_GENERAL. |
| Contexts.PassphraseCb | src/pygpgme-context.c:23-39 | Returns `check_pyerror` of what the call raised and leaves nothing pending. |
| Contexts.CancelAbortsOperation | src/pygpgme-context.c:294-296 | A callback raising the GpgmeError that `error_object` builds for ERR_CANCELED hands the engine ERR_CANCELED with the same source. |
| Contexts.ProgressCb | src/pygpgme-context.c:42-54 | Whatever the callback raised is discarded. |
| Operations.InvalidKeyEntry | src/pygpgme-context.c:558-572 | An invalid key becomes the pair of its fpr decoded as ASCII (`None` exactly for NULL) and `error_object` of its reason. |
| Operations.InvalidKeyList | src/pygpgme-context.c:557-572 | One pair per invalid key, in order. |
| Operations.WithAttr | src/pygpgme-context.c:574-575 | Setting an attribute keeps class, args and every other attribute. |
| Operations.AttrsDoNotChangeError | src/pygpgme-error.c:122-136 | Annotating an exception never changes the native error it translates back to. |
| Operations.DecodeEncryptResult | src/pygpgme-context.c:538-579 | A GpgmeError gets exactly `invalid_recipients` when the engine has an encrypt result. Anything else passes through unchanged. |
| Operations.DecodeDecryptResult | src/pygpgme-context.c:761-799 | A GpgmeError gets exactly `unsupported_algorithm` (the UTF-8 decoding of the native string, `None` exactly for NULL) and `wrong_key_usage` (the native flag) when the engine has a decrypt result. Anything else passes through unchanged. |
| Operations.AttachSignaturesAsWritten | src/pygpgme-context.c:972-974 | Crashes exactly when the signature list is NULL. |
| Operations.AttachSignatures | src/pygpgme-context.c:972-974 | Always raises. `signatures` is set to the list when one was built. |
| Operations.AttachSignaturesOnlyFixesCrash | src/pygpgme-context.c:972-974 | The two differ exactly when the list is NULL. |
| Operations.SignatureListResult | src/pygpgme-context.c:980-983 | An empty list without an engine result, the built list with one, and MemoryError when building failed. |
| Operations.EncryptOutcome | src/pygpgme-context.c:634-643 | `None` if and only if there is no error. Otherwise a GpgmeError carrying the engine error's args, with `decode_encrypt_result` applied: `invalid_recipients` is the invalid-key list when the engine has a result. |
| Operations.SignOutcomeAsWritten | src/pygpgme-context.c:936-983 | Crashes exactly when a failed signing has a result whose NewSignature list cannot be built. |
| Operations.SignAsWrittenCrashes | src/pygpgme-context.c:972-974 | A concrete failed signing with one signature and no memory for the list crashes. |
| Operations.SignOutcome | src/pygpgme-context.c:936-983 | Never crashes. On success the signature list. On failure the GpgmeError, with `invalid_signers` and `signatures` when the engine has a result. |
| Operations.SignCorrectionOnlyFixesCrash | src/pygpgme-context.c:936-983 | The corrected sign differs from the written one exactly where the written one crashes. |
| Operations.EncryptSignOutcomeAsWritten | src/pygpgme-context.c:700-747 | Crashes exactly when a failed call has a sign result whose NewSignature list cannot be built (lines 736-738). On success the signature list. |
| Operations.EncryptSignOutcome | src/pygpgme-context.c:694-747 | The corrected behaviour, where a NULL list is skipped instead of dereferenced. Never crashes. On failure `invalid_recipients` is present if and only if there is an encrypt result, and `invalid_signers` if and only if there is a sign result; `signatures` is added when built. On success the signature list. |
| Operations.DecryptOutcome | src/pygpgme-context.c:832-844 | `None` if and only if there is no error. Otherwise the decrypt-annotated GpgmeError. |
| Operations.EncryptSignCorrectionOnlyFixesCrash | src/pygpgme-context.c:736-738 | The corrected `encrypt_sign` differs from the written one exactly where the written one crashes. |
| Operations.VerifyOutcomeAsWritten | src/pygpgme-context.c:1019-1046 | Crashes exactly when a failed call has a verify result whose Signature list cannot be built (lines 1035-1037). On success the signature list. |
| Operations.VerifyOutcome | src/pygpgme-context.c:1011-1046 | The corrected behaviour, where a NULL list is skipped. Never crashes. On success the signature list. On failure the GpgmeError, with `signatures` when the engine has a result and it was built. |
| Operations.VerifyCorrectionOnlyFixesCrash | src/pygpgme-context.c:1035-1037 | The corrected `verify` differs from the written one exactly where the written one crashes. |
| Operations.DecryptVerifyOutcomeAsWritten | src/pygpgme-context.c:867-906 | A failure is exactly `decrypt`'s failure. A success is the signature list. |
| Operations.DecryptVerifyErrorsLackSignatures | src/pygpgme-context.c:874-877 | No failing `decrypt_verify` as written carries `signatures`. |
| Operations.DecryptVerifyOutcome | src/pygpgme-context.c:874-901 | The decrypt annotation plus `signatures` when a verify result exists and the list was built. |
| Operations.DecryptVerifyCorrectionAddsSignatures | src/pygpgme-context.c:882-901 | The correction keeps every success and every written attribute, and adds exactly `signatures`, where a list exists. |
| Operations.ResultOutcome | src/pygpgme-context.c:1062-1085 | On success the snapshot. On failure the GpgmeError, carrying `result` exactly when the snapshot was built (even when it is `None`). |
| Operations.GenkeyFailureCarriesResult | src/pygpgme-context.c:1240-1258 | A failed generation that left a result carries that GenkeyResult as `result`. |
| KeyIterators.KeyIter.Iter | src/pygpgme-keyiter.c:39-44 | Returns the iterator itself, with one more reference. |
| KeyIterators.KeyIter.Next | src/pygpgme-keyiter.c:46-73 | StopIteration only for GPGME's EOF, and any other error raises GpgmeError. No error with no key gives `None`. A key gives a fresh wrapper owning a net one more native reference. On allocation failure, MemoryError and no net reference. |
| KeyIterators.OnlyGpgmeEofStops | src/pygpgme-keyiter.c:58-65 | An EOF code from any source other than GPGME is a non-zero error that does not end the iteration. GPGME's EOF does. |
| KeyIterators.KeyIter.Dealloc | src/pygpgme-keyiter.c:22-37 | While a context is held: ends the listing exactly once, reports a failure as unraisable (never pending), releases the context once and clears `ctx`. Without one, nothing changes. |
| KeyIterators.Keylist | src/pygpgme-context.c:1363-1396 | The pattern array never outlives the call. A parse failure raises before the listing starts, and a start failure raises GpgmeError. Otherwise the listing runs and a fresh iterator holds one new context reference, or MemoryError when it cannot be allocated. |
| KeyIterators.ListingLifetime | src/pygpgme-keyiter.c:22-37 | For every pattern `keylist` accepts (None, a str or bytes, or a sequence of them) and every allocation outcome under which parsing succeeds: `keylist` then dealloc ends the listing exactly once, leaves the context's count where it was, and leaves no pattern memory on the C heap. |

## Left out

- Native GPGME operations (`gpgme_op_*`, `gpgme_new`, `gpgme_signers_*`, `gpgme_data_new_from_cbs` and others) are foreign calls. Their outcomes are parameters.
- Everything cryptographic is inside GPGME and is not part of this model.
- GIL handling (`Py_BEGIN_ALLOW_THREADS`, `PyGILState_Ensure`) exists only for concurrency.
- The property setters that only forward to the engine are not modelled: protocol, armor, textmode, include_certs, keylist_mode, pinentry_mode, `set_engine_info` and `set_locale`.
- Context construction (`pygpgme_context_init`), `get_key`, `export`, `delete`, `edit`, `card_edit` and the trustlist are not part of this model. They pass arguments to the engine without rules of their own.
- Module initialisation (src/gpgme.c), the Python 2/3 macros (src/pycompat.h) and the Python 2 `message` attribute are not modelled. Neither are `gpgme/__init__.py` and `examples/encrypt.py`.
- `PyArg_ParseTuple` argument parsing is not modelled; every operation starts from parsed arguments.
- Keys.SubkeyAttrs, Keys.KeySigAttrs, Keys.UserIdAttrs, Keys.KeyAttrs: the contracts state the string and status fields only. The boolean and integer fields are in the tables, each copied from one native field, without a clause of their own.
- Argument building for the Python callbacks is not modelled (`PyObject_CallFunction(..., "zzii", ...)`). The call is one `CallOutcome`.
- `Host.Decref` never deallocates, so a count reaching zero does not cascade. In particular a child view's dealloc releasing the last reference to its parent is not followed further.
- Allocations the binding does not check are assumed to succeed:
  - `malloc` of the recipient array;
  - `PyList_New`, `PyList_Append` and `Py_BuildValue` in the invalid-key lists and in `get_signers`' list. In the invalid-key loops (src/pygpgme-context.c:569-571, 729-731 and 965-967) a failure of `Py_BuildValue` or of `error_object` leaves `item` NULL, and the `Py_DECREF(item)` that follows dereferences NULL. This is the same crash as the first three Findings rows, and it is not modelled;
  - the counter objects of `gpgme.Import`;
  - the field values of `gpgme.GenkeyResult`.
- The bytes object made in `parse_key_patterns` is never released after `strdup` (a reference leak). It is not visible in the model, because bytes values carry no reference count here.
- `pygpgme_import_result` leaks its half-built object when the `imports` list cannot be allocated (src/pygpgme-import.c:113-115). The model returns NULL with MemoryError, as the code does, without tracking that object.
- `KeyIterators.Keylist`: when the iterator cannot be allocated, the listing already started is not ended. The model leaves `listing` true, as the code does, but nothing later ends it.
- `KeyIterators.KeyIter.Next`: the StopIteration exception is represented with an empty args tuple, and the thread that fetches the next key is not modelled.
- `KeyPatterns.EncodeError`: the UnicodeEncodeError's args are reduced to the encoding and the offending string.
- Errors.ErrorObject: the NULL return when `PyInt_FromLong`, `PyUnicode_DecodeUTF8` or the GpgmeError constructor fails is not modelled (src/pygpgme-error.c:34-48). The model always builds the exception.
- Errors.CheckError: the -1 return with that allocation failure pending instead of a GpgmeError is not modelled (src/pygpgme-error.c:98-100). This has knock-on effects that are also not modelled. Each annotation block's GpgmeError class test would then fail and skip the annotation. `KeyIter.Dealloc` would leave the MemoryError pending.
- The annotation blocks' class test is taken as passing, which holds whenever `check_error` raised its GpgmeError, the only case modelled.
- Keys.GetSubkeys: the unchecked `PyList_Append` (src/pygpgme-key.c:543) is assumed to succeed. A failed append would return a list lacking that view, with MemoryError pending.
- Keys.GetUids: the same for the `PyList_Append` at src/pygpgme-key.c:569.
- Keys.UserIdGetSignatures: the same for the `PyList_Append` at src/pygpgme-key.c:387.
- Signatures.NewSigListNew: the unchecked `PyList_New` (src/pygpgme-signature.c:61) and `PyList_Append` (line 86) are assumed to succeed. If `PyList_New` fails, an empty native list gives NULL with MemoryError, and a non-empty one reaches `Py_DECREF(NULL)` or appends to NULL. A failed append drops the item. The next item's check then discards the list, but after the last item the list comes back short with MemoryError pending.
- Signatures.SigListNew: the same for `PyList_New` at src/pygpgme-signature.c:140 and 157, and for `PyList_Append` at lines 168 and 181.
- ImportResults.ImportResult: the unchecked `PyList_Append` (src/pygpgme-import.c:134) is assumed to succeed. A failed append would return an `imports` list lacking that triple.
- Operations.SignatureListResult: the `PyList_New(0)` for an operation without a result (src/pygpgme-context.c:747, 906, 983 and 1046) is assumed to succeed.
- Contexts.Context.ReplaceSigners: the native key references that `gpgme_signers_clear` and `gpgme_signers_add` drop and take are not tracked. `Contexts.Context.GetSigners` does track the one `gpgme_signers_enum` hands out.
- `Data.ReadCb`: `result_size` is a C `int`. A bytes object of 2^31 bytes or more would be truncated before clamping; the model uses unbounded lengths.
- `AsSequence` treats only tuples, lists, strs and bytes as iterables. Any other Python iterable is represented by the list of its items.

## Findings

| source | as written | input that shows it | evidently intended | confidence | as-written member | corrected member. |
|---|---|---|---|---|---|---|
| src/pygpgme-context.c:972-974 | After a failed `sign`, `pygpgme_newsiglist_new` may return NULL when an allocation fails. The code passes that NULL to `Py_DECREF(list)`, which dereferences it. The same three lines recur in `encrypt_sign` and `verify` (next two rows). | `gpg_error(GPG_ERR_GENERAL)` with a sign result holding one new signature whose object cannot be allocated. | Skip the `signatures` attribute when the list is NULL, and raise the GpgmeError. | medium (memory exhaustion only), not executed | Operations.SignAsWrittenCrashes | Operations.SignCorrectionOnlyFixesCrash |
| src/pygpgme-context.c:736-738 | The same NULL `Py_DECREF(list)` in `encrypt_sign`'s error path. | `gpg_error(GPG_ERR_GENERAL)` with a sign result whose NewSignature list cannot be allocated. | Skip the `signatures` attribute when the list is NULL. | medium (memory exhaustion only), not executed | Operations.EncryptSignOutcomeAsWritten | Operations.EncryptSignCorrectionOnlyFixesCrash |
| src/pygpgme-context.c:1035-1037 | The same NULL `Py_DECREF(list)` in `verify`'s error path, after `pygpgme_siglist_new` fails. | `gpg_error(GPG_ERR_GENERAL)` with a verify result whose Signature list cannot be allocated. | Skip the `signatures` attribute when the list is NULL. | medium (memory exhaustion only), not executed | Operations.VerifyOutcomeAsWritten | Operations.VerifyCorrectionOnlyFixesCrash |
| src/pygpgme-context.c:874-901 | On failure, `decrypt_verify` returns right after the decrypt annotation, so the `signatures` annotation below can never run. | Any non-zero error together with a verify result. | Annotate `signatures` as `verify` does, after the decrypt annotation. | medium, not executed | Operations.DecryptVerifyErrorsLackSignatures | Operations.DecryptVerifyCorrectionAddsSignatures |
| src/pygpgme-context.c:294-296 | The passphrase callback's documentation tells callers to cancel by raising a GpgmeError whose `.code` attribute is ERR_CANCELED. `check_pyerror` reads only `args[1]`, never the `code` attribute (src/pygpgme-error.c:122-136). | A GpgmeError with empty args and `code` set to ERR_CANCELED gives GPG_ERR_GENERAL, not a cancellation. | Document that the code must be the exception's second constructor argument, as `error_object` builds it. | high, not executed | Errors.CodeAttributeIsNotRead | Errors.CancelPropagates |
