/** The native GPGME structures the binding reads. Each linked list of the C
  * library is a sequence in list order; a nullable C string is an Option holding
  * the bytes before its terminator. Only the key handle has mutable state (its
  * reference count); every result structure is an immutable value. */
module Native {
  import opened Base
  import opened GpgError

  /** A `const char *` field: None is NULL, otherwise the bytes before the
    * terminator, none of which is NUL. */
  type CString = c: Option<seq<byte>> | c.None? || 0 !in c.value witness None

  datatype NativeSubkey = NativeSubkey(
    revoked: bool, expired: bool, disabled: bool, invalid: bool,
    canEncrypt: bool, canSign: bool, canCertify: bool, secret: bool,
    canAuthenticate: bool, pubkeyAlgo: int, length: int,
    keyid: CString, fpr: CString, timestamp: int, expires: int)

  datatype NativeKeySig = NativeKeySig(
    revoked: bool, expired: bool, invalid: bool, exportable: bool,
    pubkeyAlgo: int, keyid: CString, timestamp: int, expires: int,
    status: ErrorT, uid: CString, name: CString, email: CString,
    comment: CString, sigClass: int)

  datatype NativeUserId = NativeUserId(
    revoked: bool, invalid: bool, validity: int,
    uid: CString, name: CString, email: CString, comment: CString,
    signatures: seq<NativeKeySig>)

  /** The scalar and string fields of a gpgme_key_t. */
  datatype KeyFields = KeyFields(
    revoked: bool, expired: bool, disabled: bool, invalid: bool,
    canEncrypt: bool, canSign: bool, canCertify: bool, secret: bool,
    canAuthenticate: bool, protocol: int, issuerSerial: CString,
    issuerName: CString, chainId: CString, ownerTrust: int, keylistMode: int)

  /** A gpgme_key_t: shared, reference counted by gpgme_key_ref/unref. */
  class NativeKey {
    var refs: int
    const fields: KeyFields
    const subkeys: seq<NativeSubkey>
    const uids: seq<NativeUserId>

    constructor (fields: KeyFields, subkeys: seq<NativeSubkey>, uids: seq<NativeUserId>)
      ensures this.fields == fields && this.subkeys == subkeys && this.uids == uids
      ensures refs == 1
    {
      this.fields := fields;
      this.subkeys := subkeys;
      this.uids := uids;
      refs := 1;
    }
  }

  /** gpgme_invalid_key_t: a key the engine refused, with the reason. */
  datatype InvalidKey = InvalidKey(fpr: CString, reason: ErrorT)

  /** gpgme_new_signature_t: a signature just made. */
  datatype NativeNewSignature = NativeNewSignature(
    sigType: int, pubkeyAlgo: int, hashAlgo: int, timestamp: int,
    fpr: CString, sigClass: int)

  /** gpgme_sig_notation_t: name and value with explicit lengths. */
  datatype Notation = Notation(name: seq<byte>, value: seq<byte>)

  /** gpgme_signature_t: a verified signature. */
  datatype NativeSignature = NativeSignature(
    summary: int, fpr: CString, status: ErrorT, notations: seq<Notation>,
    timestamp: int, expTimestamp: int, wrongKeyUsage: bool, validity: int,
    validityReason: ErrorT)

  datatype EncryptResult = EncryptResult(invalidRecipients: seq<InvalidKey>)
  datatype SignResult = SignResult(invalidSigners: seq<InvalidKey>, signatures: seq<NativeNewSignature>)
  datatype DecryptResult = DecryptResult(unsupportedAlgorithm: CString, wrongKeyUsage: bool)
  datatype VerifyResult = VerifyResult(signatures: seq<NativeSignature>)

  /** gpgme_import_status_t. */
  datatype ImportStatus = ImportStatus(fpr: CString, result: ErrorT, status: int)

  /** gpgme_import_result_t: fourteen counters and the per-key statuses. */
  datatype NativeImportResult = NativeImportResult(
    considered: int, noUserId: int, imported: int, importedRsa: int,
    unchangedKeys: int, newUserIds: int, newSubKeys: int, newSignatures: int,
    newRevocations: int, secretRead: int, secretImported: int,
    secretUnchanged: int, skippedNewKeys: int, notImported: int,
    imports: seq<ImportStatus>)

  /** gpgme_genkey_result_t. */
  datatype NativeGenkeyResult = NativeGenkeyResult(primary: bool, sub: bool, fpr: CString)
}
