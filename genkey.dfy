/** The gpgme.GenkeyResult snapshot of a key generation (src/pygpgme-genkey.c). */
module GenkeyResults {
  import opened Base
  import opened Codecs
  import opened Native
  import opened Host
  import Keys

  /** pygpgme_genkey_result as a value: Some(NoneV) when the engine has no
    * result, None (NULL, MemoryError pending) when the object cannot be
    * allocated, otherwise the record of the three read-only members. */
  function GenkeyResult(res: Option<NativeGenkeyResult>, allocOk: bool): (r: Option<Value>)
    ensures res.None? ==> r == Some(NoneV)
    ensures res.Some? && !allocOk ==> r.None?
    ensures res.Some? && allocOk ==> r.Some? && r.value.RecordV? && r.value.typeName == "gpgme.GenkeyResult"
    ensures res.Some? && allocOk ==> r.value.fields.Keys == {"primary", "sub", "fpr"}
    ensures res.Some? && allocOk ==>
      r.value.fields["primary"] == BoolV(res.value.primary) && r.value.fields["sub"] == BoolV(res.value.sub)
    ensures res.Some? && allocOk ==> (r.value.fields["fpr"] == NoneV <==> res.value.fpr.None?)
    ensures res.Some? && allocOk ==> r.value.fields["fpr"] == Keys.NullableAscii(res.value.fpr)
    ensures res.Some? && allocOk && res.value.fpr.Some? ==>
      r.value.fields["fpr"].StrV? && |r.value.fields["fpr"].text| == |res.value.fpr.value|
  {
    match res
    case None => Some(NoneV)
    case Some(g) =>
      if !allocOk then None
      else
        Some(RecordV("gpgme.GenkeyResult",
          map["primary" := BoolV(g.primary), "sub" := BoolV(g.sub), "fpr" := Keys.NullableAscii(g.fpr)]))
  }

  /** A fingerprint made of hex digits comes back as the same characters. */
  lemma {:induction false} HexFingerprintKept(g: NativeGenkeyResult)
    requires g.fpr.Some?
    requires forall i :: 0 <= i < |g.fpr.value| ==> g.fpr.value[i] < 0x80
    ensures GenkeyResult(Some(g), true).value.fields["fpr"] == StrV(g.fpr.value)
  {
    var s := AsciiDecode(g.fpr.value);
    assert s == g.fpr.value;
  }
}
