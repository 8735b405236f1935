/** The gpgme.Import snapshot of an import operation (src/pygpgme-import.c). */
module ImportResults {
  import opened Base
  import opened Codecs
  import opened GpgError
  import opened Native
  import opened Host
  import Errors
  import Keys

  /** The allocations of pygpgme_import_result that are checked: the result
    * object, its `imports` list, and the triple for import status j. */
  datatype ImportSite = ResultObject | ImportsList | StatusTriple(index: nat)

  /** One import status as the (fpr, result, status) triple. */
  function StatusTripleValue(lib: Gpgme, st: ImportStatus): (v: Value)
    ensures v.TupleV? && |v.items| == 3
    ensures (v.items[0] == NoneV <==> st.fpr.None?) && v.items[0] == Keys.NullableAscii(st.fpr)
    ensures (v.items[1] == NoneV <==> st.result == NO_ERROR) && v.items[1] == Errors.ErrorObject(lib, st.result)
    ensures v.items[2] == IntV(st.status)
  {
    TupleV([Keys.NullableAscii(st.fpr), Errors.ErrorObject(lib, st.result), IntV(st.status)])
  }

  /** The import statuses, in list order. */
  function StatusTriples(lib: Gpgme, imports: seq<ImportStatus>): (vs: seq<Value>)
    ensures |vs| == |imports|
    ensures forall j :: 0 <= j < |imports| ==> vs[j] == StatusTripleValue(lib, imports[j])
  {
    seq(|imports|, j requires 0 <= j < |imports| => StatusTripleValue(lib, imports[j]))
  }

  /** The fourteen counters of gpgme.Import, exactly as the engine reported
    * them. */
  function CounterFields(res: NativeImportResult): (m: map<string, Value>)
    ensures "considered" in m && m["considered"] == IntV(res.considered)
    ensures "no_user_id" in m && m["no_user_id"] == IntV(res.noUserId)
    ensures "imported" in m && m["imported"] == IntV(res.imported)
    ensures "imported_rsa" in m && m["imported_rsa"] == IntV(res.importedRsa)
    ensures "unchanged" in m && m["unchanged"] == IntV(res.unchangedKeys)
    ensures "new_user_ids" in m && m["new_user_ids"] == IntV(res.newUserIds)
    ensures "new_sub_keys" in m && m["new_sub_keys"] == IntV(res.newSubKeys)
    ensures "new_signatures" in m && m["new_signatures"] == IntV(res.newSignatures)
    ensures "new_revocations" in m && m["new_revocations"] == IntV(res.newRevocations)
    ensures "secret_read" in m && m["secret_read"] == IntV(res.secretRead)
    ensures "secret_imported" in m && m["secret_imported"] == IntV(res.secretImported)
    ensures "secret_unchanged" in m && m["secret_unchanged"] == IntV(res.secretUnchanged)
    ensures "skipped_new_keys" in m && m["skipped_new_keys"] == IntV(res.skippedNewKeys)
    ensures "not_imported" in m && m["not_imported"] == IntV(res.notImported)
    ensures "imports" !in m
  {
    map["considered" := IntV(res.considered), "no_user_id" := IntV(res.noUserId),
        "imported" := IntV(res.imported), "imported_rsa" := IntV(res.importedRsa),
        "unchanged" := IntV(res.unchangedKeys), "new_user_ids" := IntV(res.newUserIds),
        "new_sub_keys" := IntV(res.newSubKeys), "new_signatures" := IntV(res.newSignatures),
        "new_revocations" := IntV(res.newRevocations), "secret_read" := IntV(res.secretRead),
        "secret_imported" := IntV(res.secretImported),
        "secret_unchanged" := IntV(res.secretUnchanged),
        "skipped_new_keys" := IntV(res.skippedNewKeys), "not_imported" := IntV(res.notImported)]
  }

  /** A gpgme.Import as the record of its read-only members: the counters and
    * the list of status triples. */
  function ImportRecord(res: NativeImportResult, imports: seq<Value>): (v: Value)
    ensures v.RecordV? && v.typeName == "gpgme.Import"
    ensures "imports" in v.fields && v.fields["imports"] == ListV(imports)
    ensures forall name :: name in CounterFields(res) ==>
              name in v.fields && v.fields[name] == CounterFields(res)[name]
  {
    RecordV("gpgme.Import", CounterFields(res)["imports" := ListV(imports)])
  }

  /** pygpgme_import_result: None when the engine has no result; NULL (r ==
    * None, MemoryError pending) when a checked allocation fails; otherwise the
    * snapshot. The statuses are appended one by one, in order. */
  method ImportResult(py: Interp, lib: Gpgme, res: Option<NativeImportResult>, fails: set<ImportSite>)
    returns (r: Option<Value>)
    modifies py
    ensures res.None? ==> r == Some(NoneV) && py.pending == old(py.pending)
    ensures res.Some? ==>
      (r.None? <==> ResultObject in fails || ImportsList in fails ||
                    exists j: nat :: StatusTriple(j) in fails && j < |res.value.imports|)
    ensures res.Some? && r.Some? ==>
      r.value == ImportRecord(res.value, StatusTriples(lib, res.value.imports)) && py.pending == old(py.pending)
    ensures r.None? ==> py.pending == Some(NoMemory)
    ensures py.errno == old(py.errno) && py.unraisable == old(py.unraisable)
  {
    if res.None? {
      return Some(NoneV);
    }
    var result := res.value;
    if ResultObject in fails {
      py.pending := Some(NoMemory);
      return None;
    }
    if ImportsList in fails {
      py.pending := Some(NoMemory);
      return None;
    }
    var imports: seq<Value> := [];
    var j := 0;
    while j < |result.imports|
      invariant 0 <= j <= |result.imports|
      invariant imports == StatusTriples(lib, result.imports)[..j]
      invariant forall k: nat :: StatusTriple(k) in fails ==> k >= j
      invariant py.pending == old(py.pending)
      invariant py.errno == old(py.errno) && py.unraisable == old(py.unraisable)
    {
      if StatusTriple(j) in fails {
        py.pending := Some(NoMemory);
        return None;
      }
      imports := imports + [StatusTripleValue(lib, result.imports[j])];
      j := j + 1;
    }
    assert imports == StatusTriples(lib, result.imports);
    r := Some(ImportRecord(result, imports));
  }
}
