/** Snapshots of signature results (src/pygpgme-signature.c): the native lists of
  * new signatures and of verified signatures become Python lists of read-only
  * gpgme.NewSignature and gpgme.Signature objects, in list order. */
module Signatures {
  import opened Base
  import opened Codecs
  import opened GpgError
  import opened Native
  import opened Host
  import Errors
  import Keys

  /** The allocations of the two builders that can fail: the object for item i,
    * one of the values filling its fields, and the (name, value) pair for
    * notation j of item i. A failure leaves MemoryError pending. */
  datatype Site = ItemObject(item: nat) | ItemFields(item: nat) | NotationPair(item: nat, index: nat)

  /** A gpgme.NewSignature, as the record of its read-only members. */
  function NewSignatureRecord(s: NativeNewSignature): (v: Value)
    ensures v.RecordV? && v.typeName == "gpgme.NewSignature"
    ensures "fpr" in v.fields && (v.fields["fpr"] == NoneV <==> s.fpr.None?) && v.fields["fpr"] == Keys.NullableAscii(s.fpr)
    ensures "type" in v.fields && v.fields["type"] == IntV(s.sigType)
    ensures "pubkey_algo" in v.fields && v.fields["pubkey_algo"] == IntV(s.pubkeyAlgo)
    ensures "hash_algo" in v.fields && v.fields["hash_algo"] == IntV(s.hashAlgo)
    ensures "sig_class" in v.fields && v.fields["sig_class"] == IntV(s.sigClass)
    ensures "timestamp" in v.fields && v.fields["timestamp"] == IntV(s.timestamp)
  {
    var scalars := map[
      "type" := IntV(s.sigType), "pubkey_algo" := IntV(s.pubkeyAlgo),
      "hash_algo" := IntV(s.hashAlgo), "sig_class" := IntV(s.sigClass)];
    var times := map["timestamp" := IntV(s.timestamp)];
    RecordV("gpgme.NewSignature",
      scalars + times + map["fpr" := Keys.NullableAscii(s.fpr)])
  }

  /** One notation as the (name, value) tuple: the name decoded as UTF-8 with
    * replacement, the value as the exact bytes. */
  function NotationValue(n: Notation): (v: Value)
    ensures v.TupleV? && |v.items| == 2
    ensures v.items[1] == BytesV(n.value)
    ensures v.items[0] == StrV(Utf8Decode(n.name)) && |v.items[0].text| <= |n.name|
  {
    TupleV([StrV(Utf8Decode(n.name)), BytesV(n.value)])
  }

  /** The notation pairs of a signature, in list order. */
  function NotationValues(nots: seq<Notation>): (vs: seq<Value>)
    ensures |vs| == |nots|
    ensures forall j :: 0 <= j < |nots| ==> vs[j] == NotationValue(nots[j])
  {
    seq(|nots|, j requires 0 <= j < |nots| => NotationValue(nots[j]))
  }

  /** A gpgme.Signature, as the record of its read-only members. */
  function SignatureRecord(lib: Gpgme, s: NativeSignature): (v: Value)
    ensures v.RecordV? && v.typeName == "gpgme.Signature"
    ensures "fpr" in v.fields && (v.fields["fpr"] == NoneV <==> s.fpr.None?) && v.fields["fpr"] == Keys.NullableAscii(s.fpr)
    ensures "status" in v.fields && (v.fields["status"] == NoneV <==> s.status == NO_ERROR) &&
            v.fields["status"] == Errors.ErrorObject(lib, s.status)
    ensures "validity_reason" in v.fields && (v.fields["validity_reason"] == NoneV <==> s.validityReason == NO_ERROR) &&
            v.fields["validity_reason"] == Errors.ErrorObject(lib, s.validityReason)
    ensures "summary" in v.fields && v.fields["summary"] == IntV(s.summary)
    ensures "timestamp" in v.fields && v.fields["timestamp"] == IntV(s.timestamp)
    ensures "exp_timestamp" in v.fields && v.fields["exp_timestamp"] == IntV(s.expTimestamp)
    ensures "validity" in v.fields && v.fields["validity"] == IntV(s.validity)
    ensures "notations" in v.fields && v.fields["notations"] == ListV(NotationValues(s.notations))
    ensures "wrong_key_usage" in v.fields && v.fields["wrong_key_usage"] == BoolV(s.wrongKeyUsage)
  {
    RecordV("gpgme.Signature", map[
      "summary" := IntV(s.summary), "fpr" := Keys.NullableAscii(s.fpr),
      "status" := Errors.ErrorObject(lib, s.status), "notations" := ListV(NotationValues(s.notations)),
      "timestamp" := IntV(s.timestamp), "exp_timestamp" := IntV(s.expTimestamp),
      "wrong_key_usage" := BoolV(s.wrongKeyUsage), "validity" := IntV(s.validity),
      "validity_reason" := Errors.ErrorObject(lib, s.validityReason)])
  }

  /** pygpgme_newsiglist_new: one NewSignature per native node, in order. A
    * failed allocation, or any exception pending once an item is filled in,
    * drops the whole list. */
  method NewSigListNew(py: Interp, sigs: seq<NativeNewSignature>, fails: set<Site>) returns (r: Option<seq<Value>>)
    modifies py
    ensures r.None? <==>
      (|sigs| > 0 && old(py.pending).Some?) ||
      exists s :: s in fails && !s.NotationPair? && s.item < |sigs|
    ensures r.Some? ==> |r.value| == |sigs| && py.pending == old(py.pending)
    ensures r.Some? ==> forall i :: 0 <= i < |sigs| ==> r.value[i] == NewSignatureRecord(sigs[i])
    ensures r.None? ==> py.pending.Some?
    ensures r.None? && old(py.pending).None? ==> py.pending == Some(NoMemory)
    ensures py.errno == old(py.errno) && py.unraisable == old(py.unraisable)
  {
    var list: seq<Value> := [];
    var i := 0;
    while i < |sigs|
      invariant 0 <= i <= |sigs| && |list| == i
      invariant i > 0 ==> old(py.pending).None?
      invariant forall s :: s in fails && !s.NotationPair? ==> s.item >= i
      invariant forall k :: 0 <= k < i ==> list[k] == NewSignatureRecord(sigs[k])
      invariant py.pending == old(py.pending)
      invariant py.errno == old(py.errno) && py.unraisable == old(py.unraisable)
    {
      if ItemObject(i) in fails {
        py.pending := Some(NoMemory);
        return None;
      }
      var item := NewSignatureRecord(sigs[i]);
      if ItemFields(i) in fails {
        py.pending := Some(NoMemory);
      }
      if py.pending.Some? {
        return None;
      }
      list := list + [item];
      i := i + 1;
    }
    r := Some(list);
  }

  /** The notation loop of pygpgme_siglist_new for item `item`: it appends pairs
    * in order and stops at the first pair that cannot be built, leaving that
    * failure pending. */
  method NotationList(py: Interp, item: nat, nots: seq<Notation>, fails: set<Site>) returns (pairs: seq<Value>)
    modifies py
    ensures |pairs| <= |nots| && pairs == NotationValues(nots)[..|pairs|]
    ensures |pairs| < |nots| ==> NotationPair(item, |pairs|) in fails && py.pending == Some(NoMemory)
    ensures |pairs| == |nots| ==> py.pending == old(py.pending)
    ensures forall j :: 0 <= j < |pairs| ==> NotationPair(item, j) !in fails
    ensures py.errno == old(py.errno) && py.unraisable == old(py.unraisable)
  {
    pairs := [];
    var j := 0;
    while j < |nots|
      invariant 0 <= j <= |nots| && |pairs| == j
      invariant pairs == NotationValues(nots)[..j]
      invariant forall k :: 0 <= k < j ==> NotationPair(item, k) !in fails
      invariant py.pending == old(py.pending)
      invariant py.errno == old(py.errno) && py.unraisable == old(py.unraisable)
    {
      if NotationPair(item, j) in fails {
        py.pending := Some(NoMemory);
        break;
      }
      pairs := pairs + [NotationValue(nots[j])];
      j := j + 1;
    }
  }

  /** Whether an allocation site belongs to the building of this list. */
  predicate SiteWithin(s: Site, sigs: seq<NativeSignature>)
  {
    s.item < |sigs| && (s.NotationPair? ==> s.index < |sigs[s.item].notations|)
  }

  /** pygpgme_siglist_new: one Signature per native node, in order, each with
    * all of its notations. The notation loop can stop early, but only with an
    * exception pending, which the check after the item then turns into the loss
    * of the whole list: a list with a truncated notations member is never
    * returned. */
  method SigListNew(py: Interp, lib: Gpgme, sigs: seq<NativeSignature>, fails: set<Site>) returns (r: Option<seq<Value>>)
    modifies py
    ensures r.None? <==>
      (|sigs| > 0 && old(py.pending).Some?) || exists s :: s in fails && SiteWithin(s, sigs)
    ensures r.Some? ==> |r.value| == |sigs| && py.pending == old(py.pending)
    ensures r.Some? ==> forall i :: 0 <= i < |sigs| ==> r.value[i] == SignatureRecord(lib, sigs[i])
    ensures r.None? ==> py.pending.Some?
    ensures r.None? && old(py.pending).None? ==> py.pending == Some(NoMemory)
    ensures py.errno == old(py.errno) && py.unraisable == old(py.unraisable)
  {
    var list: seq<Value> := [];
    var i := 0;
    while i < |sigs|
      invariant 0 <= i <= |sigs| && |list| == i
      invariant i > 0 ==> old(py.pending).None?
      invariant forall s :: s in fails && s.item < i ==> !SiteWithin(s, sigs)
      invariant forall k :: 0 <= k < i ==> list[k] == SignatureRecord(lib, sigs[k])
      invariant py.pending == old(py.pending)
      invariant py.errno == old(py.errno) && py.unraisable == old(py.unraisable)
    {
      if ItemObject(i) in fails {
        py.pending := Some(NoMemory);
        assert SiteWithin(ItemObject(i), sigs);
        return None;
      }
      var pairs := NotationList(py, i, sigs[i].notations, fails);
      if |pairs| < |sigs[i].notations| {
        assert SiteWithin(NotationPair(i, |pairs|), sigs);
      }
      if ItemFields(i) in fails {
        py.pending := Some(NoMemory);
        assert SiteWithin(ItemFields(i), sigs);
      }
      if py.pending.Some? {
        return None;
      }
      assert |pairs| == |sigs[i].notations|;
      assert pairs == NotationValues(sigs[i].notations);
      var item := SignatureRecord(lib, sigs[i]);
      list := list + [item];
      i := i + 1;
    }
    r := Some(list);
  }
}
