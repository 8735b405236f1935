/** Key wrappers and their child views (src/pygpgme-key.c). A gpgme.Key owns one
  * reference to a native key; Subkey and UserId views point into the key's
  * lists and keep the Key alive; KeySig views point into a user id's list and
  * keep the UserId alive. */
module Keys {
  import opened Base
  import opened Codecs
  import opened GpgError
  import opened Native
  import opened Host
  import Errors

  /** gpgme.Subkey: a view of one node of the key's subkey list. */
  class SubkeyObj {
    var refcnt: int
    var subkey: Option<NativeSubkey>
    var parent: KeyObj?

    constructor (subkey: NativeSubkey, parent: KeyObj)
      ensures this.subkey == Some(subkey) && this.parent == parent && refcnt == 1
    {
      this.subkey := Some(subkey);
      this.parent := parent;
      refcnt := 1;
    }
  }

  /** gpgme.UserId: a view of one node of the key's user id list. */
  class UserIdObj {
    var refcnt: int
    var userId: Option<NativeUserId>
    var parent: KeyObj?

    constructor (userId: NativeUserId, parent: KeyObj)
      ensures this.userId == Some(userId) && this.parent == parent && refcnt == 1
    {
      this.userId := Some(userId);
      this.parent := parent;
      refcnt := 1;
    }
  }

  /** gpgme.KeySig: a view of one signature on a user id. */
  class KeySigObj {
    var refcnt: int
    var keySig: Option<NativeKeySig>
    var parent: UserIdObj?

    constructor (keySig: NativeKeySig, parent: UserIdObj)
      ensures this.keySig == Some(keySig) && this.parent == parent && refcnt == 1
    {
      this.keySig := Some(keySig);
      this.parent := parent;
      refcnt := 1;
    }
  }

  /** pygpgme_key_new: wrap a native key, taking one native reference.
    * allocOk says whether the wrapper object can be allocated. */
  method KeyNew(py: Interp, key: NativeKey, allocOk: bool) returns (k: KeyObj?)
    modifies py, key
    ensures !allocOk ==> k == null && key.refs == old(key.refs) && py.pending == Some(NoMemory)
    ensures allocOk ==> k != null && fresh(k) && k.key == key && k.refcnt == 1
    ensures allocOk ==> key.refs == old(key.refs) + 1 && py.pending == old(py.pending)
    ensures py.errno == old(py.errno) && py.unraisable == old(py.unraisable)
  {
    if !allocOk {
      py.pending := Some(NoMemory);
      return null;
    }
    k := new KeyObj(key);
    key.refs := key.refs + 1;
  }

  /** The Key type's dealloc: give the native reference back. */
  method KeyDealloc(k: KeyObj)
    modifies k, k.key
    ensures k.key == null
    ensures old(k.key) != null ==> old(k.key).refs == old(k.key.refs) - 1
  {
    if k.key != null {
      k.key.refs := k.key.refs - 1;
    }
    k.key := null;
  }

  /** A wrapper made and then deallocated leaves the native count where it was. */
  method KeyLifetime(py: Interp, key: NativeKey) returns (k: KeyObj)
    modifies py, key
    ensures key.refs == old(key.refs)
    ensures k.key == null
  {
    var w := KeyNew(py, key, true);
    k := w;
    KeyDealloc(k);
  }

  /** The Subkey type's dealloc: drop the node and release the parent once. */
  method SubkeyDealloc(s: SubkeyObj)
    modifies s, s.parent
    ensures s.subkey == None && s.parent == null
    ensures old(s.parent) != null ==> old(s.parent).refcnt == old(s.parent.refcnt) - 1
    ensures old(s.parent) != null ==> old(s.parent).key == old(s.parent.key)
  {
    s.subkey := None;
    if s.parent != null {
      s.parent.refcnt := s.parent.refcnt - 1;
    }
    s.parent := null;
  }

  /** The UserId type's dealloc. */
  method UserIdDealloc(u: UserIdObj)
    modifies u, u.parent
    ensures u.userId == None && u.parent == null
    ensures old(u.parent) != null ==> old(u.parent).refcnt == old(u.parent.refcnt) - 1
    ensures old(u.parent) != null ==> old(u.parent).key == old(u.parent.key)
  {
    u.userId := None;
    if u.parent != null {
      u.parent.refcnt := u.parent.refcnt - 1;
    }
    u.parent := null;
  }

  /** The KeySig type's dealloc. */
  method KeySigDealloc(s: KeySigObj)
    modifies s, s.parent
    ensures s.keySig == None && s.parent == null
    ensures old(s.parent) != null ==> old(s.parent).refcnt == old(s.parent.refcnt) - 1
    ensures old(s.parent) != null ==>
      old(s.parent).userId == old(s.parent.userId) && old(s.parent).parent == old(s.parent.parent)
  {
    s.keySig := None;
    if s.parent != null {
      s.parent.refcnt := s.parent.refcnt - 1;
    }
    s.parent := null;
  }

  /** Key.subkeys: a fresh list with one Subkey per native node, in list order,
    * each holding a reference to the Key. Allocation 0 is the list and
    * allocation i+1 the view of node i; a failure drops the partial list, whose
    * views release the Key again, and raises MemoryError. */
  method GetSubkeys(py: Interp, self: KeyObj, oom: set<nat>) returns (r: Option<seq<SubkeyObj>>)
    requires self.key != null
    modifies py, self
    ensures self.key == old(self.key)
    ensures r.None? <==> AnyFails(oom, |self.key.subkeys|)
    ensures r.None? ==> py.pending == Some(NoMemory) && self.refcnt == old(self.refcnt)
    ensures r.Some? ==> py.pending == old(py.pending) && |r.value| == |self.key.subkeys|
    ensures r.Some? ==> self.refcnt == old(self.refcnt) + |r.value|
    ensures r.Some? ==> forall i :: 0 <= i < |r.value| ==>
      fresh(r.value[i]) && r.value[i].subkey == Some(self.key.subkeys[i]) && r.value[i].parent == self
      && r.value[i].refcnt == 1
    ensures py.errno == old(py.errno) && py.unraisable == old(py.unraisable)
  {
    if 0 in oom {
      py.pending := Some(NoMemory);
      return None;
    }
    var nodes := self.key.subkeys;
    var items: seq<SubkeyObj> := [];
    var i := 0;
    while i < |nodes|
      invariant 0 <= i <= |nodes| && |items| == i
      invariant self.key == old(self.key) && py.pending == old(py.pending)
      invariant py.errno == old(py.errno) && py.unraisable == old(py.unraisable)
      invariant forall j :: j in oom ==> j > i
      invariant self.refcnt == old(self.refcnt) + i
      invariant forall a, b :: 0 <= a < b < i ==> items[a] != items[b]
      invariant forall j :: 0 <= j < i ==>
        fresh(items[j]) && items[j].subkey == Some(nodes[j]) && items[j].parent == self && items[j].refcnt == 1
    {
      if i + 1 in oom {
        var k := 0;
        while k < |items|
          invariant 0 <= k <= |items|
          invariant self.refcnt == old(self.refcnt) + i - k && self.key == old(self.key)
          invariant forall j :: k <= j < i ==> items[j].parent == self
          invariant py.errno == old(py.errno) && py.unraisable == old(py.unraisable)
        {
          SubkeyDealloc(items[k]);
          k := k + 1;
        }
        py.pending := Some(NoMemory);
        return None;
      }
      var item := new SubkeyObj(nodes[i], self);
      self.refcnt := self.refcnt + 1;
      items := items + [item];
      i := i + 1;
    }
    r := Some(items);
  }

  /** Key.uids: as Key.subkeys, over the user id list. */
  method GetUids(py: Interp, self: KeyObj, oom: set<nat>) returns (r: Option<seq<UserIdObj>>)
    requires self.key != null
    modifies py, self
    ensures self.key == old(self.key)
    ensures r.None? <==> AnyFails(oom, |self.key.uids|)
    ensures r.None? ==> py.pending == Some(NoMemory) && self.refcnt == old(self.refcnt)
    ensures r.Some? ==> py.pending == old(py.pending) && |r.value| == |self.key.uids|
    ensures r.Some? ==> self.refcnt == old(self.refcnt) + |r.value|
    ensures r.Some? ==> forall i :: 0 <= i < |r.value| ==>
      fresh(r.value[i]) && r.value[i].userId == Some(self.key.uids[i]) && r.value[i].parent == self
      && r.value[i].refcnt == 1
    ensures py.errno == old(py.errno) && py.unraisable == old(py.unraisable)
  {
    if 0 in oom {
      py.pending := Some(NoMemory);
      return None;
    }
    var nodes := self.key.uids;
    var items: seq<UserIdObj> := [];
    var i := 0;
    while i < |nodes|
      invariant 0 <= i <= |nodes| && |items| == i
      invariant self.key == old(self.key) && py.pending == old(py.pending)
      invariant py.errno == old(py.errno) && py.unraisable == old(py.unraisable)
      invariant forall j :: j in oom ==> j > i
      invariant self.refcnt == old(self.refcnt) + i
      invariant forall a, b :: 0 <= a < b < i ==> items[a] != items[b]
      invariant forall j :: 0 <= j < i ==>
        fresh(items[j]) && items[j].userId == Some(nodes[j]) && items[j].parent == self && items[j].refcnt == 1
    {
      if i + 1 in oom {
        var k := 0;
        while k < |items|
          invariant 0 <= k <= |items|
          invariant self.refcnt == old(self.refcnt) + i - k && self.key == old(self.key)
          invariant forall j :: k <= j < i ==> items[j].parent == self
          invariant py.errno == old(py.errno) && py.unraisable == old(py.unraisable)
        {
          UserIdDealloc(items[k]);
          k := k + 1;
        }
        py.pending := Some(NoMemory);
        return None;
      }
      var item := new UserIdObj(nodes[i], self);
      self.refcnt := self.refcnt + 1;
      items := items + [item];
      i := i + 1;
    }
    r := Some(items);
  }

  /** UserId.signatures: one KeySig per signature on the user id, in order; the
    * views hold the UserId, not the Key. */
  method UserIdGetSignatures(py: Interp, self: UserIdObj, oom: set<nat>) returns (r: Option<seq<KeySigObj>>)
    requires self.userId.Some?
    modifies py, self
    ensures self.userId == old(self.userId) && self.parent == old(self.parent)
    ensures r.None? <==> AnyFails(oom, |self.userId.value.signatures|)
    ensures r.None? ==> py.pending == Some(NoMemory) && self.refcnt == old(self.refcnt)
    ensures r.Some? ==> py.pending == old(py.pending) && |r.value| == |self.userId.value.signatures|
    ensures r.Some? ==> self.refcnt == old(self.refcnt) + |r.value|
    ensures r.Some? ==> forall i :: 0 <= i < |r.value| ==>
      fresh(r.value[i]) && r.value[i].keySig == Some(self.userId.value.signatures[i]) && r.value[i].parent == self
      && r.value[i].refcnt == 1
    ensures py.errno == old(py.errno) && py.unraisable == old(py.unraisable)
  {
    if 0 in oom {
      py.pending := Some(NoMemory);
      return None;
    }
    var nodes := self.userId.value.signatures;
    var items: seq<KeySigObj> := [];
    var i := 0;
    while i < |nodes|
      invariant 0 <= i <= |nodes| && |items| == i
      invariant self.userId == old(self.userId) && self.parent == old(self.parent)
      invariant py.pending == old(py.pending)
      invariant py.errno == old(py.errno) && py.unraisable == old(py.unraisable)
      invariant forall j :: j in oom ==> j > i
      invariant self.refcnt == old(self.refcnt) + i
      invariant forall a, b :: 0 <= a < b < i ==> items[a] != items[b]
      invariant forall j :: 0 <= j < i ==>
        fresh(items[j]) && items[j].keySig == Some(nodes[j]) && items[j].parent == self && items[j].refcnt == 1
    {
      if i + 1 in oom {
        var k := 0;
        while k < |items|
          invariant 0 <= k <= |items|
          invariant self.refcnt == old(self.refcnt) + i - k
          invariant self.userId == old(self.userId) && self.parent == old(self.parent)
          invariant forall j :: k <= j < i ==> items[j].parent == self
          invariant py.errno == old(py.errno) && py.unraisable == old(py.unraisable)
        {
          KeySigDealloc(items[k]);
          k := k + 1;
        }
        py.pending := Some(NoMemory);
        return None;
      }
      var item := new KeySigObj(nodes[i], self);
      self.refcnt := self.refcnt + 1;
      items := items + [item];
      i := i + 1;
    }
    r := Some(items);
  }

  /** A nullable C string read through PyUnicode_DecodeASCII(..., "replace"). */
  function NullableAscii(c: CString): (v: Value)
    ensures v == NoneV <==> c.None?
    ensures c.Some? ==> v.StrV? && |v.text| == |c.value|
    ensures c.Some? ==> forall i :: 0 <= i < |c.value| && c.value[i] < 0x80 ==> v.text[i] == c.value[i]
  {
    match c
    case None => NoneV
    case Some(b) => StrV(AsciiDecode(b))
  }

  /** A nullable C string read through PyUnicode_DecodeUTF8(..., "replace"). */
  function NullableUtf8(c: CString): (v: Value)
    ensures v == NoneV <==> c.None?
    ensures c.Some? ==> v.StrV? && |v.text| <= |c.value|
  {
    match c
    case None => NoneV
    case Some(b) => StrV(Utf8Decode(b))
  }

  /** The getters that decode as ASCII (key ids, fingerprints, issuer serial,
    * chain id) and those that decode as UTF-8 agree on pure-ASCII strings. */
  lemma AsciiGettersAgree(c: CString)
    requires c.Some? ==> forall i :: 0 <= i < |c.value| ==> c.value[i] < 0x80
    ensures NullableAscii(c) == NullableUtf8(c)
  {
    if c.Some? {
      AsciiAgreesWithUtf8(c.value);
    }
  }

  /** The attribute table of gpgme.Subkey (the flags and numbers, then the
    * nullable strings). */
  function SubkeyAttrs(s: NativeSubkey): (m: map<string, Value>)
    ensures "keyid" in m && (m["keyid"] == NoneV <==> s.keyid.None?) && m["keyid"] == NullableAscii(s.keyid)
    ensures "fpr" in m && (m["fpr"] == NoneV <==> s.fpr.None?) && m["fpr"] == NullableAscii(s.fpr)
  {
    var scalars := map[
      "revoked" := BoolV(s.revoked), "expired" := BoolV(s.expired),
      "disabled" := BoolV(s.disabled), "invalid" := BoolV(s.invalid),
      "can_encrypt" := BoolV(s.canEncrypt), "can_sign" := BoolV(s.canSign),
      "can_certify" := BoolV(s.canCertify), "secret" := BoolV(s.secret),
      "can_authenticate" := BoolV(s.canAuthenticate), "pubkey_algo" := IntV(s.pubkeyAlgo),
      "length" := IntV(s.length), "timestamp" := IntV(s.timestamp),
      "expires" := IntV(s.expires)];
    scalars + map["keyid" := NullableAscii(s.keyid), "fpr" := NullableAscii(s.fpr)]
  }

  /** The attribute table of gpgme.KeySig: status is None exactly for
    * NO_ERROR, the text fields are nullable. */
  function KeySigAttrs(lib: Gpgme, s: NativeKeySig): (m: map<string, Value>)
    ensures "status" in m && (m["status"] == NoneV <==> s.status == NO_ERROR) && m["status"] == Errors.ErrorObject(lib, s.status)
    ensures "keyid" in m && (m["keyid"] == NoneV <==> s.keyid.None?) && m["keyid"] == NullableAscii(s.keyid)
    ensures "uid" in m && (m["uid"] == NoneV <==> s.uid.None?) && m["uid"] == NullableUtf8(s.uid)
    ensures "name" in m && (m["name"] == NoneV <==> s.name.None?) && m["name"] == NullableUtf8(s.name)
    ensures "email" in m && (m["email"] == NoneV <==> s.email.None?) && m["email"] == NullableUtf8(s.email)
    ensures "comment" in m && (m["comment"] == NoneV <==> s.comment.None?) && m["comment"] == NullableUtf8(s.comment)
  {
    var scalars := map[
      "revoked" := BoolV(s.revoked), "expired" := BoolV(s.expired),
      "invalid" := BoolV(s.invalid), "exportable" := BoolV(s.exportable),
      "pubkey_algo" := IntV(s.pubkeyAlgo), "timestamp" := IntV(s.timestamp),
      "expires" := IntV(s.expires), "sig_class" := IntV(s.sigClass)];
    var status := map["status" := Errors.ErrorObject(lib, s.status)];
    var texts := map[
      "keyid" := NullableAscii(s.keyid), "uid" := NullableUtf8(s.uid),
      "name" := NullableUtf8(s.name), "email" := NullableUtf8(s.email),
      "comment" := NullableUtf8(s.comment)];
    scalars + status + texts
  }

  /** The value attributes of gpgme.UserId ("signatures" builds views, see
    * UserIdGetSignatures). */
  function UserIdAttrs(u: NativeUserId): (m: map<string, Value>)
    ensures "uid" in m && (m["uid"] == NoneV <==> u.uid.None?) && m["uid"] == NullableUtf8(u.uid)
    ensures "name" in m && (m["name"] == NoneV <==> u.name.None?) && m["name"] == NullableUtf8(u.name)
    ensures "email" in m && (m["email"] == NoneV <==> u.email.None?) && m["email"] == NullableUtf8(u.email)
    ensures "comment" in m && (m["comment"] == NoneV <==> u.comment.None?) && m["comment"] == NullableUtf8(u.comment)
  {
    var scalars := map["revoked" := BoolV(u.revoked), "invalid" := BoolV(u.invalid),
                       "validity" := IntV(u.validity)];
    scalars + map["uid" := NullableUtf8(u.uid), "name" := NullableUtf8(u.name),
                  "email" := NullableUtf8(u.email), "comment" := NullableUtf8(u.comment)]
  }

  /** The value attributes of gpgme.Key ("subkeys" and "uids" build views, see
    * GetSubkeys and GetUids). */
  function KeyAttrs(f: KeyFields): (m: map<string, Value>)
    ensures "issuer_serial" in m && (m["issuer_serial"] == NoneV <==> f.issuerSerial.None?) &&
            m["issuer_serial"] == NullableAscii(f.issuerSerial)
    ensures "issuer_name" in m && (m["issuer_name"] == NoneV <==> f.issuerName.None?) &&
            m["issuer_name"] == NullableUtf8(f.issuerName)
    ensures "chain_id" in m && (m["chain_id"] == NoneV <==> f.chainId.None?) && m["chain_id"] == NullableAscii(f.chainId)
  {
    var scalars := map[
      "revoked" := BoolV(f.revoked), "expired" := BoolV(f.expired),
      "disabled" := BoolV(f.disabled), "invalid" := BoolV(f.invalid),
      "can_encrypt" := BoolV(f.canEncrypt), "can_sign" := BoolV(f.canSign),
      "can_certify" := BoolV(f.canCertify), "secret" := BoolV(f.secret),
      "can_authenticate" := BoolV(f.canAuthenticate), "protocol" := IntV(f.protocol),
      "owner_trust" := IntV(f.ownerTrust), "keylist_mode" := IntV(f.keylistMode)];
    scalars + map["issuer_serial" := NullableAscii(f.issuerSerial),
                  "issuer_name" := NullableUtf8(f.issuerName),
                  "chain_id" := NullableAscii(f.chainId)]
  }
}
