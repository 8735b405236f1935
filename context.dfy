/** The gpgme.Context object (src/pygpgme-context.c): the callback slots it
  * keeps in the native context, the signer list, the recipient array handed to
  * the encryption calls, and the two callbacks the native library calls back. */
module Contexts {
  import opened Base
  import opened GpgError
  import opened Native
  import opened Host
  import Errors
  import Keys

  /** A callback slot of the native context: empty, holding a Python object the
    * binding installed (with the reference it took), or holding a callback that
    * some other code installed natively. */
  datatype Slot = Unset | Installed(callback: Value) | Foreign

  /** The two slots: passphrase_cb and progress_cb. */
  datatype SlotKind = Passphrase | Progress

  /** Whether Py_INCREF/Py_DECREF of v changes a count this model tracks. */
  predicate HasIdentity(v: Value) { v.KeyV? || v.ObjV? }

  /** A gpgme.Context wrapping a gpgme_ctx_t. */
  class Context {
    var refcnt: int
    /** Whether the native context exists (self->ctx != NULL). */
    var native: bool
    var passphrase: Slot
    var progress: Slot
    /** The native signer list, in order. */
    var signers: seq<NativeKey>
    /** Whether a native key listing is in progress, and how many times one
      * was ended. */
    var listing: bool
    var listingsEnded: nat

    constructor ()
      ensures refcnt == 1 && native && passphrase == Unset && progress == Unset
      ensures signers == [] && !listing && listingsEnded == 0
    {
      refcnt := 1;
      native := true;
      passphrase := Unset;
      progress := Unset;
      signers := [];
      listing := false;
      listingsEnded := 0;
    }

    function SlotOf(kind: SlotKind): Slot
      reads this
    {
      if kind == Passphrase then passphrase else progress
    }

    /** The object whose count the slot's reference lives in. */
    function SlotObjects(kind: SlotKind): set<object>
      reads this
    {
      if SlotOf(kind).Installed? then Tracked(SlotOf(kind).callback) else {}
    }

    /** How many slots hold the binding's reference to v. */
    function Holders(v: Value): nat
      reads this
    {
      (if passphrase == Installed(v) then 1 else 0) + (if progress == Installed(v) then 1 else 0)
    }

    /** The getter of passphrase_cb / progress_cb: the installed object, with a
      * new reference for the caller, or None. */
    method GetCallback(kind: SlotKind) returns (r: Value)
      modifies SlotObjects(kind)
      ensures r == (if SlotOf(kind).Installed? then SlotOf(kind).callback else NoneV)
      ensures SlotOf(kind).Installed? && HasIdentity(r) ==> RefCount(r) == old(RefCount(r)) + 1
    {
      if SlotOf(kind).Installed? {
        r := SlotOf(kind).callback;
        Incref(r);
      } else {
        r := NoneV;
      }
    }

    /** The setter of passphrase_cb / progress_cb (value None is deletion of the
      * attribute): release the old callback only when the binding installed
      * it, then install value with a new reference, or clear the slot for None
      * and deletion. The other slot is left alone. */
    method SetCallback(kind: SlotKind, value: Option<Value>) returns (rc: int)
      modifies this, SlotObjects(kind), if value.Some? then Tracked(value.value) else {}
      ensures rc == 0
      ensures value.None? || value == Some(NoneV) ==> SlotOf(kind) == Unset
      ensures value.Some? && value != Some(NoneV) ==> SlotOf(kind) == Installed(value.value)
      ensures kind == Passphrase ==> progress == old(progress)
      ensures kind == Progress ==> passphrase == old(passphrase)
      ensures signers == old(signers) && refcnt == old(refcnt) && native == old(native)
      ensures listing == old(listing) && listingsEnded == old(listingsEnded)
      ensures value.Some? && HasIdentity(value.value) ==>
        RefCount(value.value) ==
          old(RefCount(value.value)) + 1 - (if old(SlotOf(kind)) == Installed(value.value) then 1 else 0)
      ensures old(SlotOf(kind)).Installed? && HasIdentity(old(SlotOf(kind)).callback) &&
              value != Some(old(SlotOf(kind)).callback) ==>
        RefCount(old(SlotOf(kind)).callback) == old(RefCount(SlotOf(kind).callback)) - 1
    {
      var previous := SlotOf(kind);
      if previous.Installed? {
        Decref(previous.callback);
      }
      var next := Unset;
      if value.Some? && value.value != NoneV {
        Incref(value.value);
        next := Installed(value.value);
      }
      if kind == Passphrase {
        passphrase := next;
      } else {
        progress := next;
      }
      rc := 0;
    }

    /** The Context type's dealloc: release what the binding installed in
      * either slot, then the native context. */
    method Dealloc()
      modifies this, SlotObjects(Passphrase), SlotObjects(Progress)
      ensures !native && passphrase == Unset && progress == Unset
      ensures old(native) && old(passphrase).Installed? && HasIdentity(old(passphrase).callback) ==>
        RefCount(old(passphrase).callback) == old(RefCount(passphrase.callback)) - old(Holders(passphrase.callback))
      ensures old(native) && old(progress).Installed? && HasIdentity(old(progress).callback) ==>
        RefCount(old(progress).callback) == old(RefCount(progress.callback)) - old(Holders(progress.callback))
    {
      if native {
        if passphrase.Installed? {
          Decref(passphrase.callback);
        }
        if progress.Installed? {
          Decref(progress.callback);
        }
      }
      passphrase := Unset;
      progress := Unset;
      native := false;
    }

    /** The signers getter: a tuple with one fresh Key wrapper per native
      * signer, in order. Allocation i (i < |signers|) is the wrapper for signer
      * i and allocation |signers| the tuple; a failure releases the wrappers
      * made so far and returns NULL with MemoryError. Each wrapper keeps the
      * native reference signers_enum handed out. */
    method GetSigners(py: Interp, oom: set<nat>) returns (r: Option<Value>)
      modifies py, set k | k in signers
      ensures r.None? <==> AnyFails(oom, |signers|)
      ensures r.None? ==> py.pending == Some(NoMemory)
      ensures r.None? ==> forall k :: k in signers ==> k.refs == old(k.refs)
      ensures r.Some? ==> py.pending == old(py.pending)
      ensures r.Some? ==> r.value.TupleV? && |r.value.items| == |signers|
      ensures r.Some? ==> forall i :: 0 <= i < |signers| ==>
        r.value.items[i].KeyV? && fresh(r.value.items[i].key) &&
        r.value.items[i].key.key == signers[i] && r.value.items[i].key.refcnt == 1
      ensures r.Some? ==> forall k :: k in signers ==> k.refs == old(k.refs) + multiset(signers)[k]
      ensures py.errno == old(py.errno) && py.unraisable == old(py.unraisable)
    {
      var wrappers: seq<KeyObj> := [];
      var i := 0;
      while i < |signers|
        invariant 0 <= i <= |signers| && |wrappers| == i
        invariant forall j :: j in oom ==> j >= i
        invariant forall a, b :: 0 <= a < b < i ==> wrappers[a] != wrappers[b]
        invariant forall j :: 0 <= j < i ==>
          fresh(wrappers[j]) && wrappers[j].key == signers[j] && wrappers[j].refcnt == 1
        invariant forall k :: k in signers ==> k.refs == old(k.refs) + multiset(signers[..i])[k]
        invariant py.pending == old(py.pending)
        invariant py.errno == old(py.errno) && py.unraisable == old(py.unraisable)
      {
        var key := signers[i];
        // gpgme_signers_enum hands out a reference.
        key.refs := key.refs + 1;
        var w := Keys.KeyNew(py, key, i !in oom);
        key.refs := key.refs - 1;
        if w == null {
          ReleaseWrappers(wrappers);
          return None;
        }
        assert signers[..i + 1] == signers[..i] + [key];
        wrappers := wrappers + [w];
        i := i + 1;
      }
      assert signers[..i] == signers;
      if |signers| in oom {
        ReleaseWrappers(wrappers);
        py.pending := Some(NoMemory);
        return None;
      }
      r := Some(TupleV(seq(|wrappers|, j requires 0 <= j < |wrappers| => KeyV(wrappers[j]))));
    }

    /** Dropping the partial list deallocates its wrappers, each giving its
      * native reference back. */
    method ReleaseWrappers(wrappers: seq<KeyObj>)
      requires |wrappers| <= |signers|
      requires forall a, b :: 0 <= a < b < |wrappers| ==> wrappers[a] != wrappers[b]
      requires forall j :: 0 <= j < |wrappers| ==> wrappers[j].key == signers[j]
      modifies set w | w in wrappers, set k | k in signers
      ensures forall j :: 0 <= j < |wrappers| ==> wrappers[j].key == null
      ensures forall k :: k in signers ==>
        k.refs == old(k.refs) - multiset(signers[..|wrappers|])[k]
    {
      var n := |wrappers|;
      var j := 0;
      while j < n
        invariant 0 <= j <= n
        invariant forall a :: 0 <= a < j ==> wrappers[a].key == null
        invariant forall a :: j <= a < n ==> wrappers[a].key == signers[a]
        invariant forall k :: k in signers ==> k.refs == old(k.refs) - multiset(signers[..j])[k]
      {
        assert signers[..j + 1] == signers[..j] + [signers[j]];
        Keys.KeyDealloc(wrappers[j]);
        j := j + 1;
      }
    }

    /** The part of the signers setter after the argument is known to be a
      * sequence: clear the native list, then add each Key's native key until
      * the first item that is not a Key. */
    method ReplaceSigners(items: seq<Value>) returns (ok: bool)
      modifies this
      ensures signers == KeysOf(items[..FirstNonKey(items)])
      ensures ok <==> FirstNonKey(items) == |items|
      ensures passphrase == old(passphrase) && progress == old(progress)
      ensures refcnt == old(refcnt) && native == old(native)
      ensures listing == old(listing) && listingsEnded == old(listingsEnded)
    {
      signers := [];
      var i := 0;
      while i < |items|
        invariant 0 <= i <= |items|
        invariant forall j :: 0 <= j < i ==> items[j].KeyV?
        invariant signers == KeysOf(items[..i])
        invariant passphrase == old(passphrase) && progress == old(progress)
        invariant refcnt == old(refcnt) && native == old(native)
        invariant listing == old(listing) && listingsEnded == old(listingsEnded)
      {
        assert items[..i + 1][..i] == items[..i];
        if !items[i].KeyV? {
          FirstNonKeyIsFirst(items, i);
          return false;
        }
        // gpgme_signers_add refuses a NULL key.
        if items[i].key.key != null {
          signers := signers + [items[i].key.key];
        }
        i := i + 1;
      }
      assert items[..i] == items;
      FirstNonKeyIsFirst(items, |items|);
      ok := true;
    }

    /** The signers setter. Deleting the attribute is refused; an argument that
      * is not a sequence is refused before the native list changes; otherwise
      * the native list is cleared and the keys are added in order, so a
      * non-Key item leaves the keys before it added (the update is not atomic). */
    method SetSigners(py: Interp, value: Option<Value>) returns (rc: int)
      modifies this, py
      ensures rc == 0 || rc == -1
      ensures value.None? ==>
        rc == -1 && signers == old(signers) && py.pending == Some(RaisedWith(AttributeErrorClass, "Can not delete attribute"))
      ensures value.Some? && AsSequence(value.value).None? ==>
        rc == -1 && signers == old(signers) && py.pending == Some(SignersTypeError)
      ensures value.Some? && AsSequence(value.value).Some? ==>
        var items := AsSequence(value.value).value;
        var k := FirstNonKey(items);
        signers == KeysOf(items[..k]) && (rc == 0 <==> k == |items|) &&
        py.pending == (if rc == 0 then old(py.pending) else Some(SignersTypeError))
      ensures passphrase == old(passphrase) && progress == old(progress)
      ensures refcnt == old(refcnt) && native == old(native)
      ensures listing == old(listing) && listingsEnded == old(listingsEnded)
      ensures py.errno == old(py.errno) && py.unraisable == old(py.unraisable)
    {
      if value.None? {
        py.pending := Some(RaisedWith(AttributeErrorClass, "Can not delete attribute"));
        return -1;
      }
      var list := AsSequence(value.value);
      if list.None? {
        py.pending := Some(SignersTypeError);
        return -1;
      }
      var ok := ReplaceSigners(list.value);
      if !ok {
        py.pending := Some(SignersTypeError);
        return -1;
      }
      rc := 0;
    }
  }

  const SignersTypeError: Exception := RaisedWith(TypeErrorClass, "signers must be a sequence of keys")

  /** The index of the first item that is not a Key (the length when all are). */
  function FirstNonKey(items: seq<Value>): (k: nat)
    ensures k <= |items|
    ensures forall j :: 0 <= j < k ==> items[j].KeyV?
    ensures k < |items| ==> !items[k].KeyV?
  {
    if items == [] || !items[0].KeyV? then 0 else 1 + FirstNonKey(items[1..])
  }

  /** Any index i whose predecessors are Keys and which is either the end or a
    * non-Key is the one FirstNonKey finds. */
  lemma FirstNonKeyIsFirst(items: seq<Value>, i: nat)
    requires i <= |items|
    requires forall j :: 0 <= j < i ==> items[j].KeyV?
    requires i < |items| ==> !items[i].KeyV?
    ensures FirstNonKey(items) == i
  {
  }

  /** The native keys the Key items carry, in order; a wrapper without a key
    * (one already deallocated) contributes nothing. */
  function KeysOf(items: seq<Value>): (ks: seq<NativeKey>)
    reads set v | v in items && v.KeyV? :: v.key
    ensures |ks| <= |items|
  {
    if items == [] then []
    else
      var last := items[|items| - 1];
      KeysOf(items[..|items| - 1]) + (if last.KeyV? && last.key.key != null then [last.key.key] else [])
  }

  /** Live Key wrappers give one native key each, in the same order. */
  lemma {:induction false} LiveKeysInOrder(items: seq<Value>)
    requires forall j :: 0 <= j < |items| ==> items[j].KeyV? && items[j].key.key != null
    ensures |KeysOf(items)| == |items|
    ensures forall j :: 0 <= j < |items| ==> KeysOf(items)[j] == items[j].key.key
  {
    if items != [] {
      var front := items[..|items| - 1];
      LiveKeysInOrder(front);
    }
  }

  /** The recipient argument: None (where allowed) gives NULL, for symmetric
    * encryption; otherwise a sequence whose items must all be Keys. The
    * array holds their native keys in order and a NULL terminator; a non-Key
    * raises TypeError before any native call, and the array is freed. */
  method BuildRecipients(py: Interp, heap: CHeap, recp: Value, noneAllowed: bool)
    returns (ok: bool, arr: array?<NativeKey?>)
    modifies py, heap
    ensures noneAllowed && recp == NoneV ==> ok && arr == null
    ensures !(noneAllowed && recp == NoneV) && AsSequence(recp).None? ==>
      !ok && py.pending == Some(RecipientsNotSequence(noneAllowed))
    ensures !(noneAllowed && recp == NoneV) && AsSequence(recp).Some? ==>
      var items := AsSequence(recp).value;
      (ok <==> FirstNonKey(items) == |items|) &&
      (!ok ==> py.pending == Some(RecipientTypeError))
    ensures ok && arr != null ==>
      var items := AsSequence(recp).value;
      fresh(arr) && arr.Length == |items| + 1 && arr[|items|] == null &&
      (forall i :: 0 <= i < |items| ==> arr[i] == items[i].key.key) &&
      heap.live == old(heap.live) + 1
    ensures !ok ==> arr == null && heap.live == old(heap.live)
    ensures ok ==> py.pending == old(py.pending)
    ensures arr == null ==> heap.live == old(heap.live)
    ensures py.errno == old(py.errno) && py.unraisable == old(py.unraisable)
  {
    if noneAllowed && recp == NoneV {
      return true, null;
    }
    var list := AsSequence(recp);
    if list.None? {
      py.pending := Some(RecipientsNotSequence(noneAllowed));
      return false, null;
    }
    var items := list.value;
    var keys := new NativeKey?[|items| + 1];
    heap.live := heap.live + 1;
    var i := 0;
    while i < |items|
      invariant 0 <= i <= |items|
      invariant forall j :: 0 <= j < i ==> items[j].KeyV? && keys[j] == items[j].key.key
      invariant heap.live == old(heap.live) + 1
      invariant py.pending == old(py.pending)
      invariant py.errno == old(py.errno) && py.unraisable == old(py.unraisable)
    {
      if !items[i].KeyV? {
        FirstNonKeyIsFirst(items, i);
        py.pending := Some(RecipientTypeError);
        heap.live := heap.live - 1;
        return false, null;
      }
      keys[i] := items[i].key.key;
      i := i + 1;
    }
    keys[i] := null;
    FirstNonKeyIsFirst(items, i);
    return true, keys;
  }

  /** The TypeError for a recipient argument that is not a sequence; encrypt
    * also accepts None and says so. */
  function RecipientsNotSequence(noneAllowed: bool): Exception
  {
    RaisedWith(TypeErrorClass, if noneAllowed then "first argument must be a sequence or None"
                               else "first argument must be a sequence")
  }

  const RecipientTypeError: Exception := RaisedWith(TypeErrorClass, "items in first argument must be gpgme.Key objects")

  /** The error the passphrase callback hands back to the engine for the outcome
    * of calling the Python callable: none when it returns, otherwise the
    * translation of what it raised. */
  function PassphraseError(lib: Gpgme, outcome: CallOutcome): (err: ErrorT)
    ensures outcome.Returned? ==> err == NO_ERROR
    ensures outcome.Raised? && outcome.exc.cls != GpgmeErrorClass && outcome.exc.cls != OSErrorClass ==>
      err == GpgmeErrorOf(GPG_ERR_GENERAL)
  {
    Errors.PendingToError(lib, if outcome.Raised? then Some(outcome.exc) else None)
  }

  /** pygpgme_passphrase_cb: call the callable, then check_pyerror. */
  method PassphraseCb(py: Interp, lib: Gpgme, outcome: CallOutcome) returns (err: ErrorT)
    requires py.pending.None?
    modifies py
    ensures err == PassphraseError(lib, outcome)
    ensures py.pending.None?
    ensures py.errno == old(py.errno) && py.unraisable == old(py.unraisable)
  {
    if outcome.Raised? {
      py.pending := Some(outcome.exc);
    }
    err := Errors.CheckPyError(py, lib);
  }

  /** A callback raising GpgmeError(source, ERR_CANCELED), as error_object
    * builds it, cancels the operation: the engine sees ERR_CANCELED. */
  lemma {:induction false} CancelAbortsOperation(lib: Gpgme, source: int)
    requires 0 <= source < SOURCE_DIM
    ensures var err := PassphraseError(lib, Raised(Errors.ErrorException(lib, ErrMake(source, GPG_ERR_CANCELED))));
            ErrCode(err) == GPG_ERR_CANCELED && ErrSource(err) == source
  {
    var e := ErrMake(source, GPG_ERR_CANCELED);
    Errors.RoundTrip(lib, e);
  }

  /** pygpgme_progress_cb: call the callable and discard whatever it raised. */
  method ProgressCb(py: Interp, outcome: CallOutcome)
    modifies py
    ensures py.pending.None?
    ensures py.errno == old(py.errno) && py.unraisable == old(py.unraisable)
  {
    if outcome.Raised? {
      py.pending := Some(outcome.exc);
    }
    py.pending := None;
  }
}
