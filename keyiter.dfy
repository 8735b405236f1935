/** The gpgme.KeyIter iterator (src/pygpgme-keyiter.c) and its creation by
  * Context.keylist (src/pygpgme-context.c): an iterator holds a reference to its
  * context while the native key listing runs, hands out one Key per native key,
  * and ends the listing when it goes away. */
module KeyIterators {
  import opened Base
  import opened GpgError
  import opened Native
  import opened Host
  import Errors
  import Keys
  import KeyPatterns
  import Contexts

  /** A KeyIter: its own count and the context it lists keys from. */
  class KeyIter {
    var refcnt: int
    var ctx: Contexts.Context?

    constructor (ctx: Contexts.Context)
      ensures this.ctx == ctx && refcnt == 1
    {
      this.ctx := ctx;
      refcnt := 1;
    }

    /** tp_iter: the iterator itself, with a new reference. */
    method Iter() returns (r: KeyIter)
      modifies this
      ensures r == this && refcnt == old(refcnt) + 1 && ctx == old(ctx)
    {
      refcnt := refcnt + 1;
      r := this;
    }

    /** tp_iternext, for what gpgme_op_keylist_next reports: the error, and
      * the key it hands out (with a reference of its own, given up here once
      * the wrapper has taken one). allocOk is whether the wrapper can be
      * allocated. */
    method Next(py: Interp, lib: Gpgme, err: ErrorT, key: NativeKey?, allocOk: bool) returns (r: Option<Value>)
      requires ctx != null
      modifies py, if key != null then {key} else {}
      ensures IsEndOfListing(err) ==> r.None? && py.pending == Some(StopIterationRaised)
      ensures !IsEndOfListing(err) && err != NO_ERROR ==>
        r.None? && py.pending == Some(Errors.ErrorException(lib, err))
      ensures err == NO_ERROR && key == null ==> r == Some(NoneV) && py.pending == old(py.pending)
      ensures err == NO_ERROR && key != null && allocOk ==>
        r.Some? && r.value.KeyV? && fresh(r.value.key) && r.value.key.key == key && r.value.key.refcnt == 1 &&
        key.refs == old(key.refs) + 1 && py.pending == old(py.pending)
      ensures err == NO_ERROR && key != null && !allocOk ==>
        r.None? && key.refs == old(key.refs) && py.pending == Some(NoMemory)
      ensures err != NO_ERROR && key != null ==> key.refs == old(key.refs)
      ensures py.errno == old(py.errno) && py.unraisable == old(py.unraisable)
    {
      if IsEndOfListing(err) {
        py.pending := Some(StopIterationRaised);
        return None;
      }
      var failed := Errors.CheckError(py, lib, err);
      if failed != 0 {
        return None;
      }
      if key == null {
        return Some(NoneV);
      }
      // The reference gpgme_op_keylist_next hands out.
      key.refs := key.refs + 1;
      var w := Keys.KeyNew(py, key, allocOk);
      key.refs := key.refs - 1;
      if w == null {
        return None;
      }
      r := Some(KeyV(w));
    }

    /** tp_dealloc, with endErr what gpgme_op_keylist_end reports: while the
      * iterator holds a context, end the listing once, report a failure as
      * unraisable (never raise it), release the context and forget it. */
    method Dealloc(py: Interp, lib: Gpgme, endErr: ErrorT)
      modifies this, py, ctx
      ensures ctx == null
      ensures old(ctx) != null ==>
        old(ctx).listingsEnded == old(ctx.listingsEnded) + 1 && !old(ctx).listing &&
        old(ctx).refcnt == old(ctx.refcnt) - 1
      ensures old(ctx) != null ==>
        py.unraisable == old(py.unraisable) + (if endErr == NO_ERROR then [] else [Errors.ErrorObject(lib, endErr)])
      ensures old(ctx) == null ==> py.unraisable == old(py.unraisable)
      ensures old(ctx) != null ==>
        old(ctx).signers == old(ctx.signers) && old(ctx).passphrase == old(ctx.passphrase) &&
        old(ctx).progress == old(ctx.progress)
      ensures py.pending == old(py.pending) && py.errno == old(py.errno)
    {
      if ctx != null {
        ctx.listing := false;
        ctx.listingsEnded := ctx.listingsEnded + 1;
        var exc := Errors.ErrorObject(lib, endErr);
        if exc != NoneV {
          py.unraisable := py.unraisable + [exc];
        }
        ctx.refcnt := ctx.refcnt - 1;
        ctx := null;
      }
    }
  }

  /** The exception PyErr_SetNone(PyExc_StopIteration) raises. */
  const StopIterationRaised: Exception := Exception(StopIterationClass, Some(TupleV([])), map[])

  /** Whether keylist_next's error ends the iteration: GPGME's own EOF, and no
    * other source's. */
  predicate IsEndOfListing(err: ErrorT)
  {
    ErrSource(err) == GPG_ERR_SOURCE_GPGME && ErrCode(err) == GPG_ERR_EOF
  }

  /** Only GPGME's EOF stops the iteration: an EOF code from any other source
    * is an error to raise. */
  lemma {:induction false} OnlyGpgmeEofStops(source: int)
    requires 0 <= source < SOURCE_DIM && source != GPG_ERR_SOURCE_GPGME
    ensures ErrMake(source, GPG_ERR_EOF) != NO_ERROR
    ensures !IsEndOfListing(ErrMake(source, GPG_ERR_EOF))
    ensures IsEndOfListing(ErrMake(GPG_ERR_SOURCE_GPGME, GPG_ERR_EOF))
  {
    MakeFieldsOnly(source, GPG_ERR_EOF);
    MakeFieldsOnly(GPG_ERR_SOURCE_GPGME, GPG_ERR_EOF);
  }

  /** Context.keylist: parse the patterns (allocation failures in oom), start
    * the native listing (startErr is what the engine reports), free the
    * patterns, check the error, then make the iterator (allocOk) holding a new
    * reference to the context. The pattern array never outlives the call. */
  method Keylist(py: Interp, lib: Gpgme, heap: CHeap, self: Contexts.Context, pattern: Value, oom: set<nat>,
                 startErr: ErrorT, allocOk: bool) returns (it: KeyIter?)
    modifies py, heap, self
    ensures heap.live == old(heap.live)
    ensures KeyPatterns.ParsePatterns(pattern, oom).Fails? ==>
      it == null && py.pending == Some(KeyPatterns.ParsePatterns(pattern, oom).exc) &&
      self.listing == old(self.listing)
    ensures !KeyPatterns.ParsePatterns(pattern, oom).Fails? && startErr != NO_ERROR ==>
      it == null && py.pending == Some(Errors.ErrorException(lib, startErr))
    ensures !KeyPatterns.ParsePatterns(pattern, oom).Fails? && startErr == NO_ERROR ==>
      self.listing && (it != null <==> allocOk)
    ensures it == null ==> self.refcnt == old(self.refcnt)
    ensures it != null ==>
      fresh(it) && it.ctx == self && it.refcnt == 1 && self.refcnt == old(self.refcnt) + 1 &&
      py.pending == old(py.pending)
    ensures !allocOk && !KeyPatterns.ParsePatterns(pattern, oom).Fails? && startErr == NO_ERROR ==>
      py.pending == Some(NoMemory)
    ensures self.signers == old(self.signers) && self.passphrase == old(self.passphrase) &&
            self.progress == old(self.progress) && self.listingsEnded == old(self.listingsEnded)
    ensures py.errno == old(py.errno) && py.unraisable == old(py.unraisable)
  {
    var rc, patterns := KeyPatterns.ParseKeyPatterns(py, heap, pattern, oom);
    if rc < 0 {
      return null;
    }
    if startErr == NO_ERROR {
      self.listing := true;
    }
    if patterns != null {
      var _ := KeyPatterns.FreeKeyPatterns(heap, patterns);
    }
    var failed := Errors.CheckError(py, lib, startErr);
    if failed != 0 {
      return null;
    }
    if !allocOk {
      py.pending := Some(NoMemory);
      return null;
    }
    it := new KeyIter(self);
    self.refcnt := self.refcnt + 1;
  }

  /** An iterator made by keylist for any pattern it accepts, and then
    * deallocated, ends the listing it started exactly once, leaves the
    * context's count where it was and leaves no pattern memory behind. */
  method ListingLifetime(py: Interp, lib: Gpgme, heap: CHeap, self: Contexts.Context, pattern: Value, oom: set<nat>,
                         endErr: ErrorT)
    returns (it: KeyIter)
    requires !KeyPatterns.ParsePatterns(pattern, oom).Fails?
    modifies py, heap, self
    ensures self.refcnt == old(self.refcnt)
    ensures self.listingsEnded == old(self.listingsEnded) + 1 && !self.listing
    ensures it.ctx == null && heap.live == old(heap.live)
  {
    var made := Keylist(py, lib, heap, self, pattern, oom, NO_ERROR, true);
    it := made;
    it.Dealloc(py, lib, endErr);
  }
}
