/** The stream adapter (src/pygpgme-data.c): a native data object whose read,
  * write, seek and release callbacks talk to a Python file-like object. The
  * file's methods are code the binding cannot see; each is a parameter giving
  * the outcome of the call for the arguments the adapter passes. */
module Data {
  import opened Base
  import opened GpgError
  import opened Host
  import Errors

  const EINVAL: int := 22

  /** CPython's complaint when an int does not fit a C long. */
  const LongOverflow: Exception := RaisedWith(OverflowErrorClass, "Python int too large to convert to C long")

  /** What set_errno leaves behind: the errno it stores and the exception still
    * pending afterwards. */
  datatype ErrnoOutcome = ErrnoOutcome(errno: int, pending: Option<Exception>)

  /** The errno set_errno derives from an exception: an OSError's `errno`
    * attribute when it is an int (through a C long into the C int errno),
    * otherwise EINVAL. The fetched exception is always dropped; only a long
    * overflow leaves an OverflowError pending. */
  function ErrnoFor(exc: Exception): (r: ErrnoOutcome)
    ensures exc.cls != OSErrorClass ==> r == ErrnoOutcome(EINVAL, None)
    ensures exc.cls == OSErrorClass && ("errno" !in exc.attrs || !IsPyInt(exc.attrs["errno"])) ==>
              r == ErrnoOutcome(EINVAL, None)
    ensures (exc.cls == OSErrorClass && "errno" in exc.attrs && IsPyInt(exc.attrs["errno"])
             && -0x8000_0000 <= PyIntValue(exc.attrs["errno"]) < 0x8000_0000) ==>
              r == ErrnoOutcome(PyIntValue(exc.attrs["errno"]), None)
    ensures r.pending.Some? ==> r.pending == Some(LongOverflow) && r.errno == -1
  {
    if exc.cls == OSErrorClass && "errno" in exc.attrs && IsPyInt(exc.attrs["errno"]) then
      var n := PyIntValue(exc.attrs["errno"]);
      ErrnoOutcome(ToCInt(AsLong(n)), if FitsLong(n) then None else Some(LongOverflow))
    else ErrnoOutcome(EINVAL, None)
  }

  /** set_errno: fetch the pending exception and turn it into errno. */
  method SetErrno(py: Interp)
    requires py.pending.Some?
    modifies py
    ensures py.errno == ErrnoFor(old(py.pending.value)).errno
    ensures py.pending == ErrnoFor(old(py.pending.value)).pending
    ensures py.unraisable == old(py.unraisable)
  {
    var exc := py.pending.value;
    py.pending := None;
    if exc.cls == OSErrorClass {
      if "errno" in exc.attrs && IsPyInt(exc.attrs["errno"]) {
        var n := PyIntValue(exc.attrs["errno"]);
        if !FitsLong(n) {
          py.pending := Some(LongOverflow);
        }
        py.errno := ToCInt(AsLong(n));
      } else {
        py.errno := EINVAL;
      }
    } else {
      py.errno := EINVAL;
    }
  }

  /** The value read_cb returns for a call of read(size) with the given outcome:
    * -1 unless a bytes object came back, else its length clamped to size. */
  function ReadCount(size: nat, outcome: CallOutcome): (n: int)
    ensures n == -1 <==> !(outcome.Returned? && outcome.value.BytesV?)
    ensures n != -1 ==> 0 <= n <= size && n <= |outcome.value.data|
    ensures n != -1 ==> n == size || n == |outcome.value.data|
  {
    if outcome.Returned? && outcome.value.BytesV? then
      if |outcome.value.data| > size then size else |outcome.value.data|
    else -1
  }

  /** read_cb: call fp.read(size) and copy what it returns (at most size bytes)
    * into the native buffer. */
  method ReadCb(py: Interp, size: nat, read: int -> CallOutcome, buffer: array<byte>) returns (n: int)
    requires size <= buffer.Length
    modifies py, buffer
    ensures n == ReadCount(size, read(size))
    ensures n >= 0 ==> buffer[..n] == read(size).value.data[..n] && buffer[n..] == old(buffer[n..])
    ensures n < 0 ==> buffer[..] == old(buffer[..])
    ensures read(size).Raised? ==>
      py.errno == ErrnoFor(read(size).exc).errno && py.pending == ErrnoFor(read(size).exc).pending
    ensures read(size).Returned? && !read(size).value.BytesV? ==>
      py.errno == EINVAL && py.pending == old(py.pending)
    ensures n >= 0 ==> py.errno == old(py.errno) && py.pending == old(py.pending)
    ensures py.unraisable == old(py.unraisable)
  {
    var result := read(size);
    if result.Raised? {
      py.pending := Some(result.exc);
      SetErrno(py);
      return -1;
    }
    if !result.value.BytesV? {
      py.errno := EINVAL;
      return -1;
    }
    var data := result.value.data;
    n := |data|;
    if n > size {
      n := size;
    }
    forall i | 0 <= i < n {
      buffer[i] := data[i];
    }
  }

  /** The value write_cb returns: the whole size when both the bytes object could
    * be made and fp.write accepted it (whatever write returned), else -1. */
  function WriteCount(size: nat, bufferOk: bool, outcome: CallOutcome): (n: int)
    ensures n == size <==> bufferOk && outcome.Returned?
    ensures n != size ==> n == -1
  {
    if bufferOk && outcome.Returned? then size else -1
  }

  /** write_cb: wrap the native buffer in a bytes object (bufferOk is whether
    * that allocation succeeds) and pass it to fp.write. */
  method WriteCb(py: Interp, data: seq<byte>, bufferOk: bool, write: Value -> CallOutcome) returns (n: int)
    modifies py
    ensures n == WriteCount(|data|, bufferOk, write(BytesV(data)))
    ensures !bufferOk ==> py.errno == EINVAL && py.pending == None
    ensures bufferOk && write(BytesV(data)).Raised? ==>
      py.errno == ErrnoFor(write(BytesV(data)).exc).errno && py.pending == ErrnoFor(write(BytesV(data)).exc).pending
    ensures n >= 0 ==> py.errno == old(py.errno) && py.pending == old(py.pending)
    ensures py.unraisable == old(py.unraisable)
  {
    if !bufferOk {
      py.pending := Some(NoMemory);
      SetErrno(py);
      return -1;
    }
    var result := write(BytesV(data));
    if result.Raised? {
      py.pending := Some(result.exc);
      SetErrno(py);
      return -1;
    }
    return |data|;
  }

  /** The offset seek_cb returns: fp.tell()'s int after a successful
    * fp.seek(offset, whence), through a C long; -1 on any failure. */
  function SeekOffset(seekOutcome: CallOutcome, tellOutcome: CallOutcome): (pos: int)
    ensures pos != -1 ==> seekOutcome.Returned? && tellOutcome.Returned? && IsPyInt(tellOutcome.value)
                          && pos == PyIntValue(tellOutcome.value)
    ensures seekOutcome.Raised? || tellOutcome.Raised? || !IsPyInt(tellOutcome.value) ==> pos == -1
    ensures seekOutcome.Returned? && tellOutcome.Returned? && IsPyInt(tellOutcome.value) ==>
              pos == (if FitsLong(PyIntValue(tellOutcome.value)) then PyIntValue(tellOutcome.value) else -1)
  {
    if seekOutcome.Raised? || tellOutcome.Raised? || !IsPyInt(tellOutcome.value) then -1
    else AsLong(PyIntValue(tellOutcome.value))
  }

  /** seek_cb: fp.seek(offset, whence) then fp.tell(). */
  method SeekCb(py: Interp, offset: int, whence: int, seek: (int, int) -> CallOutcome, tell: CallOutcome)
    returns (pos: int)
    modifies py
    ensures pos == SeekOffset(seek(offset, whence), tell)
    ensures seek(offset, whence).Raised? ==>
      py.errno == ErrnoFor(seek(offset, whence).exc).errno && py.pending == ErrnoFor(seek(offset, whence).exc).pending
    ensures seek(offset, whence).Returned? && tell.Raised? ==>
      py.errno == ErrnoFor(tell.exc).errno && py.pending == ErrnoFor(tell.exc).pending
    ensures seek(offset, whence).Returned? && tell.Returned? && !IsPyInt(tell.value) ==>
      py.errno == EINVAL && py.pending == old(py.pending)
    ensures seek(offset, whence).Returned? && tell.Returned? && IsPyInt(tell.value) ==>
      py.errno == old(py.errno) &&
      py.pending == (if FitsLong(PyIntValue(tell.value)) then old(py.pending) else Some(LongOverflow))
    ensures py.unraisable == old(py.unraisable)
  {
    var result := seek(offset, whence);
    if result.Raised? {
      py.pending := Some(result.exc);
      SetErrno(py);
      return -1;
    }
    if tell.Raised? {
      py.pending := Some(tell.exc);
      SetErrno(py);
      return -1;
    }
    if !IsPyInt(tell.value) {
      py.errno := EINVAL;
      return -1;
    }
    var n := PyIntValue(tell.value);
    if !FitsLong(n) {
      py.pending := Some(LongOverflow);
    }
    pos := AsLong(n);
  }

  /** A gpgme_data_t built on the callbacks above: it holds one reference to the
    * file object until the engine releases it. */
  class DataHandle {
    const file: Value
    var released: bool

    constructor (file: Value)
      ensures this.file == file && !released
    {
      this.file := file;
      released := false;
    }
  }

  /** pygpgme_data_new: None gives no data object; otherwise create one around
    * fp (nativeErr is what gpgme_data_new_from_cbs reports) and, on success,
    * give it a reference to fp. */
  method DataNew(py: Interp, lib: Gpgme, fp: Value, nativeErr: ErrorT) returns (rc: int, dh: DataHandle?)
    modifies py, Tracked(fp)
    ensures rc == 0 || rc == -1
    ensures fp == NoneV ==> rc == 0 && dh == null && py.pending == old(py.pending)
    ensures fp != NoneV && nativeErr != NO_ERROR ==>
      rc == -1 && dh == null && py.pending == Some(Errors.ErrorException(lib, nativeErr))
    ensures fp != NoneV ==> (rc == 0 <==> nativeErr == NO_ERROR)
    ensures rc == 0 && fp != NoneV ==> nativeErr == NO_ERROR && py.pending == old(py.pending)
    ensures rc == 0 && fp != NoneV ==> dh != null && fresh(dh) && dh.file == fp && !dh.released
    ensures rc == 0 && fp != NoneV && (fp.KeyV? || fp.ObjV?) ==> RefCount(fp) == old(RefCount(fp)) + 1
    ensures rc != 0 || fp == NoneV ==> RefCount(fp) == old(RefCount(fp))
    ensures py.errno == old(py.errno) && py.unraisable == old(py.unraisable)
  {
    if fp == NoneV {
      return 0, null;
    }
    var failed := Errors.CheckError(py, lib, nativeErr);
    if failed != 0 {
      return -1, null;
    }
    dh := new DataHandle(fp);
    Incref(fp);
    rc := 0;
  }

  /** release_cb: the data object gives its reference to the file back. */
  method ReleaseCb(dh: DataHandle)
    requires !dh.released
    modifies dh, Tracked(dh.file)
    ensures dh.released
    ensures dh.file.KeyV? || dh.file.ObjV? ==> RefCount(dh.file) == old(RefCount(dh.file)) - 1
  {
    dh.released := true;
    Decref(dh.file);
  }

  /** A data object made and then released leaves the file's reference count
    * where it was. */
  method DataLifetime(py: Interp, lib: Gpgme, fp: Value) returns (rc: int)
    requires fp.ObjV?
    modifies py, Tracked(fp)
    ensures rc == 0
    ensures RefCount(fp) == old(RefCount(fp))
  {
    var dh;
    rc, dh := DataNew(py, lib, fp, NO_ERROR);
    ReleaseCb(dh);
  }
}
