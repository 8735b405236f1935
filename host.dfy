/** The Python side as the binding sees it: values, exception objects, the
  * objects whose reference counts the binding adjusts, and the interpreter state
  * it touches (the pending exception, the C errno and the unraisable-exception
  * hook). Python 3 semantics: IOError is OSError, and bool is a subclass of int. */
module Host {
  import opened Base
  import opened Native

  /** The exception classes the binding raises or inspects. GpgmeError is the
    * binding's own class (a RuntimeError subclass). The binding tests classes
    * with PyErr_GivenExceptionMatches, which accepts subclasses, so each
    * constructor stands for the class together with all its subclasses:
    * OSErrorClass covers IOError, PermissionError, FileNotFoundError and the
    * rest, GpgmeErrorClass any subclass of GpgmeError. OtherClass names only
    * classes outside the hierarchies listed here. */
  datatype ExcClass =
    | GpgmeErrorClass
    | OSErrorClass
    | TypeErrorClass
    | AttributeErrorClass
    | NotImplementedErrorClass
    | MemoryErrorClass
    | OverflowErrorClass
    | UnicodeEncodeErrorClass
    | StopIterationClass
    | OtherClass(name: string)

  /** A normalised exception instance: its class, its `args` attribute (None when
    * reading `args` fails) and its other attributes. */
  datatype Exception = Exception(cls: ExcClass, args: Option<Value>, attrs: map<string, Value>)

  /** A Python object as the binding inspects it. Objects whose identity and
    * reference count matter are class instances (KeyV, ObjV); the binding's
    * read-only result objects are records of their attributes. */
  datatype Value =
    | NoneV
    | BoolV(b: bool)
    | IntV(i: int)
    | StrV(text: seq<CodePoint>)
    | BytesV(data: seq<byte>)
    | TupleV(items: seq<Value>)
    | ListV(items: seq<Value>)
    | ExcV(exc: Exception)
    | KeyV(key: KeyObj)
    | ObjV(obj: PyObject)
    | RecordV(typeName: string, fields: map<string, Value>)

  /** Any Python object with identity: a file object, a callable, a context. */
  class PyObject {
    var refcnt: int

    constructor ()
      ensures refcnt == 1
    {
      refcnt := 1;
    }
  }

  /** A gpgme.Key wrapper: a Python object holding one native key reference. */
  class KeyObj {
    var refcnt: int
    var key: NativeKey?

    constructor (key: NativeKey)
      ensures this.key == key && refcnt == 1
    {
      this.key := key;
      refcnt := 1;
    }
  }

  /** The result of calling into Python code the binding cannot see. */
  datatype CallOutcome = Returned(value: Value) | Raised(exc: Exception)

  /** The interpreter state the binding reads and writes. */
  class Interp {
    /** The exception set by PyErr_SetObject and friends, if any. */
    var pending: Option<Exception>
    /** The C library's errno. */
    var errno: int
    /** Objects handed to PyErr_WriteUnraisable, in order. */
    var unraisable: seq<Value>

    constructor ()
      ensures pending == None && unraisable == []
    {
      pending := None;
      errno := 0;
      unraisable := [];
    }
  }

  /** PyInt_Check (PyLong_Check in Python 3), which bools pass. */
  predicate IsPyInt(v: Value) { v.IntV? || v.BoolV? }

  function PyIntValue(v: Value): int
    requires IsPyInt(v)
  {
    if v.IntV? then v.i else if v.b then 1 else 0
  }

  /** PyTuple_GetItem(args, i): None (NULL) when args is missing or not a
    * tuple, or i is out of range. */
  function TupleItem(args: Option<Value>, i: nat): (r: Option<Value>)
    ensures r.Some? <==> args.Some? && args.value.TupleV? && i < |args.value.items|
  {
    match args
    case Some(TupleV(items)) => if i < |items| then Some(items[i]) else None
    case _ => None
  }

  /** PySequence_Fast: the items of an iterable, or None (TypeError) for a
    * non-iterable. A str iterates over one-character strs and a bytes object
    * over ints; any other iterable is represented by the list of its items. */
  function AsSequence(v: Value): (r: Option<seq<Value>>)
    ensures v.TupleV? || v.ListV? ==> r == Some(v.items)
    ensures r.Some? <==> v.TupleV? || v.ListV? || v.StrV? || v.BytesV?
  {
    match v
    case TupleV(items) => Some(items)
    case ListV(items) => Some(items)
    case StrV(t) => Some(seq(|t|, i requires 0 <= i < |t| => StrV([t[i]])))
    case BytesV(d) => Some(seq(|d|, i requires 0 <= i < |d| => IntV(d[i])))
    case _ => None
  }

  /** An exception raised with PyErr_SetString(cls, msg). */
  function RaisedWith(cls: ExcClass, msg: string): Exception
  {
    Exception(cls, Some(TupleV([StrV(Text(msg))])), map[])
  }

  /** The exception PyErr_NoMemory raises. */
  const NoMemory: Exception := Exception(MemoryErrorClass, Some(TupleV([])), map[])

  /** The objects whose reference count Py_INCREF/Py_DECREF of v changes. */
  function Tracked(v: Value): set<object>
  {
    match v
    case KeyV(k) => {k}
    case ObjV(o) => {o}
    case _ => {}
  }

  /** The reference count of an object with identity (0 for the values that are
    * not tracked here). */
  function RefCount(v: Value): int
    reads Tracked(v)
  {
    match v
    case KeyV(k) => k.refcnt
    case ObjV(o) => o.refcnt
    case _ => 0
  }

  /** Py_INCREF. */
  method Incref(v: Value)
    modifies Tracked(v)
    ensures v.KeyV? || v.ObjV? ==> RefCount(v) == old(RefCount(v)) + 1
  {
    match v
    case KeyV(k) => k.refcnt := k.refcnt + 1;
    case ObjV(o) => o.refcnt := o.refcnt + 1;
    case _ =>
  }

  /** Py_DECREF (deallocation at zero is not modelled for these objects). */
  method Decref(v: Value)
    modifies Tracked(v)
    ensures v.KeyV? || v.ObjV? ==> RefCount(v) == old(RefCount(v)) - 1
  {
    match v
    case KeyV(k) => k.refcnt := k.refcnt - 1;
    case ObjV(o) => o.refcnt := o.refcnt - 1;
    case _ =>
  }

  /** Allocation failures are an oracle: `oom` holds the positions, in program
    * order within one routine, of the allocations that fail. This says whether
    * any of the allocations numbered 0..n fails. */
  predicate AnyFails(oom: set<nat>, n: nat)
  {
    exists j :: j in oom && j <= n
  }

  /** The C heap, as far as the binding's own malloc/calloc/strdup and free
    * calls go: the number of blocks it holds. */
  class CHeap {
    var live: int

    constructor ()
      ensures live == 0
    {
      live := 0;
    }
  }
}
