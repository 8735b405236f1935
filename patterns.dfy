/** Key patterns (src/pygpgme-context.c, parse_key_patterns and
  * free_key_patterns): the Python argument of keylist and export becomes a
  * NULL-terminated C array of C strings, or NULL for "no patterns". */
module KeyPatterns {
  import opened Base
  import opened Codecs
  import opened Native
  import opened Host

  /** The one message both the non-iterable argument and a bad item raise. */
  const PatternTypeError: Exception :=
    RaisedWith(TypeErrorClass, "first argument must be a string or sequence of strings")

  /** PyUnicode_AsUTF8String's failure on a str holding a lone surrogate (the
    * exception's class and the offending str). */
  function EncodeError(t: seq<CodePoint>): Exception
  {
    Exception(UnicodeEncodeErrorClass, Some(TupleV([StrV(Text("utf-8")), StrV(t)])), map[])
  }

  /** One pattern as bytes, or the exception that rejects it. */
  datatype PatternBytes = Bytes(bytes: seq<byte>) | Bad(exc: Exception)

  /** A bytes object is taken as it is, a str is encoded as UTF-8; anything else
    * is a TypeError. */
  function PatternItem(v: Value): (r: PatternBytes)
    ensures v.BytesV? ==> r == Bytes(v.data)
    ensures v.StrV? ==> (r.Bad? <==> Utf8Encode(v.text).None?)
    ensures v.StrV? && r.Bad? ==> r.exc == EncodeError(v.text)
    ensures !v.StrV? && !v.BytesV? ==> r == Bad(PatternTypeError)
  {
    match v
    case BytesV(d) => Bytes(d)
    case StrV(t) => (match Utf8Encode(t) case Some(b) => Bytes(b) case None => Bad(EncodeError(t)))
    case _ => Bad(PatternTypeError)
  }

  /** What parse_key_patterns produces: no array, an array of these entries
    * (followed by the NULL terminator), or a failure with this exception. */
  datatype PatternOutcome = NoArray | Entries(entries: seq<seq<byte>>) | Fails(exc: Exception)

  /** Whether allocation or item j of a sequence argument stops the loop: item
    * j is rejected, or the strdup of entry j (allocation j + 1) fails. */
  predicate StopsAt(items: seq<Value>, oom: set<nat>, j: nat)
  {
    j < |items| && (PatternItem(items[j]).Bad? || j + 1 in oom)
  }

  /** The first j below n at which the loop stops, or n when it runs through. */
  function FirstStop(items: seq<Value>, oom: set<nat>, n: nat): (k: nat)
    requires n <= |items|
    ensures k <= n
    ensures forall j :: 0 <= j < k ==> !StopsAt(items, oom, j)
    ensures k < n ==> StopsAt(items, oom, k)
  {
    if n == 0 then 0
    else
      var k := FirstStop(items, oom, n - 1);
      if k < n - 1 then k else if StopsAt(items, oom, n - 1) then n - 1 else n
  }

  /** The outcome for a sequence argument with these items. */
  function SequencePatterns(items: seq<Value>, oom: set<nat>): (o: PatternOutcome)
    ensures !o.NoArray?
    ensures o.Entries? <==> 0 !in oom && forall j: nat :: !StopsAt(items, oom, j)
    ensures o.Entries? ==>
              |o.entries| == |items| &&
              forall i :: 0 <= i < |items| ==>
                PatternItem(items[i]).Bytes? && o.entries[i] == UpToNul(PatternItem(items[i]).bytes)
    ensures o.Fails? && oom == {} ==>
              exists k :: 0 <= k < |items| && PatternItem(items[k]) == Bad(o.exc) &&
                          forall j :: 0 <= j < k ==> PatternItem(items[j]).Bytes?
    ensures o.Entries? ==> forall i :: 0 <= i < |o.entries| ==> 0 !in o.entries[i]
    ensures o.Fails? ==> o.exc == NoMemory || exists k :: 0 <= k < |items| && PatternItem(items[k]) == Bad(o.exc)
  {
    if 0 in oom then Fails(NoMemory)
    else
      var k := FirstStop(items, oom, |items|);
      if k < |items| then
        assert forall j :: 0 <= j < k ==> PatternItem(items[j]).Bytes? by {
          forall j | 0 <= j < k ensures PatternItem(items[j]).Bytes? {
            assert !StopsAt(items, oom, j);
          }
        }
        if PatternItem(items[k]).Bad? then Fails(PatternItem(items[k]).exc) else Fails(NoMemory)
      else
        assert forall i :: 0 <= i < |items| ==> PatternItem(items[i]).Bytes? by {
          forall i | 0 <= i < |items| ensures PatternItem(items[i]).Bytes? {
            assert !StopsAt(items, oom, i);
          }
        }
        Entries(seq(|items|, i requires 0 <= i < |items| =>
                               UpToNul(PatternItem(items[i]).bytes)))
  }

  /** The outcome of parse_key_patterns for an argument, allocation 0 being the
    * calloc of the array and allocation j + 1 the strdup of entry j. Each entry
    * is what strdup copies: the bytes up to the first NUL. */
  function ParsePatterns(pattern: Value, oom: set<nat>): (o: PatternOutcome)
    ensures pattern == NoneV ==> o == NoArray
    ensures (pattern.StrV? || pattern.BytesV?) && PatternItem(pattern).Bytes? && 0 !in oom && 1 !in oom ==>
              o == Entries([UpToNul(PatternItem(pattern).bytes)])
    ensures (pattern.StrV? || pattern.BytesV?) && PatternItem(pattern).Bytes? && (0 in oom || 1 in oom) ==>
              o == Fails(NoMemory)
    ensures pattern.StrV? && PatternItem(pattern).Bad? ==> o == Fails(EncodeError(pattern.text))
    ensures !pattern.NoneV? && !pattern.StrV? && !pattern.BytesV? && !pattern.TupleV? && !pattern.ListV? ==>
              o == Fails(PatternTypeError)
    ensures pattern.TupleV? || pattern.ListV? ==> o == SequencePatterns(pattern.items, oom)
    ensures o.Entries? ==> forall i :: 0 <= i < |o.entries| ==> 0 !in o.entries[i]
  {
    if pattern == NoneV then NoArray
    else if pattern.StrV? || pattern.BytesV? then
      match PatternItem(pattern)
      case Bad(exc) => Fails(exc)
      case Bytes(b) => if 0 in oom || 1 in oom then Fails(NoMemory) else Entries([UpToNul(b)])
    else
      match AsSequence(pattern)
      case None => Fails(PatternTypeError)
      case Some(items) => SequencePatterns(items, oom)
  }

  /** The C array holding these entries: the strings, then NULL. */
  function Terminated(entries: seq<seq<byte>>): (a: seq<CString>)
    requires forall i :: 0 <= i < |entries| ==> 0 !in entries[i]
    ensures |a| == |entries| + 1 && a[|entries|] == None
    ensures forall i :: 0 <= i < |entries| ==> a[i] == Some(entries[i])
  {
    seq(|entries|, i requires 0 <= i < |entries| => Some(entries[i])) + [None]
  }

  /** The index of the first NULL entry (the length when there is none). */
  function TerminatorIndex(a: seq<CString>): (k: nat)
    ensures k <= |a|
    ensures forall i :: 0 <= i < k ==> a[i].Some?
    ensures k < |a| ==> a[k].None?
  {
    if a == [] || a[0].None? then 0 else 1 + TerminatorIndex(a[1..])
  }

  /** free_key_patterns: free every string up to the NULL terminator, then the
    * array itself. */
  method FreeKeyPatterns(heap: CHeap, patterns: array<CString>) returns (freed: nat)
    requires exists i :: 0 <= i < patterns.Length && patterns[i].None?
    modifies heap
    ensures freed == TerminatorIndex(patterns[..])
    ensures heap.live == old(heap.live) - freed - 1
  {
    freed := 0;
    while patterns[freed].Some?
      invariant freed <= TerminatorIndex(patterns[..]) < patterns.Length
      invariant heap.live == old(heap.live) - freed
      decreases patterns.Length - freed
    {
      heap.live := heap.live - 1;
      freed := freed + 1;
    }
    heap.live := heap.live - 1;
  }

  /** The sequence branch of parse_key_patterns: calloc the array, then copy
    * the items one by one, freeing what was built at the first failure. */
  method ParseSequence(py: Interp, heap: CHeap, items: seq<Value>, oom: set<nat>)
    returns (rc: int, patterns: array?<CString>)
    modifies py, heap
    ensures SequencePatterns(items, oom).Entries? ==>
              rc == 0 && patterns != null && fresh(patterns) &&
              patterns[..] == Terminated(SequencePatterns(items, oom).entries) &&
              heap.live == old(heap.live) + |items| + 1 && py.pending == old(py.pending)
    ensures SequencePatterns(items, oom).Fails? ==>
              rc == -1 && patterns == null && heap.live == old(heap.live) &&
              py.pending == Some(SequencePatterns(items, oom).exc)
    ensures py.errno == old(py.errno) && py.unraisable == old(py.unraisable)
  {
    if 0 in oom {
      py.pending := Some(NoMemory);
      return -1, null;
    }
    var arr := new CString[|items| + 1](_ => None);
    heap.live := heap.live + 1;
    var i := 0;
    while i < |items|
      invariant 0 <= i <= |items|
      invariant forall j :: 0 <= j < i ==> !StopsAt(items, oom, j) && arr[j] == Some(UpToNul(PatternItem(items[j]).bytes))
      invariant forall j :: i <= j < arr.Length ==> arr[j] == None
      invariant heap.live == old(heap.live) + 1 + i
      invariant py.pending == old(py.pending)
      invariant py.errno == old(py.errno) && py.unraisable == old(py.unraisable)
    {
      var item := PatternItem(items[i]);
      if item.Bad? || i + 1 in oom {
        assert StopsAt(items, oom, i);
        assert FirstStop(items, oom, |items|) == i;
        py.pending := Some(if item.Bad? then item.exc else NoMemory);
        assert arr[i].None?;
        var freed := FreeKeyPatterns(heap, arr);
        return -1, null;
      }
      arr[i] := Some(UpToNul(item.bytes));
      heap.live := heap.live + 1;
      i := i + 1;
    }
    assert FirstStop(items, oom, |items|) == |items|;
    assert arr[..] == Terminated(SequencePatterns(items, oom).entries);
    return 0, arr;
  }

  /** parse_key_patterns. Every array it returns is fresh and holds exactly the
    * entries ParsePatterns gives, one heap block per string plus the array; a
    * failure returns NULL with the exception pending and leaves the heap as it
    * found it, the partial array and the strings copied so far being freed. */
  method ParseKeyPatterns(py: Interp, heap: CHeap, pattern: Value, oom: set<nat>)
    returns (rc: int, patterns: array?<CString>)
    modifies py, heap
    ensures ParsePatterns(pattern, oom).NoArray? ==>
              rc == 0 && patterns == null && heap.live == old(heap.live) && py.pending == old(py.pending)
    ensures ParsePatterns(pattern, oom).Entries? ==>
              rc == 0 && patterns != null && fresh(patterns) &&
              patterns[..] == Terminated(ParsePatterns(pattern, oom).entries) &&
              heap.live == old(heap.live) + |ParsePatterns(pattern, oom).entries| + 1 &&
              py.pending == old(py.pending)
    ensures ParsePatterns(pattern, oom).Fails? ==>
              rc == -1 && patterns == null && heap.live == old(heap.live) &&
              py.pending == Some(ParsePatterns(pattern, oom).exc)
    ensures py.errno == old(py.errno) && py.unraisable == old(py.unraisable)
  {
    if pattern == NoneV {
      return 0, null;
    }
    if pattern.StrV? || pattern.BytesV? {
      var item := PatternItem(pattern);
      if item.Bad? {
        py.pending := Some(item.exc);
        return -1, null;
      }
      if 0 in oom {
        py.pending := Some(NoMemory);
        return -1, null;
      }
      var arr := new CString[2](_ => None);
      heap.live := heap.live + 1;
      if 1 in oom {
        py.pending := Some(NoMemory);
        assert arr[0].None?;
        var _ := FreeKeyPatterns(heap, arr);
        return -1, null;
      }
      arr[0] := Some(UpToNul(item.bytes));
      heap.live := heap.live + 1;
      assert arr[..] == Terminated([UpToNul(item.bytes)]);
      return 0, arr;
    }
    if !pattern.TupleV? && !pattern.ListV? {
      py.pending := Some(PatternTypeError);
      return -1, null;
    }
    rc, patterns := ParseSequence(py, heap, pattern.items, oom);
  }
}
