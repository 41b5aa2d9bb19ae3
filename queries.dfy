/** addon_proxy.c: one-shot queries over a buffer. Each opens a transient context on the
    buffer, reads one thing and destroys the context again, so none changes anything. */
module Queries {
  import opened Common
  import opened Host
  import opened Lite3
  import opened Stored
  import opened Decoder

  const PropertyNotContainer := "Property is not an object or array"
  const ElementNotContainer := "Element is not an object or array"
  const FailedChildOffset := "Failed to get child offset"
  const FailedIterator := "Failed to create iterator"
  const FailedCount := "Failed to get element count"
  const BufferEmpty := "Buffer is empty"
  /** The store's key for an array item is not known; the model reports this failure. */
  const KeylessItem := "Iterator item has no key"

  const SizeTModulus: int := 0x1_0000_0000_0000_0000

  /** The (size_t) cast of the int64 offset argument: a negative offset wraps around to
      a huge one, which names no container. */
  function SizeT(offset: int): (a: nat)
    ensures 0 <= offset < SizeTModulus ==> a == offset
    ensures -SizeTModulus <= offset < 0 ==> a == offset + SizeTModulus
  {
    offset % SizeTModulus
  }

  /** type_to_string: the eight known tags have names, everything else is "undefined". */
  function TypeName(t: Tag): (name: string)
    ensures name == "object" <==> t == Object
    ensures name == "array" <==> t == Array
    ensures name == "string" <==> t == String
    ensures name == "number" <==> t == I64 || t == F64
    ensures name == "boolean" <==> t == Bool
    ensures name == "null" <==> t == Null
    ensures name == "bytes" <==> t == Bytes
    ensures name == "undefined" <==> t == Invalid || t == Count || t == Unknown
  {
    match t
    case Object => "object"
    case Array => "array"
    case String => "string"
    case I64 => "number"
    case F64 => "number"
    case Bool => "boolean"
    case Null => "null"
    case Bytes => "bytes"
    case _ => "undefined"
  }

  /** getType(buffer, offset, key). */
  function ProxyGetType(buf: Buffer, offset: int, key: string): Result<string>
  {
    match buf.image
    case None => Err(Error(FailedContext))
    case Some(img) => Ok(TypeName(GetType(img, SizeT(offset), key)))
  }

  /** getArrayType(buffer, offset, index). */
  function ProxyGetArrayType(buf: Buffer, offset: int, index: nat): Result<string>
  {
    match buf.image
    case None => Err(Error(FailedContext))
    case Some(img) => Ok(TypeName(ArrGetType(img, SizeT(offset), index)))
  }

  /** The switch shared by getValue and getArrayElement: scalars through their typed
      accessor r, containers as their child offset, any other type as undefined. */
  function ValueOf(t: Tag, r: Option<Entry>): Result<HostValue>
    requires r.Some? ==> TagOf(r.value) == t
  {
    match t
    case String => (if r.Some? then Ok(HString(r.value.s)) else Err(Error(FailedString)))
    case I64 => (if r.Some? then Ok(HNumber(Integral(r.value.i))) else Err(Error(FailedInteger)))
    case F64 => (if r.Some? then Ok(HNumber(r.value.n)) else Err(Error(FailedDouble)))
    case Bool => (if r.Some? then Ok(HBoolean(r.value.b)) else Err(Error(FailedBoolean)))
    case Null => Ok(HNull)
    case Object => (if r.Some? then Ok(HNumber(Integral(r.value.child))) else Err(Error(FailedChildOffset)))
    case Array => (if r.Some? then Ok(HNumber(Integral(r.value.child))) else Err(Error(FailedChildOffset)))
    case _ => Ok(HUndefined)
  }

  /** getValue(buffer, offset, key). */
  function ProxyGetValue(buf: Buffer, offset: int, key: string): Result<HostValue>
  {
    match buf.image
    case None => Err(Error(FailedContext))
    case Some(img) =>
      var t := GetType(img, SizeT(offset), key);
      ValueOf(t, Get(img, SizeT(offset), key, t))
  }

  /** getArrayElement(buffer, offset, index). */
  function ProxyGetArrayElement(buf: Buffer, offset: int, index: nat): Result<HostValue>
  {
    match buf.image
    case None => Err(Error(FailedContext))
    case Some(img) =>
      var t := ArrGetType(img, SizeT(offset), index);
      ValueOf(t, ArrGet(img, SizeT(offset), index, t))
  }

  /** getChildOffset(buffer, offset, key). */
  function ProxyGetChildOffset(buf: Buffer, offset: int, key: string): Result<nat>
  {
    match buf.image
    case None => Err(Error(FailedContext))
    case Some(img) =>
      var t := GetType(img, SizeT(offset), key);
      if t != Object && t != Array then Err(Error(PropertyNotContainer))
      else match Get(img, SizeT(offset), key, t)
        case Some(e) => Ok(e.child)
        case None => Err(Error(FailedChildOffset))
  }

  /** getArrayChildOffset(buffer, offset, index). */
  function ProxyGetArrayChildOffset(buf: Buffer, offset: int, index: nat): Result<nat>
  {
    match buf.image
    case None => Err(Error(FailedContext))
    case Some(img) =>
      var t := ArrGetType(img, SizeT(offset), index);
      if t != Object && t != Array then Err(Error(ElementNotContainer))
      else match ArrGet(img, SizeT(offset), index, t)
        case Some(e) => Ok(e.child)
        case None => Err(Error(FailedChildOffset))
  }

  /** The keys getKeys collects from the iterator items, item i at position i. */
  function KeysOf(items: seq<Item>): (r: Result<seq<string>>)
    ensures r.Ok? ==> |r.value| == |items| && forall i :: 0 <= i < |items| ==> items[i].key == Some(r.value[i])
    ensures r.Err? ==> r == Err(Error(KeylessItem)) && exists i :: 0 <= i < |items| && items[i].key.None?
  {
    if forall i :: 0 <= i < |items| ==> items[i].key.Some?
    then Ok(seq(|items|, i requires 0 <= i < |items| => items[i].key.value))
    else Err(Error(KeylessItem))
  }

  /** getKeys(buffer, offset), as a function of the buffer. */
  function KeysAt(buf: Buffer, offset: int): Result<seq<string>>
  {
    match buf.image
    case None => Err(Error(FailedContext))
    case Some(img) =>
      match Iter(img, SizeT(offset))
      case None => Err(Error(FailedIterator))
      case Some(items) => KeysOf(items)
  }

  /** proxy_get_keys: a while loop over the iterator appends item i's key at index i. */
  method ProxyGetKeys(buf: Buffer, offset: int) returns (r: Result<seq<string>>)
    ensures r == KeysAt(buf, offset)
  {
    if buf.image.None? {
      return Err(Error(FailedContext));
    }
    var img := buf.image.value;
    var it := Iter(img, SizeT(offset));
    if it.None? {
      return Err(Error(FailedIterator));
    }
    var items := it.value;
    var keys: seq<string> := [];
    var i := 0;
    while i < |items|
      invariant 0 <= i <= |items| && |keys| == i
      invariant forall l :: 0 <= l < i ==> items[l].key == Some(keys[l])
    {
      if items[i].key.None? {
        return Err(Error(KeylessItem));
      }
      keys := keys + [items[i].key.value];
      i := i + 1;
    }
    r := Ok(keys);
    assert keys == seq(|items|, l requires 0 <= l < |items| => items[l].key.value);
  }

  /** getLength(buffer, offset): the store's count, an error when the count is negative. */
  function ProxyGetLength(buf: Buffer, offset: int): Result<nat>
  {
    match buf.image
    case None => Err(Error(FailedContext))
    case Some(img) =>
      var n := CountAt(img, SizeT(offset));
      if n < 0 then Err(Error(FailedCount)) else Ok(n)
  }

  /** hasKey(buffer, offset, key). */
  function ProxyHasKey(buf: Buffer, offset: int, key: string): Result<bool>
  {
    match buf.image
    case None => Err(Error(FailedContext))
    case Some(img) => Ok(GetType(img, SizeT(offset), key) != Invalid)
  }

  /** getRootType(buffer): the name of the tag in the first byte; no context is opened. */
  function ProxyGetRootType(buf: Buffer): Result<string> {
    match buf.head
    case None => Err(Error(BufferEmpty))
    case Some(t) => Ok(TypeName(t))
  }

  /** The type name a host value of the encodable kinds gets back from getType. */
  function HostTypeName(v: HostValue): string {
    match v
    case HObject(_) => "object"
    case HArray(_) => "array"
    case HString(_) => "string"
    case HNumber(_) => "number"
    case HBoolean(_) => "boolean"
    case HNull => "null"
    case _ => "undefined"
  }

  /** hasKey is false exactly when getType says "undefined": the lookup never yields a
      COUNT or unknown tag, so INVALID is the only tag named "undefined". */
  lemma HasKeyIffDefined(buf: Buffer, offset: int, key: string)
    ensures ProxyHasKey(buf, offset, key) == Ok(false) <==> ProxyGetType(buf, offset, key) == Ok("undefined")
    ensures ProxyHasKey(buf, offset, key) == Ok(true) <==> ProxyGetType(buf, offset, key).Ok? && ProxyGetType(buf, offset, key) != Ok("undefined")
  {
    if buf.image.Some? {
      var t := GetType(buf.image.value, SizeT(offset), key);
      assert t != Count && t != Unknown;
    }
  }

  /** getChildOffset succeeds exactly on a container property (always, once getType has
      reported one), with the offset getValue returns as a number for it; on every other
      property it fails as "not an object or array". */
  lemma ChildOffsetAgreesWithValue(buf: Buffer, offset: int, key: string, c: nat)
    ensures ProxyGetChildOffset(buf, offset, key) == Ok(c) <==>
              && ProxyGetType(buf, offset, key) in {Ok("object"), Ok("array")}
              && ProxyGetValue(buf, offset, key) == Ok(HNumber(Integral(c)))
    ensures ProxyGetType(buf, offset, key).Ok? && ProxyGetType(buf, offset, key) !in {Ok("object"), Ok("array")} ==>
              ProxyGetChildOffset(buf, offset, key) == Err(Error(PropertyNotContainer))
    ensures ProxyGetType(buf, offset, key) in {Ok("object"), Ok("array")} ==> ProxyGetChildOffset(buf, offset, key).Ok?
  {
  }

  /** The positional counterpart of ChildOffsetAgreesWithValue. */
  lemma ArrayChildOffsetAgreesWithElement(buf: Buffer, offset: int, index: nat, c: nat)
    ensures ProxyGetArrayChildOffset(buf, offset, index) == Ok(c) <==>
              && ProxyGetArrayType(buf, offset, index) in {Ok("object"), Ok("array")}
              && ProxyGetArrayElement(buf, offset, index) == Ok(HNumber(Integral(c)))
    ensures ProxyGetArrayType(buf, offset, index).Ok? && ProxyGetArrayType(buf, offset, index) !in {Ok("object"), Ok("array")} ==>
              ProxyGetArrayChildOffset(buf, offset, index) == Err(Error(ElementNotContainer))
    ensures ProxyGetArrayType(buf, offset, index) in {Ok("object"), Ok("array")} ==> ProxyGetArrayChildOffset(buf, offset, index).Ok?
  {
  }

  /** A child container's offset is larger than its parent's, so it is never the root. */
  lemma ChildOffsetBeyond(buf: Buffer, offset: int, key: string, index: nat)
    ensures ProxyGetChildOffset(buf, offset, key).Ok? ==> ProxyGetChildOffset(buf, offset, key).value > SizeT(offset)
    ensures ProxyGetArrayChildOffset(buf, offset, index).Ok? ==> ProxyGetArrayChildOffset(buf, offset, index).value > SizeT(offset)
  {
    if buf.image.Some? {
      var img := buf.image.value;
      var o := SizeT(offset);
      if ProxyGetChildOffset(buf, offset, key).Ok? {
        assert ContainerOk(img[o], o);
        assert PointsBeyond(img[o].fields[Find(img[o].fields, key)].1, o);
      }
      if ProxyGetArrayChildOffset(buf, offset, index).Ok? {
        assert ContainerOk(img[o], o);
        assert PointsBeyond(img[o].elems[index], o);
      }
    }
  }

  /** getValue on a scalar property gives what decode produces for it; on BYTES or an
      absent key getValue gives undefined where decode fails. */
  lemma ValueMatchesDecode(img: Image, o: nat, key: string, head: Option<Tag>)
    requires o < SizeTModulus
    ensures var t := GetType(img, o, key);
            t in {String, I64, F64, Bool, Null} ==>
              ProxyGetValue(Buffer(head, Some(img)), o, key) == Decoded(img, o, t, Some(key), -1)
    ensures var t := GetType(img, o, key);
            t == Bytes || t == Invalid ==>
              ProxyGetValue(Buffer(head, Some(img)), o, key) == Ok(HUndefined) &&
              Decoded(img, o, t, Some(key), -1) == Err(Error(Unsupported))
  {
  }

  /** getArrayElement on a scalar element gives what decode produces for it through its
      index. */
  lemma ElementMatchesDecode(img: Image, o: nat, index: nat, head: Option<Tag>)
    requires o < SizeTModulus
    ensures var t := ArrGetType(img, o, index);
            t in {String, I64, F64, Bool, Null} ==>
              ProxyGetArrayElement(Buffer(head, Some(img)), o, index) == Decoded(img, o, t, None, index)
    ensures var t := ArrGetType(img, o, index);
            t == Bytes || t == Invalid ==>
              ProxyGetArrayElement(Buffer(head, Some(img)), o, index) == Ok(HUndefined) &&
              Decoded(img, o, t, None, index) == Err(Error(Unsupported))
  {
  }

  /** On an object holding w, every property of w is present, named by its kind, and read
      back by getValue or, for a container, reached by getChildOffset at a container that
      holds it. */
  lemma HeldProperty(img: Image, o: nat, w: HostValue, j: nat, head: Option<Tag>)
    requires o < SizeTModulus && Holds(img, o, w) && w.HObject? && j < |w.props|
    ensures var buf, k, x := Buffer(head, Some(img)), w.props[j].0, w.props[j].1;
            && ProxyHasKey(buf, o, k) == Ok(true)
            && ProxyGetType(buf, o, k) == Ok(HostTypeName(x))
            && (!IsObjectType(x) ==> ProxyGetValue(buf, o, k) == Ok(x))
            && (IsObjectType(x) ==> ProxyGetChildOffset(buf, o, k).Ok? &&
                                    Holds(img, ProxyGetChildOffset(buf, o, k).value, x))
  {
    var fs := img[o].fields;
    assert ContainerOk(img[o], o);
    FindDistinct(fs, j);
    assert Lookup(img, o, w.props[j].0) == Some(fs[j].1);
    assert EntryHolds(img, fs[j].1, w.props[j].1);
  }

  /** On an object holding w, a key w does not have is absent: hasKey is false, its type
      is "undefined" and its value undefined. */
  lemma HeldAbsentKey(img: Image, o: nat, w: HostValue, key: string, head: Option<Tag>)
    requires o < SizeTModulus && Holds(img, o, w) && w.HObject?
    requires forall j :: 0 <= j < |w.props| ==> w.props[j].0 != key
    ensures var buf := Buffer(head, Some(img));
            && ProxyHasKey(buf, o, key) == Ok(false)
            && ProxyGetType(buf, o, key) == Ok("undefined")
            && ProxyGetValue(buf, o, key) == Ok(HUndefined)
  {
    assert Find(img[o].fields, key) == |img[o].fields|;
  }

  /** On an array holding w, element i is named by its kind and read back by
      getArrayElement or, for a container, reached by getArrayChildOffset. */
  lemma HeldElement(img: Image, o: nat, w: HostValue, i: nat, head: Option<Tag>)
    requires o < SizeTModulus && Holds(img, o, w) && w.HArray? && i < |w.elems|
    ensures var buf, x := Buffer(head, Some(img)), w.elems[i];
            && ProxyGetArrayType(buf, o, i) == Ok(HostTypeName(x))
            && (!IsObjectType(x) ==> ProxyGetArrayElement(buf, o, i) == Ok(x))
            && (IsObjectType(x) ==> ProxyGetArrayChildOffset(buf, o, i).Ok? &&
                                    Holds(img, ProxyGetArrayChildOffset(buf, o, i).value, x))
  {
    assert EntryHolds(img, img[o].elems[i], w.elems[i]);
  }

  /** On a container holding w, getLength is w's number of properties or elements, and
      getKeys of an object gives w's keys in order. */
  lemma HeldLengthAndKeys(img: Image, o: nat, w: HostValue, head: Option<Tag>)
    requires o < SizeTModulus && Holds(img, o, w)
    ensures w.HObject? ==> ProxyGetLength(Buffer(head, Some(img)), o) == Ok(|w.props|)
    ensures w.HArray? ==> ProxyGetLength(Buffer(head, Some(img)), o) == Ok(|w.elems|)
    ensures w.HObject? ==>
              KeysAt(Buffer(head, Some(img)), o) == Ok(seq(|w.props|, i requires 0 <= i < |w.props| => w.props[i].0))
  {
    if w.HObject? {
      var items := Iter(img, o).value;
      assert forall i :: 0 <= i < |items| ==> items[i].key.Some?;
      assert KeysOf(items).value == seq(|w.props|, i requires 0 <= i < |w.props| => w.props[i].0);
    }
  }

  /** An encoded buffer names its root kind, and on an object root getLength equals the
      number of its top-level keys (on an array root, of its elements). */
  lemma EncodedRootQueries(buf: Buffer, w: HostValue)
    requires Encoded(buf, w)
    ensures ProxyGetRootType(buf) == Ok(if w.HArray? then "array" else "object")
    ensures w.HObject? ==> ProxyGetLength(buf, 0) == Ok(|w.props|) &&
                           KeysAt(buf, 0).Ok? && |KeysAt(buf, 0).value| == |w.props|
    ensures w.HArray? ==> ProxyGetLength(buf, 0) == Ok(|w.elems|)
  {
    HeldLengthAndKeys(buf.image.value, 0, w, buf.head);
  }

  /** When no context can be created from the buffer, every query that opens one fails
      with "Failed to create Lite3 context"; getRootType, which opens none, does not. */
  lemma RefusedBufferFails(buf: Buffer, offset: int, key: string, index: nat)
    requires buf.image.None?
    ensures var e := Error(FailedContext);
            && ProxyGetType(buf, offset, key) == Err(e) && ProxyGetArrayType(buf, offset, index) == Err(e)
            && ProxyGetValue(buf, offset, key) == Err(e) && ProxyGetArrayElement(buf, offset, index) == Err(e)
            && ProxyGetChildOffset(buf, offset, key) == Err(e) && ProxyGetArrayChildOffset(buf, offset, index) == Err(e)
            && ProxyGetLength(buf, offset) == Err(e) && KeysAt(buf, offset) == Err(e)
            && ProxyHasKey(buf, offset, key) == Err(e)
    ensures buf.head.Some? ==> ProxyGetRootType(buf).Ok?
  {
  }

  /** At an offset that names no container (a negative offset wraps around to one), the
      lookups find nothing: the type is "undefined", the value undefined, hasKey false,
      the child offset and the count fail, and no iterator can be created. */
  lemma NoContainerAt(img: Image, offset: int, key: string, index: nat, head: Option<Tag>)
    requires SizeT(offset) >= |img|
    ensures var buf := Buffer(head, Some(img));
            && ProxyGetType(buf, offset, key) == Ok("undefined")
            && ProxyGetArrayType(buf, offset, index) == Ok("undefined")
            && ProxyGetValue(buf, offset, key) == Ok(HUndefined)
            && ProxyGetArrayElement(buf, offset, index) == Ok(HUndefined)
            && ProxyHasKey(buf, offset, key) == Ok(false)
            && ProxyGetChildOffset(buf, offset, key) == Err(Error(PropertyNotContainer))
            && ProxyGetArrayChildOffset(buf, offset, index) == Err(Error(ElementNotContainer))
            && ProxyGetLength(buf, offset) == Err(Error(FailedCount))
            && KeysAt(buf, offset) == Err(Error(FailedIterator))
  {
  }

  /** getRootType fails exactly on an empty buffer, and otherwise names the first byte's
      tag, whether or not a context could be created from the rest. */
  lemma RootTypeOfHead(buf: Buffer)
    ensures ProxyGetRootType(buf) == Err(Error(BufferEmpty)) <==> buf.head.None?
    ensures buf.head.Some? ==> ProxyGetRootType(buf) == Ok(TypeName(buf.head.value))
  {
  }

  /** getKeys lists nothing for an empty container, and fails on an array with elements,
      whose iterator items carry no key. */
  lemma KeysOfArray(img: Image, o: nat, head: Option<Tag>)
    requires o < SizeTModulus && o < |img| && img[o].Arr?
    ensures |img[o].elems| == 0 ==> KeysAt(Buffer(head, Some(img)), o) == Ok([])
    ensures |img[o].elems| > 0 ==> KeysAt(Buffer(head, Some(img)), o) == Err(Error(KeylessItem))
  {
    var items := Iter(img, o).value;
    if |img[o].elems| > 0 {
      assert items[0].key.None?;
    }
  }
}
