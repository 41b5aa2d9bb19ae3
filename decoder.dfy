/** addon_decode.c: the reverse walk, driven by the store's iterator, that rebuilds a host
    value from a lite3 buffer. */
module Decoder {
  import opened Common
  import opened Host
  import opened Lite3
  import opened Stored

  const FailedObjectFromArray := "Failed to get object from array"
  const Unsupported := "Unsupported value type in Lite3 buffer"

  /** How far off is from the end of the image: a decode step either moves to a later
      container or stays and gets closer to a scalar read. */
  function Rank(img: Image, off: nat): nat {
    if off < |img| then |img| - off else 0
  }

  /** A keyed lookup through a NULL key (an array item's key) finds nothing. */
  function KeyedType(img: Image, off: nat, key: Option<string>): (t: Tag)
    ensures key.None? ==> t == Invalid
    ensures key.Some? ==> t == GetType(img, off, key.value)
  {
    match key
    case Some(k) => GetType(img, off, k)
    case None => Invalid
  }

  /** The accessor a scalar is read with: positional when index >= 0, keyed otherwise. */
  function Read(img: Image, off: nat, key: Option<string>, index: int, want: Tag): (r: Option<Entry>)
    ensures r.Some? ==> TagOf(r.value) == want
    ensures index >= 0 ==> r == ArrGet(img, off, index, want)
    ensures index < 0 && key.Some? ==> r == Get(img, off, key.value, want)
    ensures index < 0 && key.None? ==> r.None?
  {
    if index >= 0 then ArrGet(img, off, index, want)
    else match key
      case Some(k) => Get(img, off, k, want)
      case None => None
  }

  /** The position of the first failure among rs, or |rs| when every result is Ok. */
  function FirstErr<T>(rs: seq<Result<T>>): (f: nat)
    ensures f <= |rs|
    ensures f < |rs| ==> rs[f].Err?
    ensures forall l :: 0 <= l < f ==> rs[l].Ok?
  {
    if rs == [] then 0
    else if rs[0].Err? then 0
    else 1 + FirstErr(rs[1..])
  }

  function KeyText(key: Option<string>): string {
    match key
    case Some(k) => k
    case None => ""
  }

  /** A child whose keyed type is a container lives after its parent: an array item has
      no key, and an object's distinct keys find each field where it stands. */
  lemma ContainerItemBeyond(img: Image, o: nat, items: seq<Item>, j: nat)
    requires Iter(img, o) == Some(items) && j < |items|
    requires KeyedType(img, o, items[j].key) in {Object, Array}
    ensures items[j].offset > o && img[o].Obj?
    ensures TagOf(img[o].fields[j].1) == KeyedType(img, o, items[j].key)
  {
    assert ContainerOk(img[o], o);
    var fs := img[o].fields;
    FindDistinct(fs, j);
    assert PointsBeyond(fs[j].1, o);
  }

  function ChildBeyond(img: Image, off: nat, index: int, want: Tag): (c: nat)
    requires ArrGet(img, off, index, want).Some?
    requires want == Object || want == Array
    ensures Rank(img, c) < Rank(img, off)
  {
    var e := ArrGet(img, off, index, want).value;
    assert ContainerOk(img[off], off);
    assert PointsBeyond(img[off].elems[index], off);
    e.child
  }

  /** lite3_napi_decode_value: the value of type t at off, reached through key or, when
      index >= 0, through the index-th element of the array at off. */
  function Decoded(img: Image, off: nat, t: Tag, key: Option<string>, index: int): Result<HostValue>
    decreases Rank(img, off), (if index >= 0 then 0 else 1), (if t == Object || t == Array then 1 else 0), 2
  {
    match t
    case Object =>
      if index >= 0 then
        if ArrGet(img, off, index, Object).Some? then ObjectBody(img, ChildBeyond(img, off, index, Object))
        else Err(Error(FailedObjectFromArray))
      else ObjectBody(img, off)
    case Array =>
      if index >= 0 then
        if ArrGet(img, off, index, Array).Some? then ArrayBody(img, ChildBeyond(img, off, index, Array))
        else Err(Error(FailedObjectFromArray))
      else ArrayBody(img, off)
    case Bool =>
      (match Read(img, off, key, index, Bool)
       case Some(e) => Ok(HBoolean(e.b))
       case None => Err(Error(FailedBoolean)))
    case F64 =>
      (match Read(img, off, key, index, F64)
       case Some(e) => Ok(HNumber(e.n))
       case None => Err(Error(FailedDouble)))
    case I64 =>
      (match Read(img, off, key, index, I64)
       case Some(e) => Ok(HNumber(Integral(e.i)))
       case None => Err(Error(FailedInteger)))
    case Null => Ok(HNull)
    case String =>
      (match Read(img, off, key, index, String)
       case Some(e) => Ok(HString(e.s))
       case None => Err(Error(FailedString)))
    case _ => Err(Error(Unsupported))
  }

  /** The object case once its own offset o is known: one property per iterator item, in
      order; the first failing item fails the whole object. */
  function ObjectBody(img: Image, o: nat): Result<HostValue>
    decreases Rank(img, o), 1, 1, 1
  {
    match Iter(img, o)
    case None => Err(Error(Lite3Failure))
    case Some(items) =>
      var rs := seq(|items|, j requires 0 <= j < |items| => Property(img, o, items, j));
      var f := FirstErr(rs);
      if f < |rs| then Err(rs[f].error)
      else Ok(HObject(seq(|items|, j requires 0 <= j < |items| => (KeyText(items[j].key), rs[j].value))))
  }

  /** The j-th property of the object at o: its type is looked up by the item's key; a
      container child is decoded at the item's offset (an object without the key, an array
      with it), a scalar at the parent's offset through the key. */
  function Property(img: Image, o: nat, items: seq<Item>, j: nat): Result<HostValue>
    requires Iter(img, o) == Some(items) && j < |items|
    decreases Rank(img, o), 1, 1, 0
  {
    var t := KeyedType(img, o, items[j].key);
    if t == Object then
      ContainerItemBeyond(img, o, items, j);
      Decoded(img, items[j].offset, Object, None, -1)
    else if t == Array then
      ContainerItemBeyond(img, o, items, j);
      Decoded(img, items[j].offset, Array, items[j].key, -1)
    else Decoded(img, o, t, items[j].key, -1)
  }

  /** The array case once its own offset o is known: the i-th iterator item is decoded
      through index i, by the element's positional type, and stored at position i. */
  function ArrayBody(img: Image, o: nat): Result<HostValue>
    decreases Rank(img, o), 1, 1, 1
  {
    match Iter(img, o)
    case None => Err(Error(Lite3Failure))
    case Some(items) =>
      var rs := seq(|items|, i requires 0 <= i < |items| => Decoded(img, o, ArrGetType(img, o, i), None, i));
      var f := FirstErr(rs);
      if f < |rs| then Err(rs[f].error)
      else Ok(HArray(seq(|items|, i requires 0 <= i < |items| => rs[i].value)))
  }

  /** decode: a context is opened on the buffer and the root is decoded at offset 0 as an
      OBJECT, with no key and index -1, whatever tag the buffer's first byte holds. */
  function DecodeBuffer(buf: Buffer): Result<HostValue> {
    match buf.image
    case None => Err(Error(FailedContext))
    case Some(img) => Decoded(img, 0, Object, None, -1)
  }

  /** The root type a decode that reads the first byte would use. */
  function RootTag(head: Option<Tag>): (t: Tag)
    ensures t == Array <==> head == Some(Array)
    ensures t != Array ==> t == Object
  {
    if head == Some(Array) then Array else Object
  }

  /** decode with the root's type taken from the buffer's first byte. */
  function DecodeRoot(buf: Buffer): Result<HostValue> {
    match buf.image
    case None => Err(Error(FailedContext))
    case Some(img) => Decoded(img, 0, RootTag(buf.head), None, -1)
  }

  /** lite3_napi_decode_value. */
  method DecodeValue(img: Image, off: nat, t: Tag, key: Option<string>, index: int) returns (r: Result<HostValue>)
    ensures r == Decoded(img, off, t, key, index)
    decreases Rank(img, off), (if index >= 0 then 0 else 1), (if t == Object || t == Array then 1 else 0), 2
  {
    match t {
      case Object =>
        if index >= 0 {
          if ArrGet(img, off, index, Object).None? {
            return Err(Error(FailedObjectFromArray));
          }
          r := DecodeObject(img, ChildBeyond(img, off, index, Object));
        } else {
          r := DecodeObject(img, off);
        }
      case Array =>
        if index >= 0 {
          if ArrGet(img, off, index, Array).None? {
            return Err(Error(FailedObjectFromArray));
          }
          r := DecodeArray(img, ChildBeyond(img, off, index, Array));
        } else {
          r := DecodeArray(img, off);
        }
      case Bool =>
        var e := Read(img, off, key, index, Bool);
        if e.None? {
          return Err(Error(FailedBoolean));
        }
        r := Ok(HBoolean(e.value.b));
      case F64 =>
        var e := Read(img, off, key, index, F64);
        if e.None? {
          return Err(Error(FailedDouble));
        }
        r := Ok(HNumber(e.value.n));
      case I64 =>
        var e := Read(img, off, key, index, I64);
        if e.None? {
          return Err(Error(FailedInteger));
        }
        r := Ok(HNumber(Integral(e.value.i)));
      case Null =>
        r := Ok(HNull);
      case String =>
        var e := Read(img, off, key, index, String);
        if e.None? {
          return Err(Error(FailedString));
        }
        r := Ok(HString(e.value.s));
      case _ =>
        r := Err(Error(Unsupported));
    }
  }

  /** The object case: a while loop over the iterator, setting one property per item. */
  method DecodeObject(img: Image, o: nat) returns (r: Result<HostValue>)
    ensures r == ObjectBody(img, o)
    decreases Rank(img, o), 1, 1, 1
  {
    var it := Iter(img, o);
    if it.None? {
      return Err(Error(Lite3Failure));
    }
    var items := it.value;
    ghost var rs := seq(|items|, j requires 0 <= j < |items| => Property(img, o, items, j));
    var props: seq<(string, HostValue)> := [];
    var j := 0;
    while j < |items|
      invariant 0 <= j <= |items| && |props| == j
      invariant forall l :: 0 <= l < j ==> rs[l].Ok? && props[l] == (KeyText(items[l].key), rs[l].value)
    {
      var t := KeyedType(img, o, items[j].key);
      var p: Result<HostValue>;
      if t == Object {
        ContainerItemBeyond(img, o, items, j);
        p := DecodeValue(img, items[j].offset, Object, None, -1);
      } else if t == Array {
        ContainerItemBeyond(img, o, items, j);
        p := DecodeValue(img, items[j].offset, Array, items[j].key, -1);
      } else {
        p := DecodeValue(img, o, t, items[j].key, -1);
      }
      assert p == rs[j];
      if p.Err? {
        assert FirstErr(rs) == j;
        return p;
      }
      props := props + [(KeyText(items[j].key), p.value)];
      j := j + 1;
    }
    r := Ok(HObject(props));
    assert FirstErr(rs) == |rs|;
    assert props == seq(|items|, j requires 0 <= j < |items| => (KeyText(items[j].key), rs[j].value));
  }

  /** The array case: a for loop whose counter i names the element decoded and its slot. */
  method DecodeArray(img: Image, o: nat) returns (r: Result<HostValue>)
    ensures r == ArrayBody(img, o)
    decreases Rank(img, o), 1, 1, 1
  {
    var it := Iter(img, o);
    if it.None? {
      return Err(Error(Lite3Failure));
    }
    var items := it.value;
    ghost var rs := seq(|items|, i requires 0 <= i < |items| => Decoded(img, o, ArrGetType(img, o, i), None, i));
    var elems: seq<HostValue> := [];
    var i := 0;
    while i < |items|
      invariant 0 <= i <= |items| && |elems| == i
      invariant forall l :: 0 <= l < i ==> rs[l].Ok? && elems[l] == rs[l].value
    {
      var t := ArrGetType(img, o, i);
      var x := DecodeValue(img, o, t, None, i);
      assert x == rs[i];
      if x.Err? {
        assert FirstErr(rs) == i;
        return x;
      }
      elems := elems + [x.value];
      i := i + 1;
    }
    r := Ok(HArray(elems));
    assert FirstErr(rs) == |rs|;
    assert elems == seq(|items|, i requires 0 <= i < |items| => rs[i].value);
  }

  /** decode, as written: the root is always decoded as an object. */
  method Decode(buf: Buffer) returns (r: Result<HostValue>)
    ensures r == DecodeBuffer(buf)
  {
    if buf.image.None? {
      return Err(Error(FailedContext));
    }
    r := DecodeValue(buf.image.value, 0, Object, None, -1);
  }

  /** decode, branching on the root's own type. */
  method DecodeTyped(buf: Buffer) returns (r: Result<HostValue>)
    ensures r == DecodeRoot(buf)
  {
    if buf.image.None? {
      return Err(Error(FailedContext));
    }
    r := DecodeValue(buf.image.value, 0, RootTag(buf.head), None, -1);
  }

  /** A container holding w decodes to w: the decoder reads back what the encoder wrote. */
  lemma {:induction false} HoldsDecodes(img: Image, o: nat, w: HostValue)
    requires Holds(img, o, w)
    ensures w.HObject? ==> ObjectBody(img, o) == Ok(w)
    ensures w.HArray? ==> ArrayBody(img, o) == Ok(w)
    decreases w, 1
  {
    var items := Iter(img, o).value;
    match w
    case HObject(ps) =>
      var rs := seq(|items|, j requires 0 <= j < |items| => Property(img, o, items, j));
      forall j | 0 <= j < |items| ensures rs[j] == Ok(ps[j].1) {
        PropertyDecodes(img, o, items, w, j);
      }
      assert FirstErr(rs) == |rs|;
      assert seq(|items|, j requires 0 <= j < |items| => (KeyText(items[j].key), rs[j].value)) == ps;
    case HArray(es) =>
      var rs := seq(|items|, i requires 0 <= i < |items| => Decoded(img, o, ArrGetType(img, o, i), None, i));
      forall i | 0 <= i < |items| ensures rs[i] == Ok(es[i]) {
        ElementDecodes(img, o, w, i);
      }
      assert FirstErr(rs) == |rs|;
      assert seq(|items|, i requires 0 <= i < |items| => rs[i].value) == es;
  }

  /** The j-th property of an object holding w decodes to w's j-th property value. */
  lemma {:induction false} PropertyDecodes(img: Image, o: nat, items: seq<Item>, w: HostValue, j: nat)
    requires Holds(img, o, w) && w.HObject? && Iter(img, o) == Some(items) && j < |items|
    ensures Property(img, o, items, j) == Ok(w.props[j].1)
    decreases w, 0
  {
    var fs := img[o].fields;
    var x := w.props[j].1;
    assert ContainerOk(img[o], o);
    FindDistinct(fs, j);
    assert Lookup(img, o, fs[j].0) == Some(fs[j].1);
    assert EntryHolds(img, fs[j].1, x);
    match x
    case HObject(_) =>
      HoldsDecodes(img, fs[j].1.child, x);
    case HArray(_) =>
      HoldsDecodes(img, fs[j].1.child, x);
    case _ =>
  }

  /** The i-th element of an array holding w decodes, through index i, to w's i-th element. */
  lemma {:induction false} ElementDecodes(img: Image, o: nat, w: HostValue, i: nat)
    requires Holds(img, o, w) && w.HArray? && i < |w.elems|
    ensures Decoded(img, o, ArrGetType(img, o, i), None, i) == Ok(w.elems[i])
    decreases w, 0
  {
    var e := img[o].elems[i];
    var x := w.elems[i];
    assert EntryHolds(img, e, x);
    match x
    case HObject(_) =>
      HoldsDecodes(img, e.child, x);
    case HArray(_) =>
      HoldsDecodes(img, e.child, x);
    case _ =>
  }

  /** decode(encode(v)) == v for an object root: decode of any buffer that encodes an
      object gives that object back. */
  lemma ObjectRootRoundTrip(buf: Buffer, w: HostValue)
    requires Encoded(buf, w) && w.HObject?
    ensures DecodeBuffer(buf) == Ok(w)
  {
    HoldsDecodes(buf.image.value, 0, w);
  }

  /** As written, an empty root array comes back as an empty object. */
  lemma EmptyRootArrayDecodesAsObject(buf: Buffer)
    requires Encoded(buf, HArray([]))
    ensures DecodeBuffer(buf) == Ok(HObject([]))
    ensures DecodeBuffer(buf) != Ok(HArray([]))
  {
    var img := buf.image.value;
    assert img[0] == Arr([]);
    assert DecodeBuffer(buf) == ObjectBody(img, 0);
    var items := Iter(img, 0).value;
    assert items == [];
    assert ObjectBody(img, 0).Ok? && |ObjectBody(img, 0).value.props| == 0;
  }

  /** As written, a non-empty root array fails: its items have no key, so the keyed type
      lookup of the first one finds nothing. */
  lemma NonEmptyRootArrayFails(buf: Buffer, es: seq<HostValue>)
    requires Encoded(buf, HArray(es)) && es != []
    ensures DecodeBuffer(buf) == Err(Error(Unsupported))
  {
    var img := buf.image.value;
    var items := Iter(img, 0).value;
    assert items[0].key == None;
    assert DecodeBuffer(buf) == ObjectBody(img, 0);
    assert KeyedType(img, 0, items[0].key) == Invalid;
    var rs := seq(|items|, j requires 0 <= j < |items| => Property(img, 0, items, j));
    assert rs[0] == Decoded(img, 0, Invalid, None, -1);
    assert FirstErr(rs) == 0;
  }

  /** Decoding by the root's own tag gives back every encoded root, array or object. */
  lemma RootRoundTrip(buf: Buffer, w: HostValue)
    requires Encoded(buf, w)
    ensures DecodeRoot(buf) == Ok(w)
  {
    HoldsDecodes(buf.image.value, 0, w);
  }
}
