/** The lite3 store as the binding sees it. Its byte layout is lite3's own and is not
    modelled: a store is a sequence of containers indexed by offset, offset 0 is the
    root, and a container made by a set/append call gets a fresh offset, larger than
    its parent's. Nothing else about the numeric value of offsets is relied on. */
module Lite3 {
  import opened Common
  import opened Host

  /** enum lite3_type. Unknown stands for any tag value that names no type. */
  datatype Tag = Null | Bool | I64 | F64 | Bytes | String | Object | Array | Invalid | Count | Unknown

  /** A value stored under a key or at a position: a scalar, or the offset of a child
      container. */
  datatype Entry =
    | NullValue
    | BoolValue(b: bool)
    | I64Value(i: int)
    | F64Value(n: Number)
    | BytesValue(data: seq<bv8>)
    | StringValue(s: string)
    | ObjectAt(child: nat)
    | ArrayAt(child: nat)

  predicate IsScalar(e: Entry) {
    !(e.ObjectAt? || e.ArrayAt?)
  }

  function TagOf(e: Entry): Tag {
    match e
    case NullValue => Null
    case BoolValue(_) => Bool
    case I64Value(_) => I64
    case F64Value(_) => F64
    case BytesValue(_) => Bytes
    case StringValue(_) => String
    case ObjectAt(_) => Object
    case ArrayAt(_) => Array
  }

  /** An object keeps its fields in insertion order, which is also its iteration order. */
  datatype Container = Obj(fields: seq<(string, Entry)>) | Arr(elems: seq<Entry>)

  function ContainerTag(c: Container): Tag {
    if c.Obj? then Object else Array
  }

  predicate PointsBeyond(e: Entry, o: nat) {
    (e.ObjectAt? || e.ArrayAt?) ==> e.child > o
  }

  /** The name of field i; it only serves to say when the key-uniqueness fact is used. */
  ghost function KeyOf(fs: seq<(string, Entry)>, i: nat): string
    requires i < |fs|
  {
    fs[i].0
  }

  /** The container at offset o only refers to later offsets, and an object's keys are
      distinct. */
  ghost predicate ContainerOk(c: Container, o: nat) {
    match c
    case Obj(fs) =>
      && (forall i :: 0 <= i < |fs| ==> PointsBeyond(fs[i].1, o))
      && (forall i, j {:trigger KeyOf(fs, i), KeyOf(fs, j)} :: 0 <= i < j < |fs| ==> KeyOf(fs, i) != KeyOf(fs, j))
    case Arr(es) => forall i :: 0 <= i < |es| ==> PointsBeyond(es[i], o)
  }

  ghost predicate WellFormed(s: seq<Container>) {
    forall o :: 0 <= o < |s| ==> ContainerOk(s[o], o)
  }

  /** Every state a lite3 context can be in. */
  type Image = s: seq<Container> | WellFormed(s) witness []

  /** The position of the first field named key, or |fs| when there is none. */
  function Find(fs: seq<(string, Entry)>, key: string): (i: nat)
    ensures i <= |fs|
    ensures i < |fs| ==> fs[i].0 == key
    ensures forall j :: 0 <= j < i ==> fs[j].0 != key
  {
    if fs == [] then 0
    else if fs[0].0 == key then 0
    else 1 + Find(fs[1..], key)
  }

  /** In an object with distinct keys, the field named like the i-th is the i-th. */
  lemma FindDistinct(fs: seq<(string, Entry)>, i: nat)
    requires ContainerOk(Obj(fs), 0) && i < |fs|
    ensures Find(fs, fs[i].0) == i
  {
    var k := Find(fs, fs[i].0);
    assert k < i ==> KeyOf(fs, k) != KeyOf(fs, i);
  }

  /** Keyed lookup in the object at off; nothing is found elsewhere. */
  function Lookup(img: Image, off: nat, key: string): Option<Entry> {
    if off < |img| && img[off].Obj? && Find(img[off].fields, key) < |img[off].fields|
    then Some(img[off].fields[Find(img[off].fields, key)].1)
    else None
  }

  /** Positional lookup in the array at off. */
  function ElementAt(img: Image, off: nat, index: int): Option<Entry> {
    if off < |img| && img[off].Arr? && 0 <= index < |img[off].elems|
    then Some(img[off].elems[index])
    else None
  }

  /** lite3_ctx_get_type: the tag under key, INVALID when there is none. */
  function GetType(img: Image, off: nat, key: string): Tag {
    match Lookup(img, off, key)
    case Some(e) => TagOf(e)
    case None => Invalid
  }

  /** lite3_ctx_arr_get_type. */
  function ArrGetType(img: Image, off: nat, index: int): Tag {
    match ElementAt(img, off, index)
    case Some(e) => TagOf(e)
    case None => Invalid
  }

  /** The keyed typed accessors (lite3_ctx_get_str, _i64, _f64, _bool, _obj, _arr):
      they succeed only on an entry of the wanted type. */
  function Get(img: Image, off: nat, key: string, want: Tag): (r: Option<Entry>)
    ensures r.Some? ==> TagOf(r.value) == want && Lookup(img, off, key) == r
    ensures r.Some? <==> want != Invalid && GetType(img, off, key) == want
  {
    match Lookup(img, off, key)
    case Some(e) => if TagOf(e) == want then Some(e) else None
    case None => None
  }

  /** The positional typed accessors (lite3_ctx_arr_get_str, ..., _obj, _arr). */
  function ArrGet(img: Image, off: nat, index: int, want: Tag): (r: Option<Entry>)
    ensures r.Some? ==> TagOf(r.value) == want && ElementAt(img, off, index) == r
    ensures r.Some? <==> want != Invalid && ArrGetType(img, off, index) == want
  {
    match ElementAt(img, off, index)
    case Some(e) => if TagOf(e) == want then Some(e) else None
    case None => None
  }

  /** One iterator item: the key (an array's items have none) and the value's offset. */
  datatype Item = Item(key: Option<string>, offset: nat)

  /** A child container's own offset; a scalar has none and reports its parent's. */
  function ItemOffset(e: Entry, parent: nat): nat {
    if e.ObjectAt? || e.ArrayAt? then e.child else parent
  }

  /** lite3_ctx_iter_create and the items lite3_ctx_iter_next then yields, in order. */
  function Iter(img: Image, off: nat): Option<seq<Item>> {
    if off >= |img| then None
    else match img[off]
      case Obj(fs) => Some(seq(|fs|, i requires 0 <= i < |fs| => Item(Some(fs[i].0), ItemOffset(fs[i].1, off))))
      case Arr(es) => Some(seq(|es|, i requires 0 <= i < |es| => Item(None, ItemOffset(es[i], off))))
  }

  /** lite3_ctx_count: the number of fields or elements, negative when off is no container. */
  function CountAt(img: Image, off: nat): int {
    if off >= |img| then -1
    else match img[off]
      case Obj(fs) => |fs|
      case Arr(es) => |es|
  }

  /** A byte buffer handed to decode or to a proxy query, as far as the binding looks at it:
      the tag in its first byte (None for an empty buffer), and what a context created
      from it sees (None when lite3_ctx_create_from_buf fails). */
  datatype Buffer = Buffer(head: Option<Tag>, image: Option<Image>)

  /** Keyed write: a field already named key is replaced where it stands, otherwise the
      field is added at the end. */
  function Put(fs: seq<(string, Entry)>, key: string, e: Entry): seq<(string, Entry)> {
    if Find(fs, key) < |fs| then fs[Find(fs, key) := (key, e)] else fs + [(key, e)]
  }

  lemma PutOk(fs: seq<(string, Entry)>, key: string, e: Entry, o: nat)
    requires ContainerOk(Obj(fs), o) && PointsBeyond(e, o)
    ensures ContainerOk(Obj(Put(fs, key, e)), o)
  {
    var i := Find(fs, key);
    if i == |fs| {
      var r := fs + [(key, e)];
      forall a, b | 0 <= a < b < |r| ensures KeyOf(r, a) != KeyOf(r, b) {
        if b == |fs| {
          assert r[a] == fs[a];
        } else {
          assert KeyOf(r, a) == KeyOf(fs, a) && KeyOf(r, b) == KeyOf(fs, b);
        }
      }
    } else {
      var r := fs[i := (key, e)];
      forall a, b | 0 <= a < b < |r| ensures KeyOf(r, a) != KeyOf(r, b) {
        if a != i && b != i {
          assert KeyOf(r, a) == KeyOf(fs, a) && KeyOf(r, b) == KeyOf(fs, b);
        } else if a == i {
          assert KeyOf(r, b) == KeyOf(fs, b) && KeyOf(fs, i) == key;
        } else {
          assert KeyOf(r, a) == KeyOf(fs, a) && KeyOf(fs, i) == key;
        }
      }
    }
  }

  /** A lite3 context being written (lite3_ctx). Its buffer's capacity is modelled as room:
      each set or append takes one unit, and one that finds none left fails as a buffer
      that cannot grow does. */
  class Store {
    var image: Image
    var room: nat

    /** lite3_ctx_create: an empty context. */
    constructor (room: nat)
      ensures image == [] && this.room == room
    {
      image := [];
      this.room := room;
    }

    /** lite3_ctx_init_obj: the root, at offset 0, is an empty object. */
    method InitObj()
      modifies this
      ensures image == [Obj([])] && room == old(room)
    {
      image := [Obj([])];
    }

    /** lite3_ctx_init_arr: the root, at offset 0, is an empty array. */
    method InitArr()
      modifies this
      ensures image == [Arr([])] && room == old(room)
    {
      image := [Arr([])];
    }

    /** lite3_ctx_set_str, _f64, _bool, _null: a scalar under key in the object at off. */
    method Set(off: nat, key: string, e: Entry) returns (rc: int)
      requires IsScalar(e)
      modifies this
      ensures (rc == 0) <==> (old(room) > 0 && off < |old(image)| && old(image)[off].Obj?)
      ensures rc == 0 ==> room == old(room) - 1
      ensures rc == 0 ==> image == old(image)[off := Obj(Put(old(image)[off].fields, key, e))]
      ensures rc != 0 ==> image == old(image) && room == old(room)
    {
      if room == 0 || off >= |image| || !image[off].Obj? {
        return -1;
      }
      PutOk(image[off].fields, key, e, off);
      image := image[off := Obj(Put(image[off].fields, key, e))];
      room := room - 1;
      rc := 0;
    }

    /** lite3_ctx_arr_append_str, _f64, _bool, _null: a scalar at the end of the array at off. */
    method Append(off: nat, e: Entry) returns (rc: int)
      requires IsScalar(e)
      modifies this
      ensures (rc == 0) <==> (old(room) > 0 && off < |old(image)| && old(image)[off].Arr?)
      ensures rc == 0 ==> room == old(room) - 1
      ensures rc == 0 ==> image == old(image)[off := Arr(old(image)[off].elems + [e])]
      ensures rc != 0 ==> image == old(image) && room == old(room)
    {
      if room == 0 || off >= |image| || !image[off].Arr? {
        return -1;
      }
      image := image[off := Arr(image[off].elems + [e])];
      room := room - 1;
      rc := 0;
    }

    /** lite3_ctx_set_obj / lite3_ctx_set_arr: a new empty container under key in the
        object at off; child is its offset. */
    method SetContainer(off: nat, key: string, isArray: bool) returns (rc: int, child: nat)
      modifies this
      ensures (rc == 0) <==> (old(room) > 0 && off < |old(image)| && old(image)[off].Obj?)
      ensures rc == 0 ==> room == old(room) - 1 && child == |old(image)|
      ensures rc == 0 ==> image == old(image)[off := Obj(Put(old(image)[off].fields, key,
                                   if isArray then ArrayAt(child) else ObjectAt(child)))]
                                 + [if isArray then Arr([]) else Obj([])]
      ensures rc != 0 ==> image == old(image) && room == old(room)
    {
      child := |image|;
      if room == 0 || off >= |image| || !image[off].Obj? {
        return -1, child;
      }
      var e := if isArray then ArrayAt(child) else ObjectAt(child);
      PutOk(image[off].fields, key, e, off);
      image := image[off := Obj(Put(image[off].fields, key, e))] + [if isArray then Arr([]) else Obj([])];
      room := room - 1;
      rc := 0;
    }

    /** lite3_ctx_arr_append_obj / lite3_ctx_arr_append_arr: a new empty container at the end
        of the array at off; child is its offset. */
    method AppendContainer(off: nat, isArray: bool) returns (rc: int, child: nat)
      modifies this
      ensures (rc == 0) <==> (old(room) > 0 && off < |old(image)| && old(image)[off].Arr?)
      ensures rc == 0 ==> room == old(room) - 1 && child == |old(image)|
      ensures rc == 0 ==> image == old(image)[off := Arr(old(image)[off].elems +
                                   [if isArray then ArrayAt(child) else ObjectAt(child)])]
                                 + [if isArray then Arr([]) else Obj([])]
      ensures rc != 0 ==> image == old(image) && room == old(room)
    {
      child := |image|;
      if room == 0 || off >= |image| || !image[off].Arr? {
        return -1, child;
      }
      var e := if isArray then ArrayAt(child) else ObjectAt(child);
      image := image[off := Arr(image[off].elems + [e])] + [if isArray then Arr([]) else Obj([])];
      room := room - 1;
      rc := 0;
    }

    /** The bytes napi_create_buffer_copy takes out of the context: the root's tag comes first. */
    function Snapshot(): (b: Buffer)
      reads this
      ensures b.image == Some(image)
      ensures |image| > 0 ==> b.head == Some(ContainerTag(image[0]))
    {
      Buffer(if |image| > 0 then Some(ContainerTag(image[0])) else None, Some(image))
    }
  }
}
