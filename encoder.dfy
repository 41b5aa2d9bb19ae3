/** addon_encode.c: a depth-first, pre-order walk over a host value that writes it into a
    fresh lite3 context. */
module Encoder {
  import opened Common
  import opened Host
  import opened Lite3
  import opened Stored

  const ArgumentMustBeObject := "Argument must be an array or object"
  /** A failing string write returns a failure without throwing; the top level then throws
      N-API's last error message, which is empty after successful N-API calls. */
  const NapiFailure := "N-API error"

  /** Only the container at off may change; containers may be added after the end. */
  ghost predicate OnlyChanged(before: Image, after: Image, off: nat) {
    |before| <= |after| && forall k :: 0 <= k < |before| && k != off ==> after[k] == before[k]
  }

  /** The array's elements after writing v at its end: one more entry holding v, or none
      when v is skipped. */
  ghost predicate ElemAdded(img: Image, before: seq<Entry>, after: seq<Entry>, v: HostValue) {
    if Supported(v) then
      |after| == |before| + 1 && after[..|before|] == before && EntryHolds(img, after[|before|], Normalize(v))
    else after == before
  }

  /** The object's fields after writing v under key: one more field, named key, holding v,
      or none when v is skipped. */
  ghost predicate FieldAdded(img: Image, before: seq<(string, Entry)>, after: seq<(string, Entry)>,
                             key: string, v: HostValue) {
    if Supported(v) then
      && |after| == |before| + 1 && after[..|before|] == before
      && after[|before|].0 == key && EntryHolds(img, after[|before|].1, Normalize(v))
    else after == before
  }

  /** The writes taken by the first n properties of an object. */
  ghost function PropsWrites(ps: seq<(string, HostValue)>, n: nat): nat
    requires n <= |ps|
  {
    if n == 0 then 0 else PropsWrites(ps, n - 1) + Cost(ps[n - 1].1)
  }

  /** The writes taken by the first n elements of an array. */
  ghost function ElemsWrites(es: seq<HostValue>, n: nat): nat
    requires n <= |es|
  {
    if n == 0 then 0 else ElemsWrites(es, n - 1) + Cost(es[n - 1])
  }

  /** What the encoder keeps of the first n properties: the supported ones, normalized. */
  ghost function KeptProps(ps: seq<(string, HostValue)>, n: nat): seq<(string, HostValue)>
    requires n <= |ps|
  {
    if n == 0 then []
    else KeptProps(ps, n - 1) + (if Supported(ps[n - 1].1) then [(ps[n - 1].0, Normalize(ps[n - 1].1))] else [])
  }

  /** What the encoder keeps of the first n elements: the supported ones, normalized. */
  ghost function KeptElems(es: seq<HostValue>, n: nat): seq<HostValue>
    requires n <= |es|
  {
    if n == 0 then []
    else KeptElems(es, n - 1) + (if Supported(es[n - 1]) then [Normalize(es[n - 1])] else [])
  }

  /** Writing more properties never takes fewer writes. */
  lemma {:induction false} PropsWritesGrow(ps: seq<(string, HostValue)>, i: nat, j: nat)
    requires i <= j <= |ps|
    ensures PropsWrites(ps, i) <= PropsWrites(ps, j)
    decreases j - i
  {
    if i < j {
      PropsWritesGrow(ps, i, j - 1);
    }
  }

  lemma {:induction false} ElemsWritesGrow(es: seq<HostValue>, i: nat, j: nat)
    requires i <= j <= |es|
    ensures ElemsWrites(es, i) <= ElemsWrites(es, j)
    decreases j - i
  {
    if i < j {
      ElemsWritesGrow(es, i, j - 1);
    }
  }

  /** The contents' writes of a container are its children's costs, summed. */
  lemma WritesProps(v: HostValue)
    requires v.HObject?
    ensures Writes(v) == PropsWrites(v.props, |v.props|)
  {
    var ps := v.props;
    var costs: seq<nat> := seq(|ps|, i requires 0 <= i < |ps| => Cost(ps[i].1));
    SumToProps(ps, costs, |ps|);
  }

  lemma {:induction false} SumToProps(ps: seq<(string, HostValue)>, costs: seq<nat>, n: nat)
    requires |costs| == |ps| && n <= |ps|
    requires forall l :: 0 <= l < |ps| ==> costs[l] == Cost(ps[l].1)
    ensures SumTo(costs, n) == PropsWrites(ps, n)
  {
    if n > 0 {
      SumToProps(ps, costs, n - 1);
    }
  }

  lemma WritesElems(v: HostValue)
    requires v.HArray?
    ensures Writes(v) == ElemsWrites(v.elems, |v.elems|)
  {
    var es := v.elems;
    var costs: seq<nat> := seq(|es|, i requires 0 <= i < |es| => Cost(es[i]));
    SumToElems(es, costs, |es|);
  }

  lemma {:induction false} SumToElems(es: seq<HostValue>, costs: seq<nat>, n: nat)
    requires |costs| == |es| && n <= |es|
    requires forall l :: 0 <= l < |es| ==> costs[l] == Cost(es[l])
    ensures SumTo(costs, n) == ElemsWrites(es, n)
  {
    if n > 0 {
      SumToElems(es, costs, n - 1);
    }
  }

  /** Normalizing an object keeps exactly KeptProps of its properties. */
  lemma NormalizeProps(v: HostValue)
    requires v.HObject?
    ensures Normalize(v) == HObject(KeptProps(v.props, |v.props|))
  {
    var ps := v.props;
    var m := seq(|ps|, i requires 0 <= i < |ps| => (ps[i].0, Normalize(ps[i].1)));
    KeepIfProps(ps, m, |ps|);
    assert m[..|ps|] == m;
  }

  lemma {:induction false} KeepIfProps(ps: seq<(string, HostValue)>, m: seq<(string, HostValue)>, n: nat)
    requires |m| == |ps| && n <= |ps|
    requires forall l :: 0 <= l < |ps| ==> m[l] == (ps[l].0, Normalize(ps[l].1))
    ensures KeepIf(m[..n], SupportedField) == KeptProps(ps, n)
  {
    if n > 0 {
      KeepIfProps(ps, m, n - 1);
      assert m[..n][..n - 1] == m[..n - 1];
    }
  }

  lemma NormalizeElems(v: HostValue)
    requires v.HArray?
    ensures Normalize(v) == HArray(KeptElems(v.elems, |v.elems|))
  {
    var es := v.elems;
    var m := seq(|es|, i requires 0 <= i < |es| => Normalize(es[i]));
    KeepIfElems(es, m, |es|);
    assert m[..|es|] == m;
  }

  lemma {:induction false} KeepIfElems(es: seq<HostValue>, m: seq<HostValue>, n: nat)
    requires |m| == |es| && n <= |es|
    requires forall l :: 0 <= l < |es| ==> m[l] == Normalize(es[l])
    ensures KeepIf(m[..n], Supported) == KeptElems(es, n)
  {
    if n > 0 {
      KeepIfElems(es, m, n - 1);
      assert m[..n][..n - 1] == m[..n - 1];
    }
  }

  /** The keys kept from the first n properties are among theirs. */
  lemma {:induction false} KeptKeysFresh(ps: seq<(string, HostValue)>, n: nat, key: string)
    requires n <= |ps| && forall l :: 0 <= l < n ==> ps[l].0 != key
    ensures forall j :: 0 <= j < |KeptProps(ps, n)| ==> KeptProps(ps, n)[j].0 != key
  {
    if n > 0 {
      KeptKeysFresh(ps, n - 1, key);
    }
  }

  /** The keys written so far come from earlier properties, so the next key is new. */
  lemma KeyFresh(img: Image, ps: seq<(string, HostValue)>, i: nat, fs: seq<(string, Entry)>)
    requires forall a, b :: 0 <= a < b < |ps| ==> ps[a].0 != ps[b].0
    requires i < |ps| && FieldsHold(img, fs, KeptProps(ps, i))
    ensures forall j :: 0 <= j < |fs| ==> fs[j].0 != ps[i].0
  {
    KeptKeysFresh(ps, i, ps[i].0);
    forall j | 0 <= j < |fs| ensures fs[j].0 != ps[i].0 {
      assert FieldHeld(img, fs, KeptProps(ps, i), j);
    }
  }

  lemma ElemsExtend(img: Image, es: seq<Entry>, gs: seq<Entry>, done: seq<HostValue>, x: HostValue)
    requires ElemsHold(img, es, done)
    requires |gs| == |es| + 1 && gs[..|es|] == es && EntryHolds(img, gs[|es|], x)
    ensures ElemsHold(img, gs, done + [x])
  {
    var ds := done + [x];
    forall j | 0 <= j < |ds| ensures ElemHeld(img, gs, ds, j) {
      if j < |es| {
        assert ElemHeld(img, es, done, j);
        assert gs[..|es|][j] == gs[j];
      }
    }
  }

  /** After element i is written, the first i + 1 elements are held. */
  lemma ElemStep(before: Image, after: Image, off: nat, es: seq<HostValue>, i: nat)
    requires i < |es|
    requires off < |before| && before[off].Arr? && ElemsHold(before, before[off].elems, KeptElems(es, i))
    requires OnlyChanged(before, after, off) && after[off].Arr?
    requires ElemAdded(after, before[off].elems, after[off].elems, es[i])
    ensures ElemsHold(after, after[off].elems, KeptElems(es, i + 1))
  {
    var xs := before[off].elems;
    assert ContainerOk(before[off], off);
    ElemsFrame(before, after, xs, KeptElems(es, i), off);
    if Supported(es[i]) {
      ElemsExtend(after, xs, after[off].elems, KeptElems(es, i), Normalize(es[i]));
    } else {
      assert KeptElems(es, i) + [] == KeptElems(es, i);
    }
  }

  lemma FieldsExtend(img: Image, fs: seq<(string, Entry)>, gs: seq<(string, Entry)>,
                     done: seq<(string, HostValue)>, f: (string, HostValue))
    requires FieldsHold(img, fs, done)
    requires |gs| == |fs| + 1 && gs[..|fs|] == fs
    requires gs[|fs|].0 == f.0 && EntryHolds(img, gs[|fs|].1, f.1)
    ensures FieldsHold(img, gs, done + [f])
  {
    var ds := done + [f];
    forall j | 0 <= j < |ds| ensures FieldHeld(img, gs, ds, j) {
      if j < |fs| {
        assert FieldHeld(img, fs, done, j);
        assert gs[..|fs|][j] == gs[j];
      }
    }
  }

  /** After property i is written, the first i + 1 properties are held. */
  lemma FieldStep(before: Image, after: Image, off: nat, ps: seq<(string, HostValue)>, i: nat)
    requires i < |ps|
    requires off < |before| && before[off].Obj? && FieldsHold(before, before[off].fields, KeptProps(ps, i))
    requires OnlyChanged(before, after, off) && after[off].Obj?
    requires FieldAdded(after, before[off].fields, after[off].fields, ps[i].0, ps[i].1)
    ensures FieldsHold(after, after[off].fields, KeptProps(ps, i + 1))
  {
    var fs := before[off].fields;
    assert ContainerOk(before[off], off);
    FieldsFrame(before, after, fs, KeptProps(ps, i), off);
    if Supported(ps[i].1) {
      FieldsExtend(after, fs, after[off].fields, KeptProps(ps, i), (ps[i].0, Normalize(ps[i].1)));
    } else {
      assert KeptProps(ps, i) + [] == KeptProps(ps, i);
    }
  }

  lemma OnlyChangedTrans(a: Image, b: Image, c: Image, off: nat)
    requires OnlyChanged(a, b, off) && OnlyChanged(b, c, off)
    ensures OnlyChanged(a, c, off)
  {
  }

  /** Once every property is written the container holds the normalized object. */
  lemma FieldsDone(img: Image, off: nat, v: HostValue)
    requires v.HObject? && off < |img| && img[off].Obj?
    requires FieldsHold(img, img[off].fields, KeptProps(v.props, |v.props|))
    ensures Holds(img, off, Normalize(v))
  {
    NormalizeProps(v);
    var fs := img[off].fields;
    var n := KeptProps(v.props, |v.props|);
    forall i | 0 <= i < |n| ensures fs[i].0 == n[i].0 && EntryHolds(img, fs[i].1, n[i].1) {
      assert FieldHeld(img, fs, n, i);
    }
  }

  /** Once every element is written the container holds the normalized array. */
  lemma ElemsDone(img: Image, off: nat, v: HostValue)
    requires v.HArray? && off < |img| && img[off].Arr?
    requires ElemsHold(img, img[off].elems, KeptElems(v.elems, |v.elems|))
    ensures Holds(img, off, Normalize(v))
  {
    NormalizeElems(v);
    var xs := img[off].elems;
    var n := KeptElems(v.elems, |v.elems|);
    forall i | 0 <= i < |n| ensures EntryHolds(img, xs[i], n[i]) {
      assert ElemHeld(img, xs, n, i);
    }
  }

  /** encode_enumerable: writes the properties (or elements) of v, in order, into the empty
      container at off. Every write takes one unit of room, so the walk succeeds exactly when
      v's writes fit; it stops at the first failing write. */
  method EncodeEnumerable(st: Store, v: HostValue, isArray: bool, off: nat) returns (ok: bool, thrown: bool)
    requires IsObjectType(v) && isArray == v.HArray? && DistinctKeys(v)
    requires off < |st.image| && st.image[off] == (if isArray then Arr([]) else Obj([]))
    modifies st
    ensures ok <==> Writes(v) <= old(st.room)
    ensures ok ==> st.room == old(st.room) - Writes(v) && Holds(st.image, off, Normalize(v))
    ensures OnlyChanged(old(st.image), st.image, off)
    decreases v, 2
  {
    if isArray {
      ok, thrown := EncodeElems(st, v, off);
    } else {
      ok, thrown := EncodeFields(st, v, off);
    }
  }

  /** The object case of encode_enumerable: its own enumerable properties in order. */
  method EncodeFields(st: Store, v: HostValue, off: nat) returns (ok: bool, thrown: bool)
    requires v.HObject? && DistinctKeys(v)
    requires off < |st.image| && st.image[off] == Obj([])
    modifies st
    ensures ok <==> Writes(v) <= old(st.room)
    ensures ok ==> st.room == old(st.room) - Writes(v) && Holds(st.image, off, Normalize(v))
    ensures OnlyChanged(old(st.image), st.image, off)
    decreases v, 1
  {
    var ps := v.props;
    WritesProps(v);
    var i := 0;
    while i < |ps|
      invariant 0 <= i <= |ps|
      invariant off < |st.image| && st.image[off].Obj?
      invariant PropsWrites(ps, i) <= old(st.room) && st.room == old(st.room) - PropsWrites(ps, i)
      invariant FieldsHold(st.image, st.image[off].fields, KeptProps(ps, i))
      invariant OnlyChanged(old(st.image), st.image, off)
    {
      ghost var before := st.image;
      KeyFresh(before, ps, i, st.image[off].fields);
      ok, thrown := EncodeElement(st, ps[i].0, ps[i].1, false, off);
      if !ok {
        PropsWritesGrow(ps, i + 1, |ps|);
        return false, thrown;
      }
      FieldStep(before, st.image, off, ps, i);
      OnlyChangedTrans(old(st.image), before, st.image, off);
      i := i + 1;
    }
    FieldsDone(st.image, off, v);
    ok, thrown := true, false;
  }

  /** The array case of encode_enumerable: its elements by index. */
  method EncodeElems(st: Store, v: HostValue, off: nat) returns (ok: bool, thrown: bool)
    requires v.HArray? && DistinctKeys(v)
    requires off < |st.image| && st.image[off] == Arr([])
    modifies st
    ensures ok <==> Writes(v) <= old(st.room)
    ensures ok ==> st.room == old(st.room) - Writes(v) && Holds(st.image, off, Normalize(v))
    ensures OnlyChanged(old(st.image), st.image, off)
    decreases v, 1
  {
    var es := v.elems;
    WritesElems(v);
    var i := 0;
    while i < |es|
      invariant 0 <= i <= |es|
      invariant off < |st.image| && st.image[off].Arr?
      invariant ElemsWrites(es, i) <= old(st.room) && st.room == old(st.room) - ElemsWrites(es, i)
      invariant ElemsHold(st.image, st.image[off].elems, KeptElems(es, i))
      invariant OnlyChanged(old(st.image), st.image, off)
    {
      ghost var before := st.image;
      ok, thrown := EncodeElement(st, "", es[i], true, off);
      if !ok {
        ElemsWritesGrow(es, i + 1, |es|);
        return false, thrown;
      }
      ElemStep(before, st.image, off, es, i);
      OnlyChangedTrans(old(st.image), before, st.image, off);
      i := i + 1;
    }
    ElemsDone(st.image, off, v);
    ok, thrown := true, false;
  }

  /** encode_element: writes one child v of the container at off, with the positional
      append primitive under an array parent and the keyed set primitive under key
      otherwise. Numbers are written as F64. A nested object or array first gets a new
      empty container of its kind and is then written at that container's offset.
      Unsupported kinds write nothing and succeed. */
  method EncodeElement(st: Store, key: string, v: HostValue, parentIsArray: bool, off: nat) returns (ok: bool, thrown: bool)
    requires DistinctKeys(v)
    requires off < |st.image|
    requires parentIsArray ==> st.image[off].Arr?
    requires !parentIsArray ==> st.image[off].Obj?
    requires !parentIsArray ==> forall j :: 0 <= j < |st.image[off].fields| ==> st.image[off].fields[j].0 != key
    modifies st
    ensures ok <==> Cost(v) <= old(st.room)
    ensures ok ==> st.room == old(st.room) - Cost(v)
    ensures OnlyChanged(old(st.image), st.image, off)
    ensures ok && parentIsArray ==>
              st.image[off].Arr? && ElemAdded(st.image, old(st.image)[off].elems, st.image[off].elems, v)
    ensures ok && !parentIsArray ==>
              st.image[off].Obj? && FieldAdded(st.image, old(st.image)[off].fields, st.image[off].fields, key, v)
    decreases v, 4
  {
    var rc: int;
    match v {
      case HString(s) =>
        if parentIsArray { rc := st.Append(off, StringValue(s)); } else { rc := st.Set(off, key, StringValue(s)); }
        ok, thrown := rc == 0, false;
      case HNumber(n) =>
        if parentIsArray { rc := st.Append(off, F64Value(n)); } else { rc := st.Set(off, key, F64Value(n)); }
        ok, thrown := rc == 0, rc != 0;
      case HBoolean(b) =>
        if parentIsArray { rc := st.Append(off, BoolValue(b)); } else { rc := st.Set(off, key, BoolValue(b)); }
        ok, thrown := rc == 0, rc != 0;
      case HNull =>
        if parentIsArray { rc := st.Append(off, NullValue); } else { rc := st.Set(off, key, NullValue); }
        ok, thrown := rc == 0, rc != 0;
      case HObject(_) =>
        ok, thrown := EncodeChild(st, key, v, parentIsArray, off);
      case HArray(_) =>
        ok, thrown := EncodeChild(st, key, v, parentIsArray, off);
      case _ =>
        ok, thrown := true, false;
    }
  }

  /** The napi_object case of encode_element: allocate, then recurse at the new offset. */
  method EncodeChild(st: Store, key: string, v: HostValue, parentIsArray: bool, off: nat) returns (ok: bool, thrown: bool)
    requires IsObjectType(v) && DistinctKeys(v)
    requires off < |st.image|
    requires parentIsArray ==> st.image[off].Arr?
    requires !parentIsArray ==> st.image[off].Obj?
    requires !parentIsArray ==> forall j :: 0 <= j < |st.image[off].fields| ==> st.image[off].fields[j].0 != key
    modifies st
    ensures ok <==> Cost(v) <= old(st.room)
    ensures ok ==> st.room == old(st.room) - Cost(v)
    ensures OnlyChanged(old(st.image), st.image, off)
    ensures ok && parentIsArray ==>
              st.image[off].Arr? && ElemAdded(st.image, old(st.image)[off].elems, st.image[off].elems, v)
    ensures ok && !parentIsArray ==>
              st.image[off].Obj? && FieldAdded(st.image, old(st.image)[off].fields, st.image[off].fields, key, v)
    decreases v, 3
  {
    var isArray := v.HArray?;
    var rc: int, child: nat;
    if parentIsArray {
      rc, child := st.AppendContainer(off, isArray);
    } else {
      rc, child := st.SetContainer(off, key, isArray);
    }
    if rc != 0 {
      return false, true;
    }
    ghost var mid := st.image;
    ok, thrown := EncodeEnumerable(st, v, isArray, child);
    if ok {
      assert st.image[off] == mid[off];
      if parentIsArray {
        assert st.image[off].elems[..|old(st.image)[off].elems|] == old(st.image)[off].elems;
      } else {
        assert st.image[off].fields[..|old(st.image)[off].fields|] == old(st.image)[off].fields;
      }
    }
  }

  /** encode: a host value whose type is not object (a scalar, null, a function, ...) is
      refused before any context exists. Otherwise the root is primed as an array exactly
      when the value is one, else as an object, the contents are written from offset 0, and
      the context's bytes are returned; when a write fails, the context is destroyed and
      no buffer is returned. */
  method Encode(v: HostValue, room: nat) returns (r: Result<Buffer>)
    requires DistinctKeys(v)
    ensures !IsObjectType(v) ==> r == Err(Error(ArgumentMustBeObject))
    ensures IsObjectType(v) ==> (r.Ok? <==> Writes(v) <= room)
    ensures IsObjectType(v) && r.Err? ==> r.error.message in {Lite3Failure, NapiFailure}
    ensures r.Ok? ==> Encoded(r.value, Normalize(v))
  {
    if !IsObjectType(v) {
      return Err(Error(ArgumentMustBeObject));
    }
    var st := new Store(room);
    var isArray := v.HArray?;
    if isArray {
      st.InitArr();
    } else {
      st.InitObj();
    }
    var ok, thrown := EncodeEnumerable(st, v, isArray, 0);
    if !ok {
      return Err(Error(if thrown then Lite3Failure else NapiFailure));
    }
    r := Ok(st.Snapshot());
  }
}
