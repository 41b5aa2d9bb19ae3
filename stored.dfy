/** What it means for a store image to hold a host value: the correspondence the encoder
    establishes and the decoder and the queries read back. */
module Stored {
  import opened Common
  import opened Host
  import opened Lite3

  /** Entry e holds v: scalars are stored as they are (every number as F64), a nested
      object or array as the offset of a container holding it. */
  ghost predicate EntryHolds(img: Image, e: Entry, v: HostValue)
    decreases v, 1
  {
    match v
    case HString(s) => e == StringValue(s)
    case HNumber(n) => e == F64Value(n)
    case HBoolean(b) => e == BoolValue(b)
    case HNull => e == NullValue
    case HObject(_) => e.ObjectAt? && Holds(img, e.child, v)
    case HArray(_) => e.ArrayAt? && Holds(img, e.child, v)
    case _ => false
  }

  /** The container at offset o holds v: same kind, same keys in the same order, and each
      entry holds the matching child. */
  ghost predicate Holds(img: Image, o: nat, v: HostValue)
    decreases v, 0
  {
    && o < |img|
    && match v
       case HObject(ps) =>
         && img[o].Obj?
         && |img[o].fields| == |ps|
         && forall i :: 0 <= i < |ps| ==>
              img[o].fields[i].0 == ps[i].0 && EntryHolds(img, img[o].fields[i].1, ps[i].1)
       case HArray(es) =>
         && img[o].Arr?
         && |img[o].elems| == |es|
         && forall i :: 0 <= i < |es| ==> EntryHolds(img, img[o].elems[i], es[i])
       case _ => false
  }

  /** Field i is named like property i and its entry holds the property's value. */
  ghost predicate FieldHeld(img: Image, fs: seq<(string, Entry)>, ps: seq<(string, HostValue)>, i: nat)
    requires i < |fs| && i < |ps|
  {
    fs[i].0 == ps[i].0 && EntryHolds(img, fs[i].1, ps[i].1)
  }

  /** The fields fs hold the properties ps, position by position. */
  ghost predicate FieldsHold(img: Image, fs: seq<(string, Entry)>, ps: seq<(string, HostValue)>) {
    && |fs| == |ps|
    && forall i {:trigger FieldHeld(img, fs, ps, i)} :: 0 <= i < |ps| ==> FieldHeld(img, fs, ps, i)
  }

  /** Entry i holds value i. */
  ghost predicate ElemHeld(img: Image, es: seq<Entry>, vs: seq<HostValue>, i: nat)
    requires i < |es| && i < |vs|
  {
    EntryHolds(img, es[i], vs[i])
  }

  /** The entries es hold the values vs, position by position. */
  ghost predicate ElemsHold(img: Image, es: seq<Entry>, vs: seq<HostValue>) {
    && |es| == |vs|
    && forall i {:trigger ElemHeld(img, es, vs, i)} :: 0 <= i < |vs| ==> ElemHeld(img, es, vs, i)
  }

  /** img' agrees with img from offset lo on, and may have more containers after. */
  ghost predicate AgreesFrom(img: Image, img': Image, lo: nat) {
    |img| <= |img'| && forall k :: lo <= k < |img| ==> img'[k] == img[k]
  }

  /** A value is read only from its own container and later ones, so changes before it and
      new containers after the image's end leave it held. */
  lemma {:induction false} HoldsFrame(img: Image, img': Image, o: nat, v: HostValue, lo: nat)
    requires Holds(img, o, v) && lo <= o && AgreesFrom(img, img', lo)
    ensures Holds(img', o, v)
    decreases v, 0
  {
    assert ContainerOk(img[o], o);
    match v
    case HObject(ps) =>
      forall i | 0 <= i < |ps|
        ensures img'[o].fields[i].0 == ps[i].0 && EntryHolds(img', img'[o].fields[i].1, ps[i].1)
      {
        assert PointsBeyond(img[o].fields[i].1, o);
        EntryHoldsFrame(img, img', img[o].fields[i].1, ps[i].1, lo);
      }
    case HArray(es) =>
      forall i | 0 <= i < |es| ensures EntryHolds(img', img'[o].elems[i], es[i]) {
        assert PointsBeyond(img[o].elems[i], o);
        EntryHoldsFrame(img, img', img[o].elems[i], es[i], lo);
      }
  }

  lemma {:induction false} EntryHoldsFrame(img: Image, img': Image, e: Entry, v: HostValue, lo: nat)
    requires EntryHolds(img, e, v) && AgreesFrom(img, img', lo)
    requires (e.ObjectAt? || e.ArrayAt?) ==> lo <= e.child
    ensures EntryHolds(img', e, v)
    decreases v, 1
  {
    match v
    case HObject(_) => HoldsFrame(img, img', e.child, v, lo);
    case HArray(_) => HoldsFrame(img, img', e.child, v, lo);
    case _ =>
  }

  /** Fields of the container at o stay held when only o and new containers change. */
  lemma FieldsFrame(img: Image, img': Image, fs: seq<(string, Entry)>, ps: seq<(string, HostValue)>, o: nat)
    requires FieldsHold(img, fs, ps) && AgreesFrom(img, img', o + 1)
    requires forall i :: 0 <= i < |fs| ==> PointsBeyond(fs[i].1, o)
    ensures FieldsHold(img', fs, ps)
  {
    forall i | 0 <= i < |ps| ensures FieldHeld(img', fs, ps, i) {
      assert FieldHeld(img, fs, ps, i) && PointsBeyond(fs[i].1, o);
      EntryHoldsFrame(img, img', fs[i].1, ps[i].1, o + 1);
    }
  }

  /** Elements of the container at o stay held when only o and new containers change. */
  lemma ElemsFrame(img: Image, img': Image, es: seq<Entry>, vs: seq<HostValue>, o: nat)
    requires ElemsHold(img, es, vs) && AgreesFrom(img, img', o + 1)
    requires forall i :: 0 <= i < |es| ==> PointsBeyond(es[i], o)
    ensures ElemsHold(img', es, vs)
  {
    forall i | 0 <= i < |vs| ensures ElemHeld(img', es, vs, i) {
      assert ElemHeld(img, es, vs, i) && PointsBeyond(es[i], o);
      EntryHoldsFrame(img, img', es[i], vs[i], o + 1);
    }
  }

  /** A buffer that encodes v: its first byte is v's container tag and its root holds v. */
  ghost predicate Encoded(buf: Buffer, v: HostValue) {
    && buf.head == Some(if v.HArray? then Array else Object)
    && buf.image.Some?
    && Holds(buf.image.value, 0, v)
  }
}
