/** The host (JavaScript) values the binding encodes from and decodes to. */
module Host {

  /** A JavaScript number. Floating point is not modelled: a number is either a double
      given by its bit pattern, or the double the host makes from an integer
      (napi_create_int64 / napi_create_uint32). No arithmetic is done on numbers. */
  datatype Number = Double(bits: bv64) | Integral(value: int)

  /** A host value, by the kind napi_typeof reports for it. Objects list the enumerable
      string keys napi_get_property_names reports, in that order, with their values;
      arrays list their elements by index. */
  datatype HostValue =
    | HObject(props: seq<(string, HostValue)>)
    | HArray(elems: seq<HostValue>)
    | HString(s: string)
    | HNumber(n: Number)
    | HBoolean(b: bool)
    | HNull
    | HUndefined
    | HFunction
    | HSymbol
    | HBigInt

  /** napi_typeof reports napi_object: an array or a plain object (null has its own type). */
  predicate IsObjectType(v: HostValue) {
    v.HObject? || v.HArray?
  }

  /** The kinds the encoder writes; every other kind is skipped. */
  predicate Supported(v: HostValue) {
    v.HObject? || v.HArray? || v.HString? || v.HNumber? || v.HBoolean? || v.HNull?
  }

  /** The elements of s that satisfy keep, in their original order. */
  function KeepIf<T>(s: seq<T>, keep: T -> bool): (r: seq<T>)
    ensures |r| <= |s|
  {
    if s == [] then []
    else KeepIf(s[..|s| - 1], keep) + (if keep(s[|s| - 1]) then [s[|s| - 1]] else [])
  }

  lemma {:induction false} KeepIfAll<T>(s: seq<T>, keep: T -> bool)
    requires forall x :: x in s ==> keep(x)
    ensures KeepIf(s, keep) == s
  {
    if s != [] {
      KeepIfAll(s[..|s| - 1], keep);
      assert s[..|s| - 1] + [s[|s| - 1]] == s;
    }
  }

  predicate SupportedField(f: (string, HostValue)) {
    Supported(f.1)
  }

  /** What the encoder leaves of v: every property or element of an unsupported kind is
      dropped, at every depth, so later array elements move down one position. */
  ghost function Normalize(v: HostValue): (r: HostValue)
    ensures Supported(r) == Supported(v)
    ensures r.HObject? == v.HObject? && r.HArray? == v.HArray?
    decreases v
  {
    match v
    case HObject(ps) =>
      HObject(KeepIf(seq(|ps|, i requires 0 <= i < |ps| => (ps[i].0, Normalize(ps[i].1))), SupportedField))
    case HArray(es) =>
      HArray(KeepIf(seq(|es|, i requires 0 <= i < |es| => Normalize(es[i])), Supported))
    case _ => v
  }

  /** Property names are distinct at every level (true of every host object). */
  ghost predicate DistinctKeys(v: HostValue)
    decreases v
  {
    match v
    case HObject(ps) =>
      && (forall i, j :: 0 <= i < j < |ps| ==> ps[i].0 != ps[j].0)
      && (forall i :: 0 <= i < |ps| ==> DistinctKeys(ps[i].1))
    case HArray(es) => forall i :: 0 <= i < |es| ==> DistinctKeys(es[i])
    case _ => true
  }

  /** v is built only from the kinds the encoder supports. */
  ghost predicate AllSupported(v: HostValue)
    decreases v
  {
    && Supported(v)
    && match v
       case HObject(ps) => forall i :: 0 <= i < |ps| ==> AllSupported(ps[i].1)
       case HArray(es) => forall i :: 0 <= i < |es| ==> AllSupported(es[i])
       case _ => true
  }

  /** Nothing is dropped from a value built only from supported kinds. */
  lemma {:induction false} NormalizeAllSupported(v: HostValue)
    requires AllSupported(v)
    ensures Normalize(v) == v
    decreases v
  {
    match v
    case HObject(ps) =>
      var m := seq(|ps|, i requires 0 <= i < |ps| => (ps[i].0, Normalize(ps[i].1)));
      forall i | 0 <= i < |ps| ensures m[i] == ps[i] {
        NormalizeAllSupported(ps[i].1);
      }
      assert m == ps;
      KeepIfAll(ps, SupportedField);
    case HArray(es) =>
      var m := seq(|es|, i requires 0 <= i < |es| => Normalize(es[i]));
      forall i | 0 <= i < |es| ensures m[i] == es[i] {
        NormalizeAllSupported(es[i]);
      }
      assert m == es;
      KeepIfAll(es, Supported);
    case _ =>
  }

  /** s[0] + ... + s[n - 1]. */
  function SumTo(s: seq<nat>, n: nat): nat
    requires n <= |s|
  {
    if n == 0 then 0 else SumTo(s, n - 1) + s[n - 1]
  }

  function Sum(s: seq<nat>): nat {
    SumTo(s, |s|)
  }

  /** The number of store writes (set or append calls) encoding the contents of v takes. */
  ghost function Writes(v: HostValue): nat
    decreases v, 0
  {
    match v
    case HObject(ps) => Sum(seq(|ps|, i requires 0 <= i < |ps| => Cost(ps[i].1)))
    case HArray(es) => Sum(seq(|es|, i requires 0 <= i < |es| => Cost(es[i])))
    case _ => 0
  }

  /** The writes v takes as a child: none when it is skipped, else one plus its contents'. */
  ghost function Cost(v: HostValue): nat
    decreases v, 1
  {
    if Supported(v) then 1 + Writes(v) else 0
  }
}
