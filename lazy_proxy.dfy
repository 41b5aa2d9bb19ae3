/** proxy.ts: lazy proxies over a buffer. A proxy stands for the container at one offset;
    it answers property reads with one-shot queries, hands out child proxies for nested
    containers, and memoises what it hands out so that repeated reads are identical. */
module LazyProxy {
  import opened Common
  import opened Host
  import opened Lite3
  import opened Stored
  import opened Encoder
  import opened Queries

  /** The well-known symbols the traps look at; every other symbol is OtherSymbol. */
  datatype Symbol = BufferSymbol | DecodeSymbol | IsLite3BufferSymbol | IteratorSymbol | OtherSymbol

  /** A property key: a symbol or a string. */
  datatype Prop = Sym(sym: Symbol) | Name(name: string)

  /** What a trap hands back: a plain value (undefined, a boolean, a read scalar), a child
      proxy, the underlying buffer, the `() => decode(buffer)` function, the generator
      `Symbol.iterator` returns, or one of the array helper functions. */
  datatype JsValue =
    | Plain(value: HostValue)
    | ObjectRef(obj: ObjectProxy)
    | ArrayRef(arr: ArrayProxy)
    | BufferRef(buffer: Buffer)
    | DecodeThunk(source: Buffer)
    | ElementGenerator(over: ArrayProxy)
    | Helper(helper: string, of: ArrayProxy)

  const Undefined := Plain(HUndefined)

  /** A property descriptor; value is present only for an array proxy's 'length'. */
  datatype Descriptor = Descriptor(value: Option<nat>, writable: bool, enumerable: bool, configurable: bool)

  /** What a read through a proxy hands out, up to the identity of a new proxy: an object
      proxy at an offset, an array proxy at an offset with its length, or a plain value. */
  datatype Shape =
    | ObjectShape(buffer: Buffer, offset: nat)
    | ArrayShape(buffer: Buffer, offset: nat, length: nat)
    | ScalarShape(value: HostValue)

  /** The shape of a value a read hands out; None for the values no read produces. */
  function ShapeOf(v: JsValue): Option<Shape> {
    match v
    case ObjectRef(p) => Some(ObjectShape(p.buffer, p.offset))
    case ArrayRef(a) => Some(ArrayShape(a.buffer, a.offset, a.length))
    case Plain(x) => Some(ScalarShape(x))
    case _ => None
  }

  /** The answer both proxies give for $buffer, $isLite3Buffer and $decode, and None for
      any other symbol. */
  function WellKnown(buffer: Buffer, s: Symbol): (r: Option<JsValue>)
    ensures r.Some? <==> s in {BufferSymbol, IsLite3BufferSymbol, DecodeSymbol}
  {
    match s
    case BufferSymbol => Some(BufferRef(buffer))
    case IsLite3BufferSymbol => Some(Plain(HBoolean(true)))
    case DecodeSymbol => Some(DecodeThunk(buffer))
    case _ => None
  }

  /** The outcome of reading the property key of the object at offset afresh: getType;
      nothing for "undefined"; getChildOffset for "object" and "array" (and getLength at
      the child for "array"); getValue for anything else. The first failing query's error
      is the outcome's. */
  function PropertyShape(buffer: Buffer, offset: nat, key: string): Result<Option<Shape>> {
    match ProxyGetType(buffer, offset, key)
    case Err(e) => Err(e)
    case Ok(t) =>
      if t == "undefined" then Ok(None)
      else if t == "object" || t == "array" then
        (match ProxyGetChildOffset(buffer, offset, key)
         case Err(e) => Err(e)
         case Ok(c) =>
           if t == "object" then Ok(Some(ObjectShape(buffer, c)))
           else
             (match ProxyGetLength(buffer, c)
              case Err(e) => Err(e)
              case Ok(n) => Ok(Some(ArrayShape(buffer, c, n)))))
      else
        (match ProxyGetValue(buffer, offset, key)
         case Err(e) => Err(e)
         case Ok(x) => Ok(Some(ScalarShape(x))))
  }

  /** The element counterpart of PropertyShape, for getElementAt(index); every type but
      "object" and "array" is read with getArrayElement, "undefined" included. */
  function ElementShape(buffer: Buffer, offset: nat, index: nat): Result<Shape> {
    match ProxyGetArrayType(buffer, offset, index)
    case Err(e) => Err(e)
    case Ok(t) =>
      if t == "object" || t == "array" then
        (match ProxyGetArrayChildOffset(buffer, offset, index)
         case Err(e) => Err(e)
         case Ok(c) =>
           if t == "object" then Ok(ObjectShape(buffer, c))
           else
             (match ProxyGetLength(buffer, c)
              case Err(e) => Err(e)
              case Ok(n) => Ok(ArrayShape(buffer, c, n))))
      else
        (match ProxyGetArrayElement(buffer, offset, index)
         case Err(e) => Err(e)
         case Ok(x) => Ok(ScalarShape(x)))
  }

  /** createObjectProxy: the handler over the object at offset, with its own cache. */
  class ObjectProxy {
    const buffer: Buffer
    const offset: nat
    var cache: map<string, JsValue>

    /** Every cached entry is what a fresh read of its key would hand out. */
    ghost predicate Valid()
      reads this
    {
      forall k :: k in cache ==> ShapeOf(cache[k]).Some? && PropertyShape(buffer, offset, k) == Ok(ShapeOf(cache[k]))
    }

    constructor(buffer: Buffer, offset: nat)
      ensures this.buffer == buffer && this.offset == offset && cache == map[]
      ensures Valid()
    {
      this.buffer := buffer;
      this.offset := offset;
      cache := map[];
    }

    /** The outcome of the get trap on the string key, on a cache that was before: a cached
        key answers from the cache; otherwise the read has PropertyShape's outcome, and only
        a read that hands out a value is cached. */
    ghost predicate PropertyRead(before: map<string, JsValue>, key: string, r: Result<JsValue>)
      reads this
    {
      if key in before then r == Ok(before[key]) && cache == before
      else
        var s := PropertyShape(buffer, offset, key);
        && (s.Err? ==> r == Err(s.error) && cache == before)
        && (s == Ok(None) ==> r == Ok(Undefined) && cache == before)
        && (s.Ok? && s.value.Some? ==> r.Ok? && ShapeOf(r.value) == s.value && cache == before[key := r.value])
    }

    /** The get trap: the well-known symbols, undefined for any other symbol, then the
        cache, then a fresh read (a new proxy for a container). */
    method Get(prop: Prop) returns (r: Result<JsValue>)
      requires Valid()
      modifies this
      ensures Valid()
      ensures prop.Sym? ==> r == Ok(match WellKnown(buffer, prop.sym) case Some(v) => v case None => Undefined)
      ensures prop.Sym? ==> cache == old(cache)
      ensures prop.Name? ==> PropertyRead(old(cache), prop.name, r)
      ensures prop.Name? && prop.name !in old(cache) && r.Ok? && r.value.ObjectRef? ==>
                fresh(r.value.obj) && r.value.obj.cache == map[] && r.value.obj.Valid()
      ensures prop.Name? && prop.name !in old(cache) && r.Ok? && r.value.ArrayRef? ==>
                fresh(r.value.arr) && r.value.arr.cache == map[] && r.value.arr.Valid()
    {
      if prop.Sym? {
        var w := WellKnown(buffer, prop.sym);
        return Ok(if w.Some? then w.value else Undefined);
      }
      var key := prop.name;
      if key in cache {
        return Ok(cache[key]);
      }
      var t := ProxyGetType(buffer, offset, key);
      if t.Err? {
        return Err(t.error);
      }
      if t.value == "undefined" {
        return Ok(Undefined);
      }
      var result: JsValue;
      if t.value == "object" {
        ChildOffsetAgreesWithValue(buffer, offset, key, 0);
        var c := ProxyGetChildOffset(buffer, offset, key);
        var child := new ObjectProxy(buffer, c.value);
        result := ObjectRef(child);
      } else if t.value == "array" {
        ChildOffsetAgreesWithValue(buffer, offset, key, 0);
        var c := ProxyGetChildOffset(buffer, offset, key);
        var child := CreateArrayProxy(buffer, c.value);
        if child.Err? {
          return Err(child.error);
        }
        result := ArrayRef(child.value);
      } else {
        var v := ProxyGetValue(buffer, offset, key);
        if v.Err? {
          return Err(v.error);
        }
        result := Plain(v.value);
      }
      cache := cache[key := result];
      r := Ok(result);
    }

    /** The has trap: the three well-known symbols, and a string key exactly when hasKey
        reports it, that is when its type is not "undefined". */
    function Has(prop: Prop): (r: Result<bool>)
      ensures prop.Sym? ==> r == Ok(prop.sym in {BufferSymbol, DecodeSymbol, IsLite3BufferSymbol})
      ensures prop.Name? ==> (r == Ok(true) <==> ProxyGetType(buffer, offset, prop.name).Ok? &&
                                                 ProxyGetType(buffer, offset, prop.name) != Ok("undefined"))
      ensures prop.Name? ==> (r == Ok(false) <==> ProxyGetType(buffer, offset, prop.name) == Ok("undefined"))
    {
      match prop
      case Sym(s) => Ok(s in {BufferSymbol, DecodeSymbol, IsLite3BufferSymbol})
      case Name(k) =>
        HasKeyIffDefined(buffer, offset, k);
        ProxyHasKey(buffer, offset, k)
    }

    /** The ownKeys trap: getKeys on the proxy's offset. */
    function OwnKeys(): Result<seq<string>> {
      KeysAt(buffer, offset)
    }

    /** The getOwnPropertyDescriptor trap: a string key has a descriptor exactly when the
        has trap reports it, and it is enumerable, configurable and read-only; symbols have
        none. */
    function OwnPropertyDescriptor(prop: Prop): (r: Result<Option<Descriptor>>)
      ensures prop.Sym? ==> r == Ok(None)
      ensures prop.Name? ==> (r.Ok? <==> Has(prop).Ok?)
      ensures prop.Name? && r.Ok? ==> (r.value.Some? <==> Has(prop) == Ok(true))
      ensures r.Ok? && r.value.Some? ==> r.value.value == Descriptor(None, false, true, true)
    {
      match prop
      case Sym(_) => Ok(None)
      case Name(k) =>
        match ProxyHasKey(buffer, offset, k)
        case Err(e) => Err(e)
        case Ok(present) => Ok(if present then Some(Descriptor(None, false, true, true)) else None)
    }
  }

  /** createArrayProxy: the length is read once, here; a failing getLength fails the
      creation. */
  method CreateArrayProxy(buffer: Buffer, offset: nat) returns (r: Result<ArrayProxy>)
    ensures ProxyGetLength(buffer, offset).Err? ==> r == Err(ProxyGetLength(buffer, offset).error)
    ensures ProxyGetLength(buffer, offset).Ok? ==>
              && r.Ok? && fresh(r.value) && r.value.Valid()
              && r.value.buffer == buffer && r.value.offset == offset
              && r.value.length == ProxyGetLength(buffer, offset).value && r.value.cache == map[]
  {
    var n := ProxyGetLength(buffer, offset);
    if n.Err? {
      return Err(n.error);
    }
    var p := new ArrayProxy(buffer, offset, n.value);
    r := Ok(p);
  }

  /** A decimal digit string's value. */
  function DigitsValue(s: string): nat
    requires forall i :: 0 <= i < |s| ==> '0' <= s[i] <= '9'
  {
    if s == [] then 0 else 10 * DigitsValue(s[..|s| - 1]) + (s[|s| - 1] - '0') as nat
  }

  /** Number(prop) where it is a non-negative integer, on the strings modelled: the empty
      string is 0 and a string of decimal digits is its value; every other string is
      treated as no integer. */
  function NumberIndex(s: string): (r: Option<nat>)
    ensures s == "" ==> r == Some(0)
    ensures "length" == s ==> r.None?
  {
    if forall i :: 0 <= i < |s| ==> '0' <= s[i] <= '9' then Some(DigitsValue(s)) else None
  }

  /** String(i): the decimal digits of i. */
  function NatToString(n: nat): (s: string)
    ensures |s| > 0 && forall i :: 0 <= i < |s| ==> '0' <= s[i] <= '9'
    decreases n
  {
    if n < 10 then [('0' as int + n) as char]
    else NatToString(n / 10) + [('0' as int + n % 10) as char]
  }

  /** Number(String(i)) == i. */
  lemma {:induction false} NatToStringNumber(n: nat)
    ensures DigitsValue(NatToString(n)) == n
    ensures NumberIndex(NatToString(n)) == Some(n)
    decreases n
  {
    var s := NatToString(n);
    if n >= 10 {
      NatToStringNumber(n / 10);
      assert s[..|s| - 1] == NatToString(n / 10);
    }
  }

  /** The string props the array proxy treats as an element access. */
  predicate IsIndexName(s: string, length: nat) {
    NumberIndex(s).Some? && NumberIndex(s).value < length
  }

  /** at(index): a negative index counts from the end; the result names no element when it
      is still outside [0, length). */
  function AtIndex(length: nat, index: int): (r: Option<nat>)
    ensures r.Some? <==> -(length as int) <= index < length
    ensures r.Some? && index >= 0 ==> r.value == index
    ensures r.Some? && index < 0 ==> r.value == length + index
  {
    var i := if index < 0 then length + index else index;
    if i < 0 || i >= length then None else Some(i)
  }

  function Max(a: int, b: int): int { if a >= b then a else b }
  function Min(a: int, b: int): int { if a <= b then a else b }

  /** A slice bound, resolved: negative counts from the end, and the result is clamped to
      [0, length]. */
  function Position(length: nat, x: int): (p: nat)
    ensures p <= length
    ensures 0 <= x <= length ==> p == x
    ensures x > length ==> p == length
    ensures -(length as int) <= x < 0 ==> p == length + x
    ensures x < -(length as int) ==> p == 0
  {
    if x < 0 then Max(length + x, 0) else Min(x, length)
  }

  /** slice(start, end): the bounds actually used; an absent start is 0 and an absent end is
      length. */
  function SliceBounds(length: nat, start: Option<int>, end: Option<int>): (r: (nat, nat))
    ensures r.0 <= length && r.1 <= length
    ensures r.0 == (if start.Some? then Position(length, start.value) else 0)
    ensures r.1 == (if end.Some? then Position(length, end.value) else length)
  {
    (Position(length, if start.Some? then start.value else 0),
     Position(length, if end.Some? then end.value else length))
  }

  /** The cached elements lo..hi-1 in order (none when hi <= lo). */
  ghost function Window(cache: map<nat, JsValue>, lo: nat, hi: nat): (es: seq<JsValue>)
    requires forall i :: lo <= i < hi ==> i in cache
    ensures |es| == (if lo < hi then hi - lo else 0)
    ensures forall k :: 0 <= k < |es| ==> es[k] == cache[lo + k]
  {
    if lo < hi then seq(hi - lo, k requires 0 <= k < hi - lo => cache[lo + k]) else []
  }

  /** Array.prototype.map over es with a callback that has no effects. */
  function Mapped(es: seq<JsValue>, fn: (JsValue, nat) -> JsValue): (r: seq<JsValue>)
    ensures |r| == |es| && forall k :: 0 <= k < |es| ==> r[k] == fn(es[k], k)
  {
    seq(|es|, k requires 0 <= k < |es| => fn(es[k], k))
  }

  /** Array.prototype.filter: the elements keep accepts, in order, each tested with its index. */
  function Filtered(es: seq<JsValue>, keep: (JsValue, nat) -> bool): (r: seq<JsValue>)
    ensures |r| <= |es|
    ensures forall x :: x in r ==> x in es
  {
    if es == [] then []
    else Filtered(es[..|es| - 1], keep) + (if keep(es[|es| - 1], |es| - 1) then [es[|es| - 1]] else [])
  }

  /** A filter that accepts every element returns them all, in order. */
  lemma {:induction false} FilteredAll(es: seq<JsValue>, keep: (JsValue, nat) -> bool)
    requires forall k :: 0 <= k < |es| ==> keep(es[k], k)
    ensures Filtered(es, keep) == es
  {
    if es != [] {
      FilteredAll(es[..|es| - 1], keep);
      assert es[..|es| - 1] + [es[|es| - 1]] == es;
    }
  }

  /** A filter that accepts no element returns none. */
  lemma {:induction false} FilteredNone(es: seq<JsValue>, keep: (JsValue, nat) -> bool)
    requires forall k :: 0 <= k < |es| ==> !keep(es[k], k)
    ensures Filtered(es, keep) == []
  {
    if es != [] {
      FilteredNone(es[..|es| - 1], keep);
    }
  }

  /** The accumulator after folding f over es[start..] from the left, starting with acc. */
  function FoldLeft(es: seq<JsValue>, f: (JsValue, JsValue, nat) -> JsValue, acc: JsValue, start: nat): JsValue {
    if |es| <= start then acc else f(FoldLeft(es[..|es| - 1], f, acc, start), es[|es| - 1], |es| - 1)
  }

  /** Filtering one more element appends it exactly when it is accepted. */
  lemma FilteredSnoc(es: seq<JsValue>, x: JsValue, keep: (JsValue, nat) -> bool)
    ensures Filtered(es + [x], keep) == Filtered(es, keep) + (if keep(x, |es|) then [x] else [])
  {
    assert (es + [x])[..|es|] == es;
  }

  /** Folding one more element applies f once more. */
  lemma FoldLeftSnoc(es: seq<JsValue>, x: JsValue, f: (JsValue, JsValue, nat) -> JsValue, acc: JsValue, start: nat)
    requires start <= |es|
    ensures FoldLeft(es + [x], f, acc, start) == f(FoldLeft(es, f, acc, start), x, |es|)
  {
    assert (es + [x])[..|es|] == es;
  }

  /** Array.prototype.reduce over es: the left fold of f from initial, except that an
      undefined initial value on a non-empty sequence is replaced by its first element and
      the fold starts at index 1. */
  function Reduced(es: seq<JsValue>, f: (JsValue, JsValue, nat) -> JsValue, initial: JsValue): JsValue {
    if initial == Undefined && |es| > 0 then FoldLeft(es, f, es[0], 1) else FoldLeft(es, f, initial, 0)
  }

  /** Reducing one more element applies f once more, unless it is the first element standing
      in for an undefined initial value. */
  lemma ReducedSnoc(es: seq<JsValue>, x: JsValue, f: (JsValue, JsValue, nat) -> JsValue, initial: JsValue)
    ensures Reduced(es + [x], f, initial) ==
              if initial == Undefined && es == [] then x else f(Reduced(es, f, initial), x, |es|)
  {
    if initial == Undefined && es != [] {
      assert (es + [x])[0] == es[0];
    }
    if initial == Undefined && es == [] {
      assert FoldLeft([x], f, x, 1) == x;
    } else if initial == Undefined {
      FoldLeftSnoc(es, x, f, es[0], 1);
    } else {
      FoldLeftSnoc(es, x, f, initial, 0);
    }
  }

  /** Every entry of before is in after, unchanged. */
  ghost predicate KeptIn(before: map<nat, JsValue>, after: map<nat, JsValue>) {
    forall i :: i in before ==> i in after && after[i] == before[i]
  }

  /** after keeps before and adds the indices lo..hi-1 and no others. */
  ghost predicate GrownIn(before: map<nat, JsValue>, after: map<nat, JsValue>, lo: nat, hi: nat) {
    && KeptIn(before, after)
    && (forall i :: i in after && i !in before ==> lo <= i < hi)
    && (forall i :: lo <= i < hi ==> i in after)
  }

  /** Caching index hi on top of a cache grown over lo..hi-1 grows it over lo..hi. */
  lemma GrownStep(before: map<nat, JsValue>, mid: map<nat, JsValue>, after: map<nat, JsValue>, lo: nat, hi: nat)
    requires lo <= hi && GrownIn(before, mid, lo, hi) && KeptIn(mid, after)
    requires hi in after && forall i :: i in after ==> i in mid || i == hi
    ensures GrownIn(before, after, lo, hi + 1)
  {
  }

  /** The names of the array methods the array proxy's get trap hands out. */
  const HelperNames: set<string> :=
    {"map", "forEach", "filter", "find", "findIndex", "some", "every", "reduce", "includes", "indexOf", "at", "slice"}

  /** createArrayProxy's handler over the array at offset; length is fixed at creation. */
  class ArrayProxy {
    const buffer: Buffer
    const offset: nat
    const length: nat
    var cache: map<nat, JsValue>
    /** What reading each element afresh yields; fixed at creation, as the buffer never
        changes. */
    ghost const shape: nat -> Result<Shape>

    /** shape is ElementShape over this proxy's buffer and offset; only elements below
        length are ever read, and every cached one is what a fresh read would hand out. */
    ghost predicate Valid()
      reads this
    {
      && (forall i {:trigger ElementShape(buffer, offset, i)} :: shape(i) == ElementShape(buffer, offset, i))
      && forall i :: i in cache ==> i < length && ShapeOf(cache[i]).Some? && shape(i) == Ok(ShapeOf(cache[i]).value)
    }

    constructor(buffer: Buffer, offset: nat, length: nat)
      ensures this.buffer == buffer && this.offset == offset && this.length == length && cache == map[]
      ensures Valid()
    {
      this.buffer := buffer;
      this.offset := offset;
      this.length := length;
      cache := map[];
      shape := (i: nat) => ElementShape(buffer, offset, i);
    }

    /** The outcome of getElementAt(index) on a cache that was before: a cached index
        answers from the cache; otherwise the read has ElementShape's outcome, and a
        success is cached. */
    ghost predicate ElementRead(before: map<nat, JsValue>, index: nat, r: Result<JsValue>)
      reads this
    {
      if index in before then r == Ok(before[index]) && cache == before
      else
        var s := shape(index);
        && (s.Err? ==> r == Err(s.error) && cache == before)
        && (s.Ok? ==> r.Ok? && ShapeOf(r.value) == Some(s.value) && cache == before[index := r.value])
    }

    /** Every entry cached before is still cached, unchanged. */
    ghost predicate Kept(before: map<nat, JsValue>)
      reads this
    {
      KeptIn(before, cache)
    }

    /** Kept, and the indices lo..hi-1, and only those, have been added. */
    ghost predicate Grown(before: map<nat, JsValue>, lo: nat, hi: nat)
      reads this
    {
      GrownIn(before, cache, lo, hi)
    }

    /** Reading the elements lo..hi-1 in turn succeeds. */
    ghost predicate ReadableIn(before: map<nat, JsValue>, lo: nat, hi: nat) {
      forall i :: lo <= i < hi ==> i in before || shape(i).Ok?
    }

    /** Reading the elements from lo in turn first fails at i, with e. */
    ghost predicate FailsAt(before: map<nat, JsValue>, lo: nat, i: nat, e: Error) {
      && lo <= i && i !in before && ReadableIn(before, lo, i)
      && shape(i).Err? && e == shape(i).error
    }

    /** getElementAt: a cached index answers from the cache; otherwise the element is read
        afresh (a new proxy for a container) and cached, whatever its type. */
    method ElementAt(index: nat) returns (r: Result<JsValue>)
      requires Valid() && index < length
      modifies this
      ensures Valid()
      ensures ElementRead(old(cache), index, r)
      ensures r.Ok? ==> index in cache && cache[index] == r.value
      ensures Kept(old(cache)) && forall i :: i in cache ==> i in old(cache) || i == index
      ensures r.Err? ==> index !in old(cache) && shape(index).Err? &&
                         r.error == shape(index).error
      ensures index !in old(cache) && r.Ok? && r.value.ObjectRef? ==>
                fresh(r.value.obj) && r.value.obj.cache == map[] && r.value.obj.Valid()
      ensures index !in old(cache) && r.Ok? && r.value.ArrayRef? ==>
                fresh(r.value.arr) && r.value.arr.cache == map[] && r.value.arr.Valid()
    {
      if index in cache {
        return Ok(cache[index]);
      }
      assert shape(index) == ElementShape(buffer, offset, index);
      var t := ProxyGetArrayType(buffer, offset, index);
      if t.Err? {
        return Err(t.error);
      }
      var result: JsValue;
      if t.value == "object" {
        ArrayChildOffsetAgreesWithElement(buffer, offset, index, 0);
        var c := ProxyGetArrayChildOffset(buffer, offset, index);
        var child := new ObjectProxy(buffer, c.value);
        result := ObjectRef(child);
      } else if t.value == "array" {
        ArrayChildOffsetAgreesWithElement(buffer, offset, index, 0);
        var c := ProxyGetArrayChildOffset(buffer, offset, index);
        var child := CreateArrayProxy(buffer, c.value);
        if child.Err? {
          return Err(child.error);
        }
        result := ArrayRef(child.value);
      } else {
        var v := ProxyGetArrayElement(buffer, offset, index);
        if v.Err? {
          return Err(v.error);
        }
        result := Plain(v.value);
      }
      cache := cache[index := result];
      r := Ok(result);
    }

    /** The get trap: the well-known symbols, 'length', Symbol.iterator, a string that is an
        index in [0, length) (an element read), then the array method names; anything else
        is undefined. */
    method Get(prop: Prop) returns (r: Result<JsValue>)
      requires Valid()
      modifies this
      ensures Valid()
      ensures prop.Sym? ==> cache == old(cache)
      ensures prop.Sym? ==>
                r == Ok(match WellKnown(buffer, prop.sym)
                        case Some(v) => v
                        case None => if prop.sym == IteratorSymbol then ElementGenerator(this) else Undefined)
      ensures prop == Name("length") ==> r == Ok(Plain(HNumber(Integral(length)))) && cache == old(cache)
      ensures prop.Name? && IsIndexName(prop.name, length) ==> ElementRead(old(cache), NumberIndex(prop.name).value, r)
      ensures prop.Name? && IsIndexName(prop.name, length) && NumberIndex(prop.name).value !in old(cache) &&
              r.Ok? && r.value.ObjectRef? ==>
                fresh(r.value.obj) && r.value.obj.cache == map[] && r.value.obj.Valid()
      ensures prop.Name? && IsIndexName(prop.name, length) && NumberIndex(prop.name).value !in old(cache) &&
              r.Ok? && r.value.ArrayRef? ==>
                fresh(r.value.arr) && r.value.arr.cache == map[] && r.value.arr.Valid()
      ensures prop.Name? && prop.name != "length" && !IsIndexName(prop.name, length) ==>
                cache == old(cache) && r == Ok(if prop.name in HelperNames then Helper(prop.name, this) else Undefined)
    {
      match prop
      case Sym(s) =>
        var w := WellKnown(buffer, s);
        if w.Some? {
          return Ok(w.value);
        }
        return Ok(if s == IteratorSymbol then ElementGenerator(this) else Undefined);
      case Name(name) =>
        if name == "length" {
          return Ok(Plain(HNumber(Integral(length))));
        }
        var index := NumberIndex(name);
        if index.Some? && index.value < length {
          r := ElementAt(index.value);
          return;
        }
        if name in HelperNames {
          return Ok(Helper(name, this));
        }
        return Ok(Undefined);
    }

    /** The has trap: the three well-known symbols, 'length', and the index names. */
    function Has(prop: Prop): (r: bool)
      ensures prop.Name? && prop.name != "length" ==> (r <==> IsIndexName(prop.name, length))
      ensures r <==> prop in {Sym(BufferSymbol), Sym(DecodeSymbol), Sym(IsLite3BufferSymbol), Name("length")} ||
                     (prop.Name? && IsIndexName(prop.name, length))
    {
      match prop
      case Sym(s) => s in {BufferSymbol, DecodeSymbol, IsLite3BufferSymbol}
      case Name(name) => name == "length" || IsIndexName(name, length)
    }

    /** The getOwnPropertyDescriptor trap: 'length' is a read-only, non-enumerable,
        non-configurable value; the index names are enumerable and configurable. */
    function OwnPropertyDescriptor(prop: Prop): (r: Option<Descriptor>)
      ensures prop.Name? ==> (r.Some? <==> Has(prop))
      ensures prop.Sym? ==> r.None?
      ensures r.Some? ==> !r.value.writable
      ensures r.Some? ==> (r.value.enumerable <==> prop != Name("length"))
      ensures prop == Name("length") ==> r == Some(Descriptor(Some(length), false, false, false))
    {
      match prop
      case Sym(_) => None
      case Name(name) =>
        if name == "length" then Some(Descriptor(Some(length), false, false, false))
        else if IsIndexName(name, length) then Some(Descriptor(None, false, true, true))
        else None
    }

    /** The ownKeys trap: "0" .. String(length - 1), each naming its own index. */
    method OwnKeys() returns (keys: seq<string>)
      ensures |keys| == length
      ensures forall i :: 0 <= i < length ==> keys[i] == NatToString(i) && NumberIndex(keys[i]) == Some(i)
    {
      keys := [];
      var i := 0;
      while i < length
        invariant 0 <= i <= length && |keys| == i
        invariant forall j :: 0 <= j < i ==> keys[j] == NatToString(j)
      {
        keys := keys + [NatToString(i)];
        i := i + 1;
      }
      forall j | 0 <= j < length ensures NumberIndex(keys[j]) == Some(j) {
        NatToStringNumber(j);
      }
    }

    /** Each key ownKeys lists passes has and has an enumerable, configurable, read-only
        descriptor. */
    lemma {:induction false} OwnKeyIsOwn(i: nat)
      requires i < length
      ensures Has(Name(NatToString(i)))
      ensures OwnPropertyDescriptor(Name(NatToString(i))) == Some(Descriptor(None, false, true, true))
    {
      NatToStringNumber(i);
    }

    /** The Symbol.iterator generator, run to the end: every element in order. */
    method Iterate() returns (r: Result<seq<JsValue>>)
      requires Valid()
      modifies this
      ensures Valid() && Kept(old(cache))
      ensures r.Ok? <==> ReadableIn(old(cache), 0, length)
      ensures r.Err? ==> exists i: nat :: i < length && FailsAt(old(cache), 0, i, r.error)
      ensures r.Ok? ==> Grown(old(cache), 0, length) && r.value == Window(cache, 0, length)
    {
      var result := [];
      var i := 0;
      while i < length
        invariant 0 <= i <= length && Valid() && Grown(old(cache), 0, i) && ReadableIn(old(cache), 0, i)
        invariant |result| == i && forall j :: 0 <= j < i ==> result[j] == cache[j]
      {
        ghost var mid := cache;
        var v := ElementAt(i);
        if v.Err? {
          assert FailsAt(old(cache), 0, i, v.error);
          return Err(v.error);
        }
        GrownStep(old(cache), mid, cache, 0, i);
        result := result + [v.value];
        i := i + 1;
      }
      return Ok(result);
    }

    /** forEach: with a callback that has no effects, only the element reads remain. */
    method ForEach() returns (r: Result<()>)
      requires Valid()
      modifies this
      ensures Valid() && Kept(old(cache))
      ensures r.Ok? <==> ReadableIn(old(cache), 0, length)
      ensures r.Err? ==> exists i: nat :: i < length && FailsAt(old(cache), 0, i, r.error)
      ensures r.Ok? ==> Grown(old(cache), 0, length)
    {
      var i := 0;
      while i < length
        invariant 0 <= i <= length && Valid() && Grown(old(cache), 0, i) && ReadableIn(old(cache), 0, i)
      {
        ghost var mid := cache;
        var v := ElementAt(i);
        if v.Err? {
          assert FailsAt(old(cache), 0, i, v.error);
          return Err(v.error);
        }
        GrownStep(old(cache), mid, cache, 0, i);
        i := i + 1;
      }
      return Ok(());
    }

    /** map(fn): fn applied to every element and its index, in order. */
    method Map(fn: (JsValue, nat) -> JsValue) returns (r: Result<seq<JsValue>>)
      requires Valid()
      modifies this
      ensures Valid() && Kept(old(cache))
      ensures r.Ok? <==> ReadableIn(old(cache), 0, length)
      ensures r.Err? ==> exists i: nat :: i < length && FailsAt(old(cache), 0, i, r.error)
      ensures r.Ok? ==> Grown(old(cache), 0, length) && r.value == Mapped(Window(cache, 0, length), fn)
    {
      var result := [];
      var i := 0;
      while i < length
        invariant 0 <= i <= length && Valid() && Grown(old(cache), 0, i) && ReadableIn(old(cache), 0, i)
        invariant |result| == i && forall j :: 0 <= j < i ==> result[j] == fn(cache[j], j)
      {
        ghost var mid := cache;
        var v := ElementAt(i);
        if v.Err? {
          assert FailsAt(old(cache), 0, i, v.error);
          return Err(v.error);
        }
        GrownStep(old(cache), mid, cache, 0, i);
        result := result + [fn(v.value, i)];
        i := i + 1;
      }
      return Ok(result);
    }

    /** filter(keep): the accepted elements, in order. */
    method Filter(keep: (JsValue, nat) -> bool) returns (r: Result<seq<JsValue>>)
      requires Valid()
      modifies this
      ensures Valid() && Kept(old(cache))
      ensures r.Ok? <==> ReadableIn(old(cache), 0, length)
      ensures r.Err? ==> exists i: nat :: i < length && FailsAt(old(cache), 0, i, r.error)
      ensures r.Ok? ==> Grown(old(cache), 0, length) && r.value == Filtered(Window(cache, 0, length), keep)
    {
      var result := [];
      ghost var seen: seq<JsValue> := [];
      var i := 0;
      while i < length
        invariant 0 <= i <= length && Valid() && Grown(old(cache), 0, i) && ReadableIn(old(cache), 0, i)
        invariant |seen| == i && (forall j :: 0 <= j < i ==> seen[j] == cache[j])
        invariant result == Filtered(seen, keep)
      {
        ghost var mid := cache;
        var v := ElementAt(i);
        if v.Err? {
          assert FailsAt(old(cache), 0, i, v.error);
          return Err(v.error);
        }
        GrownStep(old(cache), mid, cache, 0, i);
        FilteredSnoc(seen, v.value, keep);
        seen := seen + [v.value];
        if keep(v.value, i) {
          result := result + [v.value];
        }
        i := i + 1;
      }
      assert seen == Window(cache, 0, length);
      return Ok(result);
    }

    /** find(keep): the first accepted element, or undefined; at is its index, or -1. The
        walk stops there, so later elements are not read. */
    method Find(keep: (JsValue, nat) -> bool) returns (r: Result<JsValue>, ghost at: int)
      requires Valid()
      modifies this
      ensures Valid() && Kept(old(cache))
      ensures r.Err? ==> exists i: nat :: (i < length && FailsAt(old(cache), 0, i, r.error) &&
                         Grown(old(cache), 0, i) && forall j :: 0 <= j < i ==> !keep(cache[j], j))
      ensures r.Ok? ==> -1 <= at < length
      ensures r.Ok? && at == -1 ==>
                r.value == Undefined && Grown(old(cache), 0, length) && forall j :: 0 <= j < length ==> !keep(cache[j], j)
      ensures r.Ok? && at >= 0 ==>
                && Grown(old(cache), 0, at + 1) && r.value == cache[at] && keep(cache[at], at)
                && forall j :: 0 <= j < at ==> !keep(cache[j], j)
    {
      at := -1;
      var i := 0;
      while i < length
        invariant 0 <= i <= length && Valid() && Grown(old(cache), 0, i) && ReadableIn(old(cache), 0, i)
        invariant forall j :: 0 <= j < i ==> !keep(cache[j], j)
      {
        ghost var mid := cache;
        var v := ElementAt(i);
        if v.Err? {
          assert FailsAt(old(cache), 0, i, v.error);
          return Err(v.error), -1;
        }
        GrownStep(old(cache), mid, cache, 0, i);
        if keep(v.value, i) {
          at := i;
          return Ok(v.value), at;
        }
        i := i + 1;
      }
      return Ok(Undefined), -1;
    }

    /** findIndex(keep): the smallest accepted index, or -1. */
    method FindIndex(keep: (JsValue, nat) -> bool) returns (r: Result<int>)
      requires Valid()
      modifies this
      ensures Valid() && Kept(old(cache))
      ensures r.Err? ==> exists i: nat :: (i < length && FailsAt(old(cache), 0, i, r.error) &&
                         Grown(old(cache), 0, i) && forall j :: 0 <= j < i ==> !keep(cache[j], j))
      ensures r.Ok? ==> -1 <= r.value < length
      ensures r.Ok? && r.value == -1 ==> Grown(old(cache), 0, length) && forall j :: 0 <= j < length ==> !keep(cache[j], j)
      ensures r.Ok? && r.value >= 0 ==>
                && Grown(old(cache), 0, r.value + 1) && keep(cache[r.value], r.value)
                && forall j :: 0 <= j < r.value ==> !keep(cache[j], j)
    {
      var i := 0;
      while i < length
        invariant 0 <= i <= length && Valid() && Grown(old(cache), 0, i) && ReadableIn(old(cache), 0, i)
        invariant forall j :: 0 <= j < i ==> !keep(cache[j], j)
      {
        ghost var mid := cache;
        var v := ElementAt(i);
        if v.Err? {
          assert FailsAt(old(cache), 0, i, v.error);
          return Err(v.error);
        }
        GrownStep(old(cache), mid, cache, 0, i);
        if keep(v.value, i) {
          return Ok(i);
        }
        i := i + 1;
      }
      return Ok(-1);
    }

    /** some(keep), here Any: whether some element is accepted; at is the first accepted index, or -1. */
    method Any(keep: (JsValue, nat) -> bool) returns (r: Result<bool>, ghost at: int)
      requires Valid()
      modifies this
      ensures Valid() && Kept(old(cache))
      ensures r.Err? ==> exists i: nat :: (i < length && FailsAt(old(cache), 0, i, r.error) &&
                         Grown(old(cache), 0, i) && forall j :: 0 <= j < i ==> !keep(cache[j], j))
      ensures r.Ok? ==> -1 <= at < length && (r.value <==> at >= 0)
      ensures r.Ok? && at == -1 ==> Grown(old(cache), 0, length) && forall j :: 0 <= j < length ==> !keep(cache[j], j)
      ensures r.Ok? && at >= 0 ==>
                && Grown(old(cache), 0, at + 1) && keep(cache[at], at)
                && forall j :: 0 <= j < at ==> !keep(cache[j], j)
    {
      at := -1;
      var i := 0;
      while i < length
        invariant 0 <= i <= length && Valid() && Grown(old(cache), 0, i) && ReadableIn(old(cache), 0, i)
        invariant forall j :: 0 <= j < i ==> !keep(cache[j], j)
      {
        ghost var mid := cache;
        var v := ElementAt(i);
        if v.Err? {
          assert FailsAt(old(cache), 0, i, v.error);
          return Err(v.error), -1;
        }
        GrownStep(old(cache), mid, cache, 0, i);
        if keep(v.value, i) {
          at := i;
          return Ok(true), at;
        }
        i := i + 1;
      }
      return Ok(false), -1;
    }

    /** every(keep): whether every element is accepted; at is the first rejected index, or -1. */
    method Every(keep: (JsValue, nat) -> bool) returns (r: Result<bool>, ghost at: int)
      requires Valid()
      modifies this
      ensures Valid() && Kept(old(cache))
      ensures r.Err? ==> exists i: nat :: (i < length && FailsAt(old(cache), 0, i, r.error) &&
                         Grown(old(cache), 0, i) && forall j :: 0 <= j < i ==> keep(cache[j], j))
      ensures r.Ok? ==> -1 <= at < length && (r.value <==> at == -1)
      ensures r.Ok? && at == -1 ==> Grown(old(cache), 0, length) && forall j :: 0 <= j < length ==> keep(cache[j], j)
      ensures r.Ok? && at >= 0 ==>
                && Grown(old(cache), 0, at + 1) && !keep(cache[at], at)
                && forall j :: 0 <= j < at ==> keep(cache[j], j)
    {
      at := -1;
      var i := 0;
      while i < length
        invariant 0 <= i <= length && Valid() && Grown(old(cache), 0, i) && ReadableIn(old(cache), 0, i)
        invariant forall j :: 0 <= j < i ==> keep(cache[j], j)
      {
        ghost var mid := cache;
        var v := ElementAt(i);
        if v.Err? {
          assert FailsAt(old(cache), 0, i, v.error);
          return Err(v.error), -1;
        }
        GrownStep(old(cache), mid, cache, 0, i);
        if !keep(v.value, i) {
          at := i;
          return Ok(false), at;
        }
        i := i + 1;
      }
      return Ok(true), -1;
    }

    /** reduce(f, initial): the left fold of f over the elements. An undefined initial value
        on a non-empty array is replaced by element 0, and the fold then starts at index 1;
        an empty array gives the initial value. */
    method Reduce(f: (JsValue, JsValue, nat) -> JsValue, initial: JsValue) returns (r: Result<JsValue>)
      requires Valid()
      modifies this
      ensures Valid() && Kept(old(cache))
      ensures r.Ok? <==> ReadableIn(old(cache), 0, length)
      ensures r.Err? ==> exists i: nat :: i < length && FailsAt(old(cache), 0, i, r.error)
      ensures length == 0 ==> r == Ok(initial) && cache == old(cache)
      ensures r.Ok? ==> Grown(old(cache), 0, length) && r.value == Reduced(Window(cache, 0, length), f, initial)
    {
      var acc := initial;
      var start := 0;
      if acc == Undefined && length > 0 {
        var v := ElementAt(0);
        if v.Err? {
          assert FailsAt(old(cache), 0, 0, v.error);
          return Err(v.error);
        }
        acc := v.value;
        start := 1;
      }
      ghost var seen: seq<JsValue> := if start == 1 then [acc] else [];
      var i := start;
      while i < length
        invariant start <= i <= length && Valid() && Grown(old(cache), 0, i) && ReadableIn(old(cache), 0, i)
        invariant (initial != Undefined || i > 0) || length == 0
        invariant |seen| == i && (forall j :: 0 <= j < i ==> seen[j] == cache[j])
        invariant acc == Reduced(seen, f, initial)
      {
        ghost var mid := cache;
        var v := ElementAt(i);
        if v.Err? {
          assert FailsAt(old(cache), 0, i, v.error);
          return Err(v.error);
        }
        GrownStep(old(cache), mid, cache, 0, i);
        ReducedSnoc(seen, v.value, f, initial);
        seen := seen + [v.value];
        acc := f(acc, v.value, i);
        i := i + 1;
      }
      assert seen == Window(cache, 0, length);
      return Ok(acc);
    }

    /** includes(x): whether some element is x under same, which stands for ===; at is the
        first such index, or -1. */
    method Includes(x: JsValue, same: (JsValue, JsValue) -> bool) returns (r: Result<bool>, ghost at: int)
      requires Valid()
      modifies this
      ensures Valid() && Kept(old(cache))
      ensures r.Err? ==> exists i: nat :: (i < length && FailsAt(old(cache), 0, i, r.error) &&
                         Grown(old(cache), 0, i) && forall j :: 0 <= j < i ==> !same(cache[j], x))
      ensures r.Ok? ==> -1 <= at < length && (r.value <==> at >= 0)
      ensures r.Ok? && at == -1 ==> Grown(old(cache), 0, length) && forall j :: 0 <= j < length ==> !same(cache[j], x)
      ensures r.Ok? && at >= 0 ==>
                && Grown(old(cache), 0, at + 1) && same(cache[at], x)
                && forall j :: 0 <= j < at ==> !same(cache[j], x)
    {
      at := -1;
      var i := 0;
      while i < length
        invariant 0 <= i <= length && Valid() && Grown(old(cache), 0, i) && ReadableIn(old(cache), 0, i)
        invariant forall j :: 0 <= j < i ==> !same(cache[j], x)
      {
        ghost var mid := cache;
        var v := ElementAt(i);
        if v.Err? {
          assert FailsAt(old(cache), 0, i, v.error);
          return Err(v.error), -1;
        }
        GrownStep(old(cache), mid, cache, 0, i);
        if same(v.value, x) {
          at := i;
          return Ok(true), at;
        }
        i := i + 1;
      }
      return Ok(false), -1;
    }

    /** indexOf(x): the smallest index whose element is x under same (===), or -1. */
    method IndexOf(x: JsValue, same: (JsValue, JsValue) -> bool) returns (r: Result<int>)
      requires Valid()
      modifies this
      ensures Valid() && Kept(old(cache))
      ensures r.Err? ==> exists i: nat :: (i < length && FailsAt(old(cache), 0, i, r.error) &&
                         Grown(old(cache), 0, i) && forall j :: 0 <= j < i ==> !same(cache[j], x))
      ensures r.Ok? ==> -1 <= r.value < length
      ensures r.Ok? && r.value == -1 ==> Grown(old(cache), 0, length) && forall j :: 0 <= j < length ==> !same(cache[j], x)
      ensures r.Ok? && r.value >= 0 ==>
                && Grown(old(cache), 0, r.value + 1) && same(cache[r.value], x)
                && forall j :: 0 <= j < r.value ==> !same(cache[j], x)
    {
      var i := 0;
      while i < length
        invariant 0 <= i <= length && Valid() && Grown(old(cache), 0, i) && ReadableIn(old(cache), 0, i)
        invariant forall j :: 0 <= j < i ==> !same(cache[j], x)
      {
        ghost var mid := cache;
        var v := ElementAt(i);
        if v.Err? {
          assert FailsAt(old(cache), 0, i, v.error);
          return Err(v.error);
        }
        GrownStep(old(cache), mid, cache, 0, i);
        if same(v.value, x) {
          return Ok(i);
        }
        i := i + 1;
      }
      return Ok(-1);
    }

    /** at(index): the element at AtIndex(length, index), or undefined when there is none. */
    method At(index: int) returns (r: Result<JsValue>)
      requires Valid()
      modifies this
      ensures Valid()
      ensures AtIndex(length, index).None? ==> r == Ok(Undefined) && cache == old(cache)
      ensures AtIndex(length, index).Some? ==> ElementRead(old(cache), AtIndex(length, index).value, r)
    {
      var i := index;
      if i < 0 {
        i := length + i;
      }
      if i < 0 || i >= length {
        return Ok(Undefined);
      }
      r := ElementAt(i);
    }

    /** slice(start, end): the elements from the resolved start up to the resolved end, in
        order; none when the start is not below the end. */
    method Slice(start: Option<int>, end: Option<int>) returns (r: Result<seq<JsValue>>)
      requires Valid()
      modifies this
      ensures Valid() && Kept(old(cache))
      ensures var b := SliceBounds(length, start, end);
              && (r.Ok? <==> ReadableIn(old(cache), b.0, b.1))
              && (r.Err? ==> exists i: nat :: i < b.1 && FailsAt(old(cache), b.0, i, r.error))
              && (r.Ok? ==> Grown(old(cache), b.0, b.1) && r.value == Window(cache, b.0, b.1))
    {
      var result := [];
      var s := if start.Some? then start.value else 0;
      var e := if end.Some? then end.value else length;
      var actualStart := Position(length, s);
      var actualEnd := Position(length, e);
      var i := actualStart;
      while i < actualEnd
        invariant actualStart <= i <= Max(actualStart, actualEnd) && actualEnd <= length
        invariant Valid() && Grown(old(cache), actualStart, i) && ReadableIn(old(cache), actualStart, i)
        invariant |result| == i - actualStart && forall k :: 0 <= k < |result| ==> result[k] == cache[actualStart + k]
      {
        ghost var mid := cache;
        var v := ElementAt(i);
        if v.Err? {
          assert FailsAt(old(cache), actualStart, i, v.error);
          return Err(v.error);
        }
        GrownStep(old(cache), mid, cache, actualStart, i);
        result := result + [v.value];
        i := i + 1;
      }
      assert |result| == |Window(cache, actualStart, actualEnd)|;
      return Ok(result);
    }
  }

  /** The argument of Lite3Buffer.from: a Buffer, used as it is, or a value to encode. */
  datatype Source = FromBuffer(buffer: Buffer) | FromValue(value: HostValue)

  /** isLite3Buffer(value): a non-null object whose $isLite3Buffer property is true, which
      holds of the proxies exactly; a Buffer, a plain value and a function have no such
      property. */
  function IsLite3Buffer(v: JsValue): (r: bool)
    ensures r <==> v.ObjectRef? || v.ArrayRef?
  {
    match v
    case ObjectRef(p) => WellKnown(p.buffer, IsLite3BufferSymbol) == Some(Plain(HBoolean(true)))
    case ArrayRef(a) => WellKnown(a.buffer, IsLite3BufferSymbol) == Some(Plain(HBoolean(true)))
    case _ => false
  }

  /** getBuffer(proxy): the buffer behind a proxy ($buffer), and nothing for any other value. */
  function GetBuffer(v: JsValue): (r: Option<Buffer>)
    ensures r.Some? <==> IsLite3Buffer(v)
    ensures v.ObjectRef? ==> r == Some(v.obj.buffer)
    ensures v.ArrayRef? ==> r == Some(v.arr.buffer)
  {
    match v
    case ObjectRef(p) => Some(WellKnown(p.buffer, BufferSymbol).value.buffer)
    case ArrayRef(a) => Some(WellKnown(a.buffer, BufferSymbol).value.buffer)
    case _ => None
  }

  /** Lite3Buffer.from(data): the buffer is data itself or encode(data); a root of type
      "array" gives an array proxy at offset 0, and every other root an object proxy at
      offset 0. */
  method From(data: Source, room: nat) returns (r: Result<JsValue>)
    requires data.FromValue? ==> DistinctKeys(data.value)
    ensures data.FromValue? && !IsObjectType(data.value) ==> r == Err(Error(ArgumentMustBeObject))
    ensures data.FromValue? && IsObjectType(data.value) ==> (r.Ok? <==> Writes(data.value) <= room)
    ensures data.FromValue? && r.Ok? ==>
              && GetBuffer(r.value).Some? && Encoded(GetBuffer(r.value).value, Normalize(data.value))
              && (r.value.ArrayRef? <==> data.value.HArray?)
              && (r.value.ArrayRef? ==> r.value.arr.length == |Normalize(data.value).elems|)
    ensures data.FromBuffer? ==>
              (r.Ok? <==> ProxyGetRootType(data.buffer).Ok? &&
                          (ProxyGetRootType(data.buffer) == Ok("array") ==> ProxyGetLength(data.buffer, 0).Ok?))
    ensures data.FromBuffer? && r.Ok? ==>
              GetBuffer(r.value) == Some(data.buffer) && (r.value.ArrayRef? <==> ProxyGetRootType(data.buffer) == Ok("array"))
    ensures data.FromBuffer? && r.Ok? && r.value.ArrayRef? ==> r.value.arr.length == ProxyGetLength(data.buffer, 0).value
    ensures data.FromBuffer? && r.Err? ==>
              r.error == (if ProxyGetRootType(data.buffer).Err? then ProxyGetRootType(data.buffer).error
                          else ProxyGetLength(data.buffer, 0).error)
    ensures r.Ok? ==> IsLite3Buffer(r.value)
    ensures r.Ok? && r.value.ObjectRef? ==>
              fresh(r.value.obj) && r.value.obj.offset == 0 && r.value.obj.cache == map[] && r.value.obj.Valid()
    ensures r.Ok? && r.value.ArrayRef? ==>
              fresh(r.value.arr) && r.value.arr.offset == 0 && r.value.arr.cache == map[] && r.value.arr.Valid()
  {
    var buffer: Buffer;
    if data.FromBuffer? {
      buffer := data.buffer;
    } else {
      var e := Encode(data.value, room);
      if e.Err? {
        return Err(e.error);
      }
      buffer := e.value;
      EncodedRootQueries(buffer, Normalize(data.value));
    }
    var rootType := ProxyGetRootType(buffer);
    if rootType.Err? {
      return Err(rootType.error);
    }
    if rootType.value == "array" {
      var p := CreateArrayProxy(buffer, 0);
      if p.Err? {
        return Err(p.error);
      }
      return Ok(ArrayRef(p.value));
    }
    var p := new ObjectProxy(buffer, 0);
    return Ok(ObjectRef(p));
  }

  /** Reading a property twice gives the identical value or proxy the second time. */
  method ReadPropertyTwice(p: ObjectProxy, prop: Prop) returns (first: Result<JsValue>, second: Result<JsValue>)
    requires p.Valid()
    modifies p
    ensures p.Valid()
    ensures first.Ok? ==> second == first
  {
    first := p.Get(prop);
    second := p.Get(prop);
  }

  /** Reading an element twice gives the identical value or proxy the second time. */
  method ReadElementTwice(a: ArrayProxy, prop: Prop) returns (first: Result<JsValue>, second: Result<JsValue>)
    requires a.Valid()
    modifies a
    ensures a.Valid()
    ensures first.Ok? ==> second == first
  {
    first := a.Get(prop);
    second := a.Get(prop);
  }

  /** Reading a nested property p[outer][inner] twice: the second read of outer yields the
      same child proxy, and the child yields the identical value for inner again. */
  method ReadNestedTwice(p: ObjectProxy, outer: string, inner: string)
    returns (child: Result<JsValue>, again: Result<JsValue>, first: Result<JsValue>, second: Result<JsValue>)
    requires p.Valid() && outer !in p.cache
    modifies p
    ensures p.Valid()
    ensures child.Ok? ==> again == child
    ensures child.Ok? && child.value.ObjectRef? && first.Ok? ==> second == first
  {
    child := p.Get(Name(outer));
    if child.Err? || !child.value.ObjectRef? {
      again := p.Get(Name(outer));
      return child, again, child, child;
    }
    var c := child.value.obj;
    first := c.Get(Name(inner));
    again := p.Get(Name(outer));
    second := c.Get(Name(inner));
  }

  /** Reading p[outer][index][inner], as in users[0].name: the array proxy for outer hands
      out an element proxy on which the property can be read, and read again identically. */
  method ReadElementProperty(p: ObjectProxy, outer: string, index: string, inner: string)
    returns (first: Result<JsValue>, second: Result<JsValue>)
    requires p.Valid() && outer !in p.cache
    modifies p
    ensures p.Valid()
    ensures first.Ok? ==> second == first
  {
    var arr := p.Get(Name(outer));
    if arr.Err? || !arr.value.ArrayRef? {
      return arr, arr;
    }
    var a := arr.value.arr;
    var elem := a.Get(Name(index));
    if !IsIndexName(index, a.length) || elem.Err? || !elem.value.ObjectRef? {
      return elem, elem;
    }
    first := elem.value.obj.Get(Name(inner));
    second := elem.value.obj.Get(Name(inner));
  }

  /** On an object holding w, each property of w reads back as itself: a scalar as its
      value, a container as a proxy shape at a child container holding it (an array with
      its element count). */
  lemma HeldPropertyShape(img: Image, head: Option<Tag>, o: nat, w: HostValue, j: nat)
    requires |img| <= SizeTModulus && Holds(img, o, w) && w.HObject? && j < |w.props|
    ensures var buf, x := Buffer(head, Some(img)), w.props[j].1;
            var s := PropertyShape(buf, o, w.props[j].0);
            && s.Ok? && s.value.Some?
            && (!IsObjectType(x) ==> s.value.value == ScalarShape(x))
            && (x.HObject? ==> s.value.value.ObjectShape? && s.value.value.buffer == buf && Holds(img, s.value.value.offset, x))
            && (x.HArray? ==> s.value.value.ArrayShape? && s.value.value.buffer == buf &&
                              s.value.value.length == |x.elems| && Holds(img, s.value.value.offset, x))
  {
    var buf, k, x := Buffer(head, Some(img)), w.props[j].0, w.props[j].1;
    HeldProperty(img, o, w, j, head);
    assert Supported(x) by {
      assert EntryHolds(img, img[o].fields[j].1, x);
    }
    if IsObjectType(x) {
      var c := ProxyGetChildOffset(buf, o, k).value;
      HeldLengthAndKeys(img, c, x, head);
    }
  }

  /** On an object holding w, a key w lacks reads as undefined and is not cached. */
  lemma HeldAbsentShape(img: Image, head: Option<Tag>, o: nat, w: HostValue, key: string)
    requires |img| <= SizeTModulus && Holds(img, o, w) && w.HObject?
    requires forall j :: 0 <= j < |w.props| ==> w.props[j].0 != key
    ensures PropertyShape(Buffer(head, Some(img)), o, key) == Ok(None)
  {
    HeldAbsentKey(img, o, w, key, head);
  }

  /** On an array holding w, each element of w reads back as itself. */
  lemma HeldElementShape(img: Image, head: Option<Tag>, o: nat, w: HostValue, i: nat)
    requires |img| <= SizeTModulus && Holds(img, o, w) && w.HArray? && i < |w.elems|
    ensures var buf, x := Buffer(head, Some(img)), w.elems[i];
            var s := ElementShape(buf, o, i);
            && s.Ok?
            && (!IsObjectType(x) ==> s.value == ScalarShape(x))
            && (x.HObject? ==> s.value.ObjectShape? && s.value.buffer == buf && Holds(img, s.value.offset, x))
            && (x.HArray? ==> s.value.ArrayShape? && s.value.buffer == buf &&
                              s.value.length == |x.elems| && Holds(img, s.value.offset, x))
  {
    var buf, x := Buffer(head, Some(img)), w.elems[i];
    HeldElement(img, o, w, i, head);
    if IsObjectType(x) {
      var c := ProxyGetArrayChildOffset(buf, o, i).value;
      HeldLengthAndKeys(img, c, x, head);
    }
  }

  /** An object proxy over a container holding w lists w's keys in order, and reports each
      of them present, with an enumerable descriptor. */
  lemma HeldObjectTraps(p: ObjectProxy, img: Image, head: Option<Tag>, w: HostValue)
    requires p.buffer == Buffer(head, Some(img)) && |img| <= SizeTModulus && Holds(img, p.offset, w) && w.HObject?
    ensures p.OwnKeys() == Ok(seq(|w.props|, i requires 0 <= i < |w.props| => w.props[i].0))
    ensures forall j :: 0 <= j < |w.props| ==>
              p.Has(Name(w.props[j].0)) == Ok(true) &&
              p.OwnPropertyDescriptor(Name(w.props[j].0)) == Ok(Some(Descriptor(None, false, true, true)))
  {
    HeldLengthAndKeys(img, p.offset, w, head);
    forall j | 0 <= j < |w.props|
      ensures p.Has(Name(w.props[j].0)) == Ok(true)
    {
      HeldProperty(img, p.offset, w, j, head);
    }
  }
}
