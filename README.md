# lite3 Node binding, modelled in Dafny

This project models the native core of a Node.js binding for lite3, a binary
key/value store. It has four parts:

- **The encoder** (`encode`). It walks a host (JavaScript) object or array depth-first.
  It writes every supported child with a keyed `set_*` call under an object parent, or a
  positional `append_*` call under an array parent. A nested container gets a fresh offset
  before its contents are written there. Unsupported kinds are skipped. Every number is
  written as F64. The whole encode stops at the first failing write.
- **The decoder** (`decode`). It walks the store's iterator back into a host value.
  - Under an object, a child's type is looked up by its key. A container child is read at
    the item's offset, a scalar at the parent's offset through the key.
  - Under an array, element `i` is read through index `i`.
  - BYTES and unknown tags are refused.
  - The root is always decoded as an object.
- **The one-shot queries** (`getType`, `getArrayType`, `getValue`, `getArrayElement`,
  `getChildOffset`, `getArrayChildOffset`, `getKeys`, `getLength`, `hasKey`,
  `getRootType`). Each opens a transient context on a buffer, reads one thing and destroys
  the context.
- **The lazy proxies** (`Lite3Buffer.from`, the object and array proxy traps, the array
  helpers, `isLite3Buffer`, `getBuffer`). A proxy stands for the container at one offset.
  It answers reads with one-shot queries, hands out child proxies for nested containers,
  and memoises what it hands out, so repeated reads are identical.

The lite3 library itself is abstract.
- A store image is a sequence of containers indexed by offset, and offset 0 is the root.
- An object's fields keep insertion order (also their iteration order), and its keys are
  distinct.
- A container made by a set/append call gets a fresh offset, larger than its parent's.
- The buffer's capacity is a `room` counter. Each write takes one unit; a write with no
  room left fails, as a buffer that cannot grow does.

Numbers are opaque: a double by its bit pattern, or the double made from an integer.

Files, one module each:

| file | module | models |
|---|---|---|
| common.dfy | Common | `Option`, `Result`, the thrown messages |
| host.dfy | Host | host values, what the encoder drops (`Normalize`), its write count (`Writes`) |
| lite3.dfy | Lite3 | the abstract store: entries, containers, read functions, the `Store` context class |
| stored.dfy | Stored | `Holds`: when a store image holds a host value |
| encoder.dfy | Encoder | src/addon_encode.c |
| decoder.dfy | Decoder | src/addon_decode.c |
| queries.dfy | Queries | src/addon_proxy.c |
| lazy_proxy.dfy | LazyProxy | src/proxy.ts |

What is proved:
- **Encoder success.** Encoding succeeds exactly when the value's writes fit in the
  buffer's room. The resulting buffer's first byte names the root kind, and its root holds
  the value with unsupported kinds dropped (`Encode`, `EncodeEnumerable`).
- **Decoding.** It reads back what the store holds (`HoldsDecodes`), so `decode(encode(v))
  == v` for every object root built from supported kinds (`ObjectRootRoundTrip` with
  `NormalizeAllSupported`).
- **Query consistency.**
  - `hasKey` is false exactly when `getType` says "undefined".
  - `getChildOffset` succeeds exactly on containers, with the offset `getValue` returns.
  - On a container holding a host value, every query reads that value back.
- **Proxy caching.** Every cached entry is what a fresh read would hand out, so two reads
  give the identical value or proxy.
- **Array helpers.** Each one is proved against a reference definition: `Mapped`,
  `Filtered`, `Reduced`, first-match indices, `AtIndex`, `SliceBounds`.

## Model

| member | source | states |
|---|---|---|
| Lite3.Get | src/addon_decode.c:91-93 | a keyed typed accessor succeeds exactly when the key's entry has the wanted type, and then yields that entry |
| Lite3.ArrGet | src/addon_decode.c:17-20 | a positional typed accessor succeeds exactly when the element has the wanted type, and then yields that element |
| Lite3.Store.constructor | src/addon_encode.c:211-215 | a new context is empty with the given room |
| Lite3.Store.InitObj | src/addon_encode.c:222 | the root, at offset 0, becomes an empty object |
| Lite3.Store.InitArr | src/addon_encode.c:221 | the root, at offset 0, becomes an empty array |
| Lite3.Store.Set | src/addon_encode.c:89-93 | a keyed scalar write succeeds exactly when there is room and off is an object; then the field named key is replaced in place or appended, and nothing else changes; a failure changes nothing |
| Lite3.Store.Append | src/addon_encode.c:83-87 | a positional scalar write succeeds exactly when there is room and off is an array; then the entry is appended, and a failure changes nothing |
| Lite3.Store.SetContainer | src/addon_encode.c:159-165 | set_obj/set_arr: on success the key points to a new empty container of the wanted kind at a fresh offset, the image's old length |
| Lite3.Store.AppendContainer | src/addon_encode.c:153-158 | append_obj/append_arr: on success a new empty container of the wanted kind is appended at a fresh offset |
| Host.Normalize | src/addon_encode.c:176-186 | dropping unsupported kinds keeps a value's own kind (object stays object, array stays array) and whether it is supported |
| Host.NormalizeAllSupported | src/addon_encode.c:64-187 | a value built only from strings, numbers, booleans, null, objects and arrays loses nothing |
| Encoder.EncodeEnumerable | src/addon_encode.c:10-55 | writing v's contents into its empty container succeeds exactly when Writes(v) fits the room, uses exactly that room, leaves the container holding Normalize(v), and changes no other existing container |
| Encoder.EncodeFields | src/addon_encode.c:22-53 | the object loop: properties are written in order under their keys; on success the object holds the normalized properties, and a failure stops the loop |
| Encoder.EncodeElems | src/addon_encode.c:22-53 | the array loop: elements are appended in order, skipped kinds leave no gap, and a failure stops the loop |
| Encoder.EncodeElement | src/addon_encode.c:57-188 | one child: an array parent gets one appended entry, an object parent one new field under key, each holding the normalized child (numbers as F64); an unsupported kind writes nothing and succeeds; success exactly when Cost(v) fits |
| Encoder.EncodeChild | src/addon_encode.c:147-173 | a nested object or array first gets a new container of its own kind, and its contents are then written at the new offset |
| Encoder.PropsWritesGrow | src/addon_encode.c:46-50 | the writes of a prefix of the properties never exceed those of the whole, so a failing write means the value did not fit |
| Encoder.Encode | src/addon_encode.c:191-238 | a non-object argument fails with the type error; otherwise encode succeeds exactly when the writes fit, any failure throws "Lite3 error" or the N-API message, and a success is the context's image copied out, whose first byte is the root's container tag and whose root holds Normalize(v) |
| Decoder.Read | src/addon_decode.c:109-115 | a scalar is read with the positional accessor when index >= 0 and with the keyed accessor otherwise, always of the wanted type |
| Decoder.DecodeValue | src/addon_decode.c:6-174 | lite3_napi_decode_value equals the Decoded specification: container dispatch, scalar accessors, their error messages, "Unsupported value type" for BYTES, COUNT, INVALID and unknown tags |
| Decoder.DecodeObject | src/addon_decode.c:29-52 | the iterator loop gives one property per item in order, each found by a keyed type lookup through the item's key (an item without a key finds INVALID), and the first failure is the result |
| Decoder.DecodeArray | src/addon_decode.c:68-86 | the counter loop decodes item i through index i into slot i, and the first failure is the result |
| Decoder.Decode | src/addon_decode.c:177-232 | decode as written: a refused buffer fails with "Failed to create Lite3 context", and otherwise the root is decoded at offset 0 as an OBJECT with no key and index -1 |
| Decoder.HoldsDecodes | src/addon_decode.c:36-83 | a container that holds a host value decodes back to exactly that value |
| Decoder.PropertyDecodes | src/addon_decode.c:36-44 | an object's j-th property decodes, by key and the item's offset, to the j-th property's value |
| Decoder.ElementDecodes | src/addon_decode.c:71-83 | an array's i-th element decodes through index i to the i-th element |
| Decoder.ObjectRootRoundTrip | test/encode-decode.test.ts:20-108 | decode of any buffer that encodes an object gives the object back |
| Decoder.EmptyRootArrayDecodesAsObject | src/addon_decode.c:218 | as written, a buffer encoding the empty array decodes to an empty object and not to an empty array |
| Decoder.NonEmptyRootArrayFails | src/addon_decode.c:36-44 | as written, a buffer encoding a non-empty array fails with "Unsupported value type" |
| Decoder.DecodeTyped | src/addon_decode.c:207-222 | decode with the root type taken from the first byte (ARRAY exactly for an array tag, otherwise OBJECT), equal to DecodeRoot |
| Decoder.RootRoundTrip | test/encode-decode.test.ts:110-153 | decoding by the root's own tag gives back every encoded root, array or object |
| Queries.SizeT | src/addon_proxy.c:153 | the (size_t) cast of the int64 offset: identity on non-negative offsets, 2^64 added to negative ones |
| Queries.TypeName | src/addon_proxy.c:116-131 | each name is produced exactly by its tags: I64 and F64 are "number", and INVALID, COUNT and unknown tags are "undefined" |
| Queries.KeysOf | src/addon_proxy.c:503-512 | the keys are the iterator items' keys, item i at position i; an item without a key is an error |
| Queries.ProxyGetKeys | src/addon_proxy.c:476-516 | getKeys: a refused buffer or iterator fails with its message; otherwise the loop's result equals KeysOf of the items |
| Queries.HasKeyIffDefined | src/addon_proxy.c:555-579 | hasKey (ProxyHasKey) is false exactly when getType is "undefined", and true exactly when getType names a type |
| Queries.ChildOffsetAgreesWithValue | src/addon_proxy.c:384-424 | getChildOffset gives c exactly when getType is "object" or "array" and getValue gives the number c; any other type fails with "Property is not an object or array" |
| Queries.ArrayChildOffsetAgreesWithElement | src/addon_proxy.c:430-470 | the positional counterpart: getArrayChildOffset agrees with getArrayElement on containers and fails on everything else |
| Queries.ChildOffsetBeyond | test/proxy.test.ts:150-160 | a child offset is always larger than its parent's, so never the root |
| Queries.ValueMatchesDecode | src/addon_proxy.c:198-286 | getValue on a scalar property equals what decode produces for it; on BYTES or an absent key getValue is undefined where decode fails |
| Queries.ElementMatchesDecode | src/addon_proxy.c:292-378 | getArrayElement on a scalar element equals decode through its index; on BYTES or a missing element it is undefined where decode fails |
| Queries.HeldProperty | src/addon_proxy.c:137-424 | getType (ProxyGetType, lines 137-161), getValue (ProxyGetValue, 198-286) and getChildOffset (ProxyGetChildOffset, 384-424) on an object holding w: each property is present, has its kind's type name, and reads back through getValue or, for a container, through getChildOffset at a container holding it |
| Queries.HeldAbsentKey | src/addon_proxy.c:137-161 | on an object holding w, a key w lacks has hasKey false, type "undefined" and value undefined |
| Queries.HeldElement | src/addon_proxy.c:167-470 | getArrayType (ProxyGetArrayType, lines 167-191), getArrayElement (ProxyGetArrayElement, 292-378) and getArrayChildOffset (ProxyGetArrayChildOffset, 430-470) on an array holding w: each element has its kind's type name and reads back through getArrayElement or, for a container, through getArrayChildOffset at a container holding it |
| Queries.HeldLengthAndKeys | src/addon_proxy.c:476-549 | getKeys (KeysAt, lines 476-516) and getLength (ProxyGetLength, 522-549) on a container holding w: getLength is its number of properties or elements, and getKeys of an object is its keys in order |
| Queries.EncodedRootQueries | src/addon_proxy.c:585-624 | getRootType (ProxyGetRootType) of an encoded buffer names its root kind, and the root's getLength is its number of top-level keys or elements |
| Queries.RefusedBufferFails | src/addon_proxy.c:147-151 | every query that opens a context (ProxyGetType, ProxyGetArrayType, ProxyGetValue, ProxyGetArrayElement, ProxyGetChildOffset, ProxyGetArrayChildOffset, ProxyGetLength, KeysAt, ProxyHasKey) fails with "Failed to create Lite3 context" on a refused buffer; getRootType opens none and still answers |
| Queries.NoContainerAt | src/addon_proxy.c:496-542 | at an offset naming no container (a negative one wraps around): types are "undefined", values undefined, hasKey false, the child offsets fail as "not an object or array", getKeys (KeysAt) fails with "Failed to create iterator" and getLength with "Failed to get element count" |
| Queries.RootTypeOfHead | src/addon_proxy.c:611-623 | getRootType (ProxyGetRootType) fails with "Buffer is empty" exactly on an empty buffer, and otherwise names the first byte's tag |
| Queries.KeysOfArray | src/addon_proxy.c:494-512 | getKeys (KeysAt) of an empty array is empty, and of a non-empty array it fails, its items having no key |
| LazyProxy.WellKnown | src/proxy.ts:49-53 | exactly $buffer, $isLite3Buffer and $decode have a fixed answer |
| LazyProxy.ObjectProxy.constructor | src/proxy.ts:43-46 | a new object proxy has an empty cache and is valid |
| LazyProxy.ObjectProxy.Get | src/proxy.ts:47-96 | symbols: the well-known answers or undefined, no caching; a cached key answers from the cache; otherwise getType decides: "undefined" gives undefined and is not cached, "object" and "array" give a new proxy at getChildOffset, with an empty cache and valid, so its own traps can be used; anything else getValue; the result is cached |
| LazyProxy.ObjectProxy.Has | src/proxy.ts:98-103 | a symbol is present exactly when it is one of the three well-known ones; a string key exactly when getType names a type (hasKey) |
| LazyProxy.ObjectProxy.OwnPropertyDescriptor | src/proxy.ts:109-117 | a string key has a descriptor exactly when hasKey holds, and it is enumerable, configurable and read-only; symbols have none |
| LazyProxy.CreateArrayProxy | src/proxy.ts:121-123 | the length is getLength's, read once at creation; a failing getLength fails the creation |
| LazyProxy.NumberIndex | src/proxy.ts:148 | Number(prop) of the empty string is 0, and Number("length") names no index |
| LazyProxy.NatToString | src/proxy.ts:326 | String(i) is a non-empty string of decimal digits |
| LazyProxy.NatToStringNumber | src/proxy.ts:322-329 | Number(String(i)) is i, so each key ownKeys lists names its own index |
| LazyProxy.AtIndex | src/proxy.ts:256-257 | at: an index names an element exactly when it lies in [-length, length), a negative one counting from the end |
| LazyProxy.Position | src/proxy.ts:267-268 | a slice bound: negative values count from the end and are clamped at 0, others are clamped at length |
| LazyProxy.SliceBounds | src/proxy.ts:265-268 | an absent start is 0 and an absent end is length, and both resolve through Position |
| LazyProxy.Mapped | src/proxy.ts:155-163 | map's result has one entry per element: fn applied to the element and its index |
| LazyProxy.Filtered | src/proxy.ts:173-182 | filter's result is no longer than the input and contains only input elements |
| LazyProxy.FilteredAll | src/proxy.ts:173-182 | a filter accepting every element returns them all in order |
| LazyProxy.FilteredNone | src/proxy.ts:173-182 | a filter accepting no element returns none |
| LazyProxy.ReducedSnoc | src/proxy.ts:221-234 | reduce over one more element applies f once more, except that an undefined initial value is seeded by the first element |
| LazyProxy.ArrayProxy.constructor | src/proxy.ts:121-125 | a new array proxy has its length fixed, an empty cache, and is valid |
| LazyProxy.ArrayProxy.ElementAt | src/proxy.ts:279-310 | getElementAt: a cached index answers from the cache; otherwise the element is read afresh (for a container a new proxy with an empty cache, valid), cached whatever its type, and nothing else in the cache changes; a failing read caches nothing |
| LazyProxy.ArrayProxy.Get | src/proxy.ts:126-152 | the well-known symbols, then 'length', then Symbol.iterator, a string naming an index in [0, length) is an element read (a container element is a new valid proxy with an empty cache), then the helper names; anything else is undefined |
| LazyProxy.ArrayProxy.Has | src/proxy.ts:313-320 | present exactly for the three well-known symbols, 'length' and the strings naming an index in [0, length) |
| LazyProxy.ArrayProxy.OwnPropertyDescriptor | src/proxy.ts:331-345 | 'length' is a read-only, non-enumerable, non-configurable value; a string has a descriptor exactly when Has holds, read-only, enumerable exactly when it is not 'length' |
| LazyProxy.ArrayProxy.OwnKeys | src/proxy.ts:322-329 | "0" .. String(length - 1), key i naming index i |
| LazyProxy.ArrayProxy.OwnKeyIsOwn | src/proxy.ts:331-345 | every key ownKeys lists passes has and has an enumerable, configurable descriptor |
| LazyProxy.ArrayProxy.Iterate | src/proxy.ts:138-144 | the generator yields every element in order and succeeds exactly when every read does, else fails at the first failing read |
| LazyProxy.ArrayProxy.ForEach | src/proxy.ts:165-171 | every element is read in order, and the first failing read is the result |
| LazyProxy.ArrayProxy.Map | src/proxy.ts:155-163 | the result is Mapped over the elements in order |
| LazyProxy.ArrayProxy.Filter | src/proxy.ts:173-182 | the result is Filtered over the elements in order |
| LazyProxy.ArrayProxy.Find | src/proxy.ts:184-192 | the first accepted element, with every earlier one rejected, or undefined when none is accepted; a failing read is the result only when every earlier element was read and none of them decided the answer |
| LazyProxy.ArrayProxy.FindIndex | src/proxy.ts:194-201 | the smallest accepted index, or -1 when none is accepted; no element after it is read; a failing read is the result only when every earlier element was read and none of them decided the answer |
| LazyProxy.ArrayProxy.Any | src/proxy.ts:203-210 | some: true exactly when some element is accepted, and it stops at the first one; a failing read is the result only when every earlier element was read and none of them decided the answer |
| LazyProxy.ArrayProxy.Every | src/proxy.ts:212-219 | every: false exactly when some element is rejected, and it stops at the first one; a failing read is the result only when every earlier element was read and none of them decided the answer |
| LazyProxy.ArrayProxy.Reduce | src/proxy.ts:221-234 | the result is Reduced over the elements: on an empty array the initial value, with nothing read |
| LazyProxy.ArrayProxy.Includes | src/proxy.ts:236-243 | true exactly when some element is the search element, stopping at the first; a failing read is the result only when every earlier element was read and none of them decided the answer |
| LazyProxy.ArrayProxy.IndexOf | src/proxy.ts:245-252 | the smallest index whose element is the search element, or -1; a failing read is the result only when every earlier element was read and none of them decided the answer |
| LazyProxy.ArrayProxy.At | src/proxy.ts:254-260 | the element at AtIndex, or undefined without any read |
| LazyProxy.ArrayProxy.Slice | src/proxy.ts:262-274 | the elements from the resolved start up to the resolved end, in order, and empty when start >= end |
| LazyProxy.IsLite3Buffer | src/proxy.ts:392-398 | true exactly of the proxies |
| LazyProxy.GetBuffer | src/proxy.ts:403-406 | a proxy's own buffer, and nothing for any other value |
| LazyProxy.From | src/proxy.ts:371-387 | a Buffer is used as it is and anything else is encoded; a root of type "array" gives an array proxy at offset 0 whose length is getLength of the root (for an encoded value, its number of elements), every other root an object proxy at offset 0, each new with an empty cache; a Buffer fails with getRootType's error, or for an array root with getLength's |
| LazyProxy.ReadPropertyTwice | test/lite3-buffer.test.ts:65-69 | a successful property read, repeated, gives the identical value or proxy (function-valued answers are equal as model values only) |
| LazyProxy.ReadElementTwice | src/proxy.ts:281-283 | a successful element or property read, repeated, gives the identical value or proxy (function-valued answers are equal as model values only) |
| LazyProxy.HeldPropertyShape | src/proxy.ts:63-91 | on an object holding w, each property reads back as itself: a scalar as its value, a container as a proxy at a child container holding it |
| LazyProxy.HeldAbsentShape | src/proxy.ts:64-68 | on an object holding w, a key w lacks reads as undefined |
| LazyProxy.HeldElementShape | src/proxy.ts:285-306 | on an array holding w, each element reads back as itself |
| LazyProxy.HeldObjectTraps | src/proxy.ts:98-117 | an object proxy over a container holding w: ownKeys (ObjectProxy.OwnKeys, getKeys at the proxy's offset, lines 105-107) lists w's keys in order, and has and getOwnPropertyDescriptor report each of them present with an enumerable descriptor |
| LazyProxy.ReadNestedTwice | test/lite3-buffer.test.ts:56-69 | from a property not yet cached: the nested proxy handed out can itself be read, rereading the property gives the same proxy, and the nested value read again is the same |
| LazyProxy.ReadElementProperty | test/lite3-buffer.test.ts:233-236 | from a property not yet cached: the element proxy of the array proxy handed out can itself be read, and the same nested property read again gives the identical value |

## Left out

- Argument checking and N-API marshalling are not modelled: the argument count, "Argument must be a Buffer", `extract_args_*` and the `napi_get_*`/`napi_create_*` calls. The model is handed the already extracted host value, buffer, offset and key. A failing N-API call cannot be expressed.
- Memory allocation failure ("Memory allocation failure", a failing `lite3_ctx_create`) is not modelled. The model's only failing writes are those that find no room left.
- "Invalid Lite3 context" (a NULL context handed to lite3_napi_decode_value) is not modelled: every caller passes a context it has just created.
- The lite3 library's byte layout, tag bytes, offset arithmetic and buffer growth are abstract. Offsets are only fresh and larger than the parent's.
- Decoder.DecodeValue: the I64 case's second keyed read (src/addon_decode.c:135, through a possibly NULL key) is left out. Its effect on the store is unknown, and the encoder never writes I64. Only the first read is modelled.
- Keys are strings without NUL, not longer than 255 bytes. Truncation by the `char key[256]` buffers and by `strlen` is left out, and so is UTF-8 encoding.
- Queries.KeysOf: the store's key for an array item is not known. The model reports "Iterator item has no key", a message of the model's own, where the binding would read whatever key the store reports.
- Array iterator items carry no key. A keyed lookup through them finds nothing (Decoder.KeyedType). The Decoder.NonEmptyRootArrayFails result rests on this assumption about the store.
- Encoder.Encode: the failure message is stated as one of "Lite3 error" and the N-API fallback message, not as the exact one. Which one it is depends on N-API's pending-exception handling.
- Floating point is opaque: no number is compared or computed with. Integers read from I64 entries become `Integral` numbers, and the double conversion is not modelled.
- The `getLength` count's uint32 conversion and offsets of 2^64 and above are not modelled. Images are assumed to be smaller than 2^64 containers where a lemma needs it.
- LazyProxy.NumberIndex: JavaScript's `Number(prop)` is modelled only for the empty string and decimal digit strings. Forms such as " 1", "1e0" or "0x1", which Number also accepts as integers, are treated as no index.
- LazyProxy.ArrayProxy.Includes and LazyProxy.ArrayProxy.IndexOf: `===` is a parameter `same`, left uninterpreted, because proxy identity and NaN are not modelled.
- The encoder's property list is an input: the enumerable string keys `napi_get_property_names` reports, inherited ones included. Arrays with holes or with extra non-index properties are not modelled: for those the reported names skip the holes and include the extra properties, which the encoder appends as elements.
- A child proxy taken from a cache is not known to be valid: `Valid()` speaks of a proxy's own cache only, because a child is shared between its parent's cache and whoever holds it, and its cache grows on its own. A nested read is therefore stated within one method, starting from a key that is not yet cached (LazyProxy.ReadNestedTwice, LazyProxy.ReadElementProperty).
- LazyProxy.ReadNestedTwice: stated only for an outer key not yet cached, since a cached child proxy is not known to be valid; the source also reads through a child cached by an earlier access (`proxy.nested.zip` after `proxy.nested.city`).
- LazyProxy.ReadElementProperty: stated only for an outer key not yet cached, for the same reason.
- LazyProxy.ReadPropertyTwice: the `$decode` thunk is compared as a model value. JavaScript builds a new function on each read, so it is not `===` across reads; only values and proxies are identical.
- LazyProxy.ReadElementTwice: the `$decode` thunk, the Symbol.iterator generator and the array helpers are compared as model values. JavaScript builds a new function on each read, so these are not `===` across reads; only values and proxies are identical.
- The JavaScript Proxy invariants are not checked. The array proxy's ownKeys omits the target's non-configurable `length`, and its `length` descriptor is read-only while the target's is writable; an engine that enforces the invariants throws a TypeError for these (for instance in `Object.keys`). The model states only what the traps return.
- Callbacks passed to the array helpers are pure functions. A callback with effects, or one that throws, is not modelled.
- LazyProxy.ArrayProxy.ForEach: the callback is not modelled at all, since a pure callback's results are discarded.
- LazyProxy.Filtered: its own contract states only the length bound and membership. The exact result is fixed by LazyProxy.FilteredAll, LazyProxy.FilteredNone and the Filter method's loop.
- The `$decode` thunk is returned as a value and not invoked. Calling it is `decode` of the proxy's buffer (Decoder.Decode).
- LazyProxy.IsLite3Buffer: host objects other than proxies that happen to carry a `$isLite3Buffer` symbol property are not represented.
- The JavaScript Proxy and Symbol machinery, spreading, `JSON.stringify` and `for...in` are left out. Only the trap logic is modelled.
- Module loading and registration (src/addon.c, src/index.ts) are not part of this model.
- Debug printing and memory ownership (the "takes ownership" comments) are left out.

## Findings

| source | as written | input that shows it | evidently intended | confidence | as-written member | corrected member |
|---|---|---|---|---|---|---|
| src/addon_decode.c:218 | decode always decodes the root as an OBJECT; the root type read at line 207 is unused | `decode(encode([]))` gives `{}`; the test at test/encode-decode.test.ts:116-119 expects `[]` | decode the root with the type in the buffer's first byte, so every encoded root, array or object, round-trips | not executed | Decoder.EmptyRootArrayDecodesAsObject | Decoder.RootRoundTrip |
