# JSON configuration writer

A Dafny model of `JSONConfigurationWriter`, the configuration visitor of
maia-json-configuration that turns the callbacks of one traversal of a
configuration (`begin`, `item`, `beginSubConfiguration`,
`endSubConfiguration`, `end`) into a JSON tree of the form
`{type, body: {name: item-or-node, ...}}`, and of its typed-primitive
encoding of item values (`{type, value}` objects and arrays of them).

Modules, one concept each:

- `Outcomes`: `Option`, `Result`, `Status` and the faults the writer throws
  (an empty `java.util.Stack`, an unwritable value type, "Writer not ended").
- `JsonValue`: the JSON tree (null, string, number, boolean, array, object).
- `ValueEncoding`: the values `item` receives, as a closed sum, and the
  encoder (`valueToJsonElement`, `jsonPrimitiveObject`). A reference
  decoder is its partner: decoding an encoding gives the value back, and
  every element the decoder accepts is the encoding of what it decodes to,
  so the encoding is lossless.
- `WriterSteps`: the writer's state as a value (a stack of
  `(name, fields)` frames, top last, and the result slot), one function per
  callback, the invariant every callback keeps in any call order (the stack
  alternates wrapper and body frames, so its depth is even; a result is
  always a `{type, body}` node), and its preservation.
- `ConfigurationWriter`: the class `JsonConfigurationWriter` with a `seq`
  stack field and an `Option` result field; each method pushes, peeks and
  pops as the source does and states its whole new state, which is the
  state the step function gives.
- `Traversal`: a configuration tree, the callback sequence a walker emits
  for it, and a direct recursive encoding of the tree. Running the writer
  on the walk of a tree, from any state, yields exactly that encoding (or
  the fault of the first unwritable item, with no result); the stack never
  drops below two frames and stays even between `begin` and `end`.

A callback that throws in the source returns `Threw(fault)` here, after
the changes the source makes before the throw: `endSubConfiguration` on a
stack of two frames pops both and then fails on `peek`, leaving the stack
empty.

Behaviour of the code worth noting:

- Out-of-order callbacks are not rejected as such. Only an empty stack
  makes a callback throw (`EmptyStack`); `item` after `end` with frames
  left, or `end` inside a sub-configuration, proceed as the stack allows.
- The `type` field of an encoded `null` is a JSON null (`null?.simpleName`),
  not the string `"null"`.
- Bodies are hash maps, so key order is not preserved; the model uses
  `map`.

## Model

| member | source | states |
|---|---|---|
| `ValueEncoding.PrimitiveObject` | src/maia/configure/json/JSONConfigurationWriter.kt:78-89 | a scalar becomes an object with exactly the keys `type` and `value`; the type is JSON null exactly for null, whose value is JSON null too |
| `ValueEncoding.Encode` | src/maia/configure/json/JSONConfigurationWriter.kt:69-76 | succeeds exactly when no value of an unwritable type occurs inside the value; a failure names the class of such a value; a scalar gives a `{type, value}` object, a sequence an array of the same length |
| `ValueEncoding.EncodeAll` | src/maia/configure/json/JSONConfigurationWriter.kt:72-73 | a sequence encodes exactly when all its elements do, to as many elements; otherwise it fails with the fault of an unwritable element |
| `ValueEncoding.EncodeAllElementwise` | src/maia/configure/json/JSONConfigurationWriter.kt:72-73 | the i-th encoded element is the encoding of the i-th value |
| `ValueEncoding.EncodeSequence` | src/maia/configure/json/JSONConfigurationWriter.kt:72-73 | an array or iterable of writable values encodes to an array of the same length whose i-th element encodes its i-th value |
| `ValueEncoding.DecodeEncode` | src/maia/configure/json/JSONConfigurationWriter.kt:69-89 | decoding the encoding of a writable value gives the value back |
| `ValueEncoding.DecodeEncodeAll` | src/maia/configure/json/JSONConfigurationWriter.kt:72-73 | decoding the encodings of a sequence gives the sequence back |
| `ValueEncoding.EncodeDecode` | src/maia/configure/json/JSONConfigurationWriter.kt:69-89 | every element of item shape is the encoding of the value it decodes to |
| `ValueEncoding.EncodeDecodeAll` | src/maia/configure/json/JSONConfigurationWriter.kt:72-73 | every array of item-shaped elements is the encoding of the sequence it decodes to |
| `ValueEncoding.EncodeInjective` | src/maia/configure/json/JSONConfigurationWriter.kt:69-89 | two values with the same encoding are equal: the encoding loses nothing |
| `ValueEncoding.EncodingIsItem` | src/maia/configure/json/JSONConfigurationWriter.kt:69-89 | every encoding has item shape |
| `WriterSteps.FoldIsNode` | src/maia/configure/json/JSONConfigurationWriter.kt:48-51 | folding a wrapper frame and a body frame gives a node whose type is the wrapper's and whose body is the body frame's map |
| `WriterSteps.BeginStep` | src/maia/configure/json/JSONConfigurationWriter.kt:26-33 | whatever came before, `begin` leaves no result and exactly two frames: a wrapper holding only the given type, under an empty body |
| `WriterSteps.ItemStep` | src/maia/configure/json/JSONConfigurationWriter.kt:35-38 | `item` completes exactly when the stack is not empty and the value is writable, and then the name is in the top frame; it throws `EmptyStack` exactly on an empty stack; a throw changes nothing; depth, result and every frame below the top are unchanged |
| `WriterSteps.BeginSubStep` | src/maia/configure/json/JSONConfigurationWriter.kt:40-45 | `beginSubConfiguration` keeps every frame and the result and pushes two: a wrapper named after the element holding only the given type, and an empty body |
| `WriterSteps.EndSubStep` | src/maia/configure/json/JSONConfigurationWriter.kt:47-52 | `endSubConfiguration` completes exactly with three or more frames, then removes two and the wrapper's name becomes a key of the new top frame, frames below unchanged; otherwise it throws `EmptyStack` after popping, leaving no frames; the result never changes |
| `WriterSteps.EndStep` | src/maia/configure/json/JSONConfigurationWriter.kt:54-59 | `end` completes exactly with two or more frames, then removes them and the result is an object whose body is the top frame's map; otherwise it throws `EmptyStack` after popping, leaving no frames and the result as it was |
| `WriterSteps.Step` | src/maia/configure/json/JSONConfigurationWriter.kt:26-59 | only `begin` and `end` touch the result; `begin` leaves two frames, `item` keeps the depth, `beginSubConfiguration` adds two, a completed `endSubConfiguration` or `end` removes two, and a throw never grows the stack |
| `WriterSteps.Run` | src/maia/configure/json/JSONConfigurationWriter.kt:35-52 | callbacks without `begin` or `end` among them leave the result as it was |
| `WriterSteps.BeginEstablishesWellFormed` | src/maia/configure/json/JSONConfigurationWriter.kt:26-33 | the state `begin` produces satisfies the invariant |
| `WriterSteps.ItemPreservesWellFormed` | src/maia/configure/json/JSONConfigurationWriter.kt:35-38 | `item` keeps the invariant, whether it stores or throws |
| `WriterSteps.BeginSubPreservesWellFormed` | src/maia/configure/json/JSONConfigurationWriter.kt:40-45 | `beginSubConfiguration` keeps the invariant |
| `WriterSteps.EndSubPreservesWellFormed` | src/maia/configure/json/JSONConfigurationWriter.kt:47-52 | `endSubConfiguration` keeps the invariant: the stored node is a `{type, body}` node |
| `WriterSteps.EndPreservesWellFormed` | src/maia/configure/json/JSONConfigurationWriter.kt:54-59 | `end` keeps the invariant: the result is a `{type, body}` node |
| `WriterSteps.StepPreservesWellFormed` | src/maia/configure/json/JSONConfigurationWriter.kt:26-59 | every callback keeps the stack even and alternating and the result a node, in any call order |
| `WriterSteps.RunPreservesWellFormed` | src/maia/configure/json/JSONConfigurationWriter.kt:26-59 | any sequence of callbacks keeps the invariant |
| `WriterSteps.ItemCannotClobberType` | src/maia/configure/json/JSONConfigurationWriter.kt:35-38 | an item of any name, `type` included, leaves every wrapper frame, and so every node's type, unchanged |
| `WriterSteps.NoResultBeforeEnd` | src/maia/configure/json/JSONConfigurationWriter.kt:24-58 | without `end`, a writer with no result never gets one |
| `ConfigurationWriter.JsonConfigurationWriter.constructor` | src/maia/configure/json/JSONConfigurationWriter.kt:23-24 | a new writer has an empty stack and no result |
| `ConfigurationWriter.JsonConfigurationWriter.Begin` | src/maia/configure/json/JSONConfigurationWriter.kt:26-33 | discards any earlier stack and result; the stack becomes `("", {type: T})` under `("", {})` |
| `ConfigurationWriter.JsonConfigurationWriter.Item` | src/maia/configure/json/JSONConfigurationWriter.kt:35-38 | stores the value's encoding under the name in the top frame only, last write winning; throws on an empty stack or an unwritable value and then changes nothing; wrapper frames never change |
| `ConfigurationWriter.JsonConfigurationWriter.BeginSubConfiguration` | src/maia/configure/json/JSONConfigurationWriter.kt:40-45 | pushes exactly `(name, {type: T})` and `("", {})`; frames below and the result are unchanged |
| `ConfigurationWriter.JsonConfigurationWriter.EndSubConfiguration` | src/maia/configure/json/JSONConfigurationWriter.kt:47-52 | completes exactly when four or more frames are on the stack; then pops two and stores the `{type, body}` node under the wrapper's name in the new top frame, all else unchanged; otherwise throws with the stack emptied |
| `ConfigurationWriter.JsonConfigurationWriter.End` | src/maia/configure/json/JSONConfigurationWriter.kt:54-59 | completes exactly when two or more frames are on the stack; then pops two and the result is the node with exactly the keys `type` and `body`; otherwise throws with the stack emptied and the result unchanged |
| `ConfigurationWriter.JsonConfigurationWriter.ToJson` | src/maia/configure/json/JSONConfigurationWriter.kt:61-63 | fails with "Writer not ended" exactly when there is no result; otherwise returns the result, a `{type, body}` node |
| `Traversal.EncodeConfiguration` | src/maia/configure/json/JSONConfigurationWriter.kt:26-59 | a configuration encodes exactly when all its items do, to a node with its type and one body key per element name |
| `Traversal.EncodeElement` | src/maia/configure/json/JSONConfigurationWriter.kt:35-52 | an element encodes exactly when writable, to an item or a node |
| `Traversal.EncodeBody` | src/maia/configure/json/JSONConfigurationWriter.kt:35-52 | a body gains one key per element name and holds only items and nodes |
| `Traversal.RunElement` | src/maia/configure/json/JSONConfigurationWriter.kt:35-52 | the callbacks of one element store its encoding under its name in the top frame and change nothing else, or throw its fault with the result untouched |
| `Traversal.RunSubConfiguration` | src/maia/configure/json/JSONConfigurationWriter.kt:40-52 | a balanced `beginSubConfiguration` ... `endSubConfiguration` stores the encoding of the nested configuration under its name in the top frame and changes nothing else, or throws its fault with the result untouched |
| `Traversal.RunElements` | src/maia/configure/json/JSONConfigurationWriter.kt:35-52 | balanced callbacks of a sequence of elements restore the depth and fold the elements into the top frame |
| `Traversal.WalkWritesEncoding` | src/maia/configure/json/JSONConfigurationWriter.kt:26-59 | a whole traversal, from any state, ends with an empty stack and the tree's encoding as result, or throws with no result |
| `Traversal.WalkResultHasType` | src/maia/configure/json/JSONConfigurationWriter.kt:26-59 | after a traversal of a writable tree the result is a node with the root's type and one body key per element name |
| `Traversal.ElementDepth` | src/maia/configure/json/JSONConfigurationWriter.kt:40-52 | no prefix of an element's callbacks takes the stack below its starting depth |
| `Traversal.ElementsDepth` | src/maia/configure/json/JSONConfigurationWriter.kt:35-52 | no prefix of a body's callbacks takes the stack below its starting depth |
| `Traversal.TraversalDepth` | src/maia/configure/json/JSONConfigurationWriter.kt:26-59 | between `begin` and `end` the stack depth is even and at least two |
| `Traversal.ExampleDocument` | src/maia/configure/json/JSONConfigurationWriter.kt:26-59 | the traversal `begin(Config)`, `item(x, 5)`, `beginSubConfiguration(child, Config)`, `item(y, "hi")`, `endSubConfiguration()`, `end()` yields the expected nested document |

## Left out

- `toString` (lines 65-67): printing JSON text belongs to the JSON library.
- Reflection: `cls.qualifiedName` and `value.kotlinClass.simpleName` are plain strings; a class without a qualified name (whose `type` would be JSON null) is not modelled.
- Numbers carry the simple name of their class and an integer payload; floating-point values are not modelled.
- Bodies are `map`s: the iteration order of a `HashMap` is not modelled.
- The `metadata` arguments are accepted as an unconstrained type parameter and ignored, as in the source.
- `JsonObject` wraps each `HashMap` by reference; the model uses values, which is equivalent because a map is only wrapped after its frame is popped and is never mutated afterwards.
- `Encode`: a self-containing `Iterable` makes `valueToJsonElement` recurse until the call stack overflows; values here are finite trees, so that case does not arise.
- `PrimitiveObject`: a scalar class whose `simpleName` is null (an anonymous `Number` subclass) gets a JSON null `type` as well; number kinds are strings here, so the model's "the type is JSON null exactly for null" does not cover that case.
- Kotlin primitive arrays (`IntArray`, ...) and maps are not `Array<*>` or `Iterable<*>` and fall under the unwritable `Other` case.
- Exceptions are returned as `Threw` / `Err` values instead of being thrown.
- The reader (JSONConfigurationReader.kt) is not part of this model; the decoder in `ValueEncoding` is a reference inverse of the encoder, not a model of the reader.
