# bytechomp schema layer in Dafny

bytechomp reads and writes binary records described by Python dataclasses. Its
schema layer, `bytechomp/data_descriptor.py`, has two functions:

- `build_data_description` walks a dataclass's fields and produces an ordered
  dictionary (the *description*). Every elementary field becomes a
  `BasicParsingElement` leaf with the pack tag, length and Python type of its
  registry entry. `Annotated[str, n]` and `Annotated[bytes, n]` become leaves
  tagged `"{n}s"` and `"{n}p"`. `Annotated[list[T], n]` becomes a Python list of
  `n` leaves or `n` nested descriptions. A nested dataclass becomes its own
  description. The dataclass itself is recorded under the key `__struct_type__`.
  Every malformed declaration raises.
- `build_data_pattern` flattens a description into one struct-module format
  string. It skips the marker, appends leaf tags, expands lists element by
  element and recurses into nested descriptions.

The model keeps both functions in the source's own form. Each is a loop method
(`Builder.BuildDataDescription`, `Pattern.BuildDataPattern`) proved equal to a
recursive specification function that describes the loop after a given number
of iterations (`Builder.DescribePrefix`, `Pattern.EntriesPattern`).

Python reflection is replaced by a declared-type datatype (`DescriptorTypes.DeclaredType`):

- an elementary kind is a `Class` whose name is a key of the registry;
- a dataclass is `Dataclass(struct)`, holding its name and field declarations;
- `Annotated[base, *meta]`, `list[...]`, `str`, `bytes` and `list` each have their own variant;
- everything else, a string forward reference such as `"Node"` included, is `Other`.

The elementary registry (`TYPE_TO_TAG`, `TYPE_TO_LENGTH`, `TYPE_TO_PYTYPE`) is a
parameter: a map from kind to tag, length and Python type. The ordered
dictionary is a sequence of key/element entries. Assignment (`Put`) replaces the
value of an existing key in place and appends a new key, as `OrderedDict`
assignment does.

The properties proved fall into four groups.

- **Layout.** A built description holds the marker first. Every field then follows under its own name, in declaration order, with the element its kind dictates.
- **Acceptance and rejection.** The build is all-or-nothing: it succeeds exactly on an independently defined class of well-declared dataclasses. Otherwise it fails with the error of the first bad field, and each malformed form has its own error.
- **Pattern of a well-formed tree.** The pattern of any tree of the builder's shape is the concatenation of its leaves' tags, in order, one tag per leaf.
- **End to end.** Building and then compiling a dataclass gives the tags its declarations imply. The outer pattern is the field patterns in field order, and a list of `n` is its element's pattern `n` times. With non-empty registry tags, the pattern is empty exactly when there are no leaves.

Concrete scenarios check the pattern `"I4sBBB"` and the pattern of a nested and of
a listed `Point`. They also check what the code does with a field literally
named `__struct_type__`: the assignment overwrites the marker entry, and the
pattern then skips that field's leaf.

## Model

| member | source | states |
|---|---|---|
| Builder.BuildDataDescription | bytechomp/data_descriptor.py:21-114 | the loop over the fields returns exactly the specified description or the specified first error |
| Builder.BuildFieldElement | bytechomp/data_descriptor.py:26-112 | one iteration of the field loop: the element the field's declared type yields, or the error that field raises, recursing into nested dataclasses |
| Builder.FailureAt | bytechomp/data_descriptor.py:35-112 | a field that raises after an accepted prefix makes the whole build fail with that error |
| Builder.ErrorPersists | bytechomp/data_descriptor.py:25-114 | once a field has raised, later fields cannot change the outcome |
| DescriptorTypes.PutAssigns | bytechomp/data_descriptor.py:22-27 | ordered-dictionary assignment: a new key is appended at the end; an existing key keeps its position and gets the new value |
| DescriptorTypes.Replicate | bytechomp/data_descriptor.py:84-93 | `[x] * n` has `max(n, 0)` elements, all equal to `x` |
| DescriptorTypes.DigitsRoundTrip | bytechomp/data_descriptor.py:57-58 | the decimal count written into a `"{n}s"` tag reads back as `n` |
| BuilderProperties.DescribeLayout | bytechomp/data_descriptor.py:22-25 | with distinct field names that are not the marker: the marker entry comes first, then one entry per field under its name, in declaration order, each holding that field's element |
| BuilderProperties.PrefixAppend | bytechomp/data_descriptor.py:25-93 | with distinct field names that are not the marker, each accepted field is appended after the entries of the fields before it |
| BuilderProperties.FirstFailure | bytechomp/data_descriptor.py:25-112 | the build succeeds iff every field is accepted; on failure the error is that of the first failing field |
| BuilderProperties.FailingFieldDecides | bytechomp/data_descriptor.py:34-112 | when the fields before it are accepted, a failing field's error is the result of the whole build |
| BuilderProperties.StructSchemable | bytechomp/data_descriptor.py:26-112 | the build succeeds iff every field, recursively, is an elementary kind, a dataclass without default, or `Annotated` with one int over `str`, `bytes` or a one-argument list of an elementary kind or dataclass |
| BuilderProperties.FieldSchemableIff | bytechomp/data_descriptor.py:26-112 | the same equivalence for a single field |
| BuilderProperties.FieldRejections | bytechomp/data_descriptor.py:34-112 | each malformed form raises its own error naming the field: nested default, wrong `Annotated` arity, non-int length, wrong list arity, unsupported list element, unsupported `Annotated` base, bare `str`/`bytes`/`list`, unsupported type; nested errors pass through unchanged |
| BuilderProperties.ElementaryFieldEntry | bytechomp/data_descriptor.py:26-33 | an elementary field's leaf has the registry's kind, Python type, tag and length, and the declared default or `None` |
| BuilderProperties.TextFieldEntry | bytechomp/data_descriptor.py:52-72 | `Annotated[str, n]` gives a `str` leaf tagged `"{n}s"` and `Annotated[bytes, n]` a `bytes` leaf tagged `"{n}p"`; both have length `n` and carry the default |
| BuilderProperties.ListFieldEntry | bytechomp/data_descriptor.py:74-97 | `Annotated[list[T], n]` gives a list of `max(n, 0)` elements: registry leaves without default for an elementary `T`, or copies of `T`'s description for a dataclass `T` |
| BuilderProperties.NestedFieldEntry | bytechomp/data_descriptor.py:34-39 | a nested dataclass field has no default and holds that dataclass's own description |
| Pattern.BuildDataPattern | bytechomp/data_descriptor.py:117-141 | the two nested loops return exactly the specified pattern, or the specified first error |
| Pattern.EntryFailure | bytechomp/data_descriptor.py:137-140 | an entry of no known shape, after a successful prefix, makes the whole pattern fail with that error |
| Pattern.ItemFailure | bytechomp/data_descriptor.py:129-136 | a list element that is neither a leaf nor a dictionary makes the whole pattern fail |
| Pattern.PatternOfLeaves | bytechomp/data_descriptor.py:117-141 | on a tree of the builder's shape the pattern never fails and is the leaves' tags concatenated in order |
| Layout.StructTags | bytechomp/data_descriptor.py:21-114 | a successful build of a well-named dataclass is a well-formed tree whose leaf tags are the tags the declarations imply |
| Layout.FieldElementTags | bytechomp/data_descriptor.py:26-97 | each accepted field yields a well-formed entry whose leaf tags are the field's declared tags |
| Layout.BuildThenPattern | bytechomp/data_descriptor.py:21-141 | build then compile: no pattern error is reached, the pattern is the declared tags concatenated, and there is one leaf per tag |
| Layout.FieldOrderConcatenation | bytechomp/data_descriptor.py:121-138 | the pattern is the fields' shares in declaration order, and a nested dataclass's share is its own pattern |
| Layout.NestedOnlyField | bytechomp/data_descriptor.py:34-39 | a dataclass whose only field is a nested dataclass has exactly the inner pattern |
| Layout.ElementaryListPattern | bytechomp/data_descriptor.py:83-91 | `Annotated[list[T], n]` of an elementary `T` compiles to `T`'s tag `n` times and has `max(n, 0)` leaves |
| Layout.ElementaryListShare | bytechomp/data_descriptor.py:83-91 | in any dataclass, the share of the pattern of `Annotated[list[T], n]` with elementary `T` is `T`'s tag `n` times |
| Layout.StructListShare | bytechomp/data_descriptor.py:92-93 | in any dataclass, the share of the pattern of `Annotated[list[D], n]` with dataclass `D` is `D`'s pattern `n` times |
| Layout.StructListPattern | bytechomp/data_descriptor.py:92-93 | `Annotated[list[D], n]` of a dataclass `D` compiles to `D`'s pattern `n` times |
| Layout.SameFieldsSamePattern | bytechomp/data_descriptor.py:117-141 | two dataclasses with the same fields build alike and compile to the same pattern |
| Layout.PatternEmptyIffNoLeaves | bytechomp/data_descriptor.py:120-141 | with non-empty registry tags the pattern has at least one character per leaf, so it is empty iff there are no leaves |
| Scenarios.SamplePattern | bytechomp/data_descriptor.py:21-141 | `{a: uint32, b: Annotated[str, 4], c: Annotated[list[uint8], 3]}` compiles to `"I4sBBB"` with 5 leaves |
| Scenarios.WrapperPattern | bytechomp/data_descriptor.py:34-39 | a field of dataclass `Point{x, y: float32}` compiles to `"ff"` |
| Scenarios.PathPattern | bytechomp/data_descriptor.py:92-93 | `Annotated[list[Point], 2]` compiles to `"ffff"` |
| Scenarios.MarkerFieldIsSkipped | bytechomp/data_descriptor.py:22-27 | a field named `__struct_type__` overwrites the marker entry; the pattern is then `""` while the description holds one leaf |

## Left out

- The elementary type list and its three tables (`bytechomp/datatypes.py`) are not part of this model. The registry is a parameter, and non-empty tags are the only thing assumed of it.
- Python reflection (`fields`, `get_origin`, `get_args`, `inspect.isclass`, `is_dataclass`) is replaced by the `DeclaredType` datatype. Python's flattening of nested `Annotated[...]` forms is not modelled.
- A dataclass that refers to itself through a string forward reference has `field.type == "Node"`, which the source rejects at lines 109-112 (or 94-97 inside a list); the model writes it as `Other` and rejects it the same way. A class object patched in after decoration, which makes the source fail with Python's `RecursionError`, cannot be written as a value of the finite `Struct` datatype.
- The scratch slots `raw_data` and `parsed_value` of `BasicParsingElement` (lines 17-18) are not modelled. They are filled in only by unpacking, which lies outside this code.
- `[x] * n` repeats one object `n` times, so the copies alias each other. The model keeps values, so this aliasing is not captured.
- The error variants stand for the raised exceptions. Their message texts are not modelled. `LengthNotInt` carries the field name, although the message at line 50 omits it.
- `default_factory` is not modelled as such. The source reads only `field.default` (lines 32, 35, 60, 71), so a field declared with only a factory is written with `default == None`: it is accepted as a nested dataclass field, and an elementary or text leaf gets the default `None`.
- `Layout.BuildThenPattern`, `Layout.StructTags` and the other end-to-end lemmas require field names that are distinct and differ from `__struct_type__`, in every nested dataclass. Python guarantees distinct names. A field named `__struct_type__` behaves as `Scenarios.MarkerFieldIsSkipped` shows.
- Negative `Annotated` lengths are accepted, as the code does. A list then has no elements and a text tag reads `"-1s"`. Nothing in the code requires a non-negative length or a positive leaf length, so the model requires neither.
- `BuilderProperties.TextFieldEntry`: the read-back of the count in the tag is stated only for non-negative lengths.
