/**
 * The entities of bytechomp's schema layer: the declared field types of a
 * dataclass (what Python reflection would report), the elementary type
 * registry, the description tree that `build_data_description` produces,
 * and the errors of both builders.
 */
module DescriptorTypes {

  datatype Option<+T> = None | Some(value: T)

  datatype Result<+T, +E> = Ok(value: T) | Err(error: E)

  /** The key under which a description records the dataclass it came from. */
  const Marker: string := "__struct_type__"

  // ---------------------------------------------------------------------------
  // Declarations (the input side)
  // ---------------------------------------------------------------------------

  /** Name of an elementary kind (one of the members of the elementary type list). */
  type Kind = string

  /** A default value as written on a dataclass field; floats are kept as their text. */
  datatype Value =
    | NoneValue
    | IntValue(i: int)
    | FloatValue(literal: string)
    | StrValue(s: string)
    | BytesValue(b: seq<bv8>)

  /** One argument after the base type of an `Annotated[...]`. */
  datatype Metadata = IntArg(n: int) | NonIntArg(text: string)

  /**
   * A declared field type. `Class` is a plain class that is neither a dataclass
   * nor one of the builtins `str`, `bytes`, `list`; it is elementary exactly when
   * its name is a key of the registry. `GenericList(args)` is `list[...]`, and
   * `Annotated(base, meta)` is `Annotated[base, *meta]`. `Other` stands for every
   * remaining typing form (unions, dicts, ...).
   */
  datatype DeclaredType =
    | Class(name: Kind)
    | Dataclass(struct: Struct)
    | Annotated(base: DeclaredType, metadata: seq<Metadata>)
    | GenericList(args: seq<DeclaredType>)
    | StrType
    | BytesType
    | ListType
    | Other(text: string)

  /** A dataclass field; `default == None` means no default was declared. */
  datatype Field = Field(name: string, declared: DeclaredType, default: Option<Value>)

  /** A dataclass: its name and its fields in declaration order. */
  datatype Struct = Struct(name: string, fields: seq<Field>)

  // ---------------------------------------------------------------------------
  // The elementary type registry
  // ---------------------------------------------------------------------------

  /** What the registry knows about one elementary kind: pack tag, byte length, Python type. */
  datatype RegistryEntry = RegistryEntry(tag: string, length: int, pyType: string)

  /** The immutable table from elementary kind to its entry. */
  type Registry = map<Kind, RegistryEntry>

  /** The one assumption made about the registry: every pack tag is non-empty. */
  predicate ValidRegistry(reg: Registry)
  {
    forall k | k in reg :: reg[k].tag != ""
  }

  // ---------------------------------------------------------------------------
  // Descriptions (the output side)
  // ---------------------------------------------------------------------------

  datatype ParsingType = ElementaryKind(kind: Kind) | StrKind | BytesKind

  /** One scalar encodable unit (`BasicParsingElement` without its scratch slots). */
  datatype BasicParsingElement = BasicParsingElement(
    parsingType: ParsingType,
    pythonType: string,
    parserTag: string,
    length: int,
    defaultValue: Value)

  /**
   * A value stored in a description: the dataclass recorded under the marker key,
   * a leaf, a Python list of elements, or a nested description.
   */
  datatype Element =
    | StructType(name: string)
    | Basic(leaf: BasicParsingElement)
    | Items(items: seq<Element>)
    | Dict(desc: Description)

  datatype Entry = Entry(key: string, value: Element)

  /** An insertion-ordered dictionary from key to element. */
  datatype Description = Description(entries: seq<Entry>)

  datatype SchemaError =
    | NestedDefault(field: string)
    | AnnotatedArity(field: string)
    | LengthNotInt(field: string)
    | ListArity(field: string)
    | UnsupportedListType(field: string)
    | UnsupportedAnnotatedType(field: string)
    | Unannotated(field: string)
    | UnsupportedType(field: string)

  datatype PatternError = InvalidListType(name: string) | InvalidElementType(name: string)

  // ---------------------------------------------------------------------------
  // Ordered-dictionary assignment and list repetition
  // ---------------------------------------------------------------------------

  /** Position of key `k` in an ordered dictionary, or -1 when it is absent. */
  function Find(es: seq<Entry>, k: string): (r: int)
    ensures -1 <= r < |es|
    ensures r >= 0 ==> es[r].key == k
    ensures r < 0 <==> forall i | 0 <= i < |es| :: es[i].key != k
  {
    if es == [] then -1
    else if es[|es| - 1].key == k then |es| - 1
    else Find(es[..|es| - 1], k)
  }

  /** `d[k] = v` on an ordered dictionary. */
  function Put(es: seq<Entry>, k: string, v: Element): seq<Entry>
  {
    var j := Find(es, k);
    if j < 0 then es + [Entry(k, v)] else es[j := Entry(k, v)]
  }

  /**
   * Assignment appends a new key at the end; an existing key keeps its position
   * and gets the new value, and nothing else changes.
   */
  lemma PutAssigns(es: seq<Entry>, k: string, v: Element)
    ensures (forall i | 0 <= i < |es| :: es[i].key != k) ==> Put(es, k, v) == es + [Entry(k, v)]
    ensures (exists i | 0 <= i < |es| :: es[i].key == k) ==>
      exists j | 0 <= j < |es| :: es[j].key == k && Put(es, k, v) == es[j := Entry(k, v)]
  {
  }

  /** `[x] * n`: `n` copies of `x`, and the empty list when `n` is not positive. */
  function Replicate(x: Element, n: int): (r: seq<Element>)
    ensures |r| == if n < 0 then 0 else n
    ensures forall i | 0 <= i < |r| :: r[i] == x
  {
    seq(if n < 0 then 0 else n, _ => x)
  }

  // ---------------------------------------------------------------------------
  // Decimal text of an integer, as an f-string renders it
  // ---------------------------------------------------------------------------

  function DigitChar(d: nat): char
    requires d < 10
  {
    "0123456789"[d]
  }

  function Digits(n: nat): (s: string)
    ensures s != []
    ensures forall i | 0 <= i < |s| :: '0' <= s[i] <= '9'
  {
    if n < 10 then [DigitChar(n)] else Digits(n / 10) + [DigitChar(n % 10)]
  }

  /** `f"{n}"` for an int: an optional minus sign followed by the decimal digits. */
  function Decimal(n: int): (s: string)
    ensures s != []
  {
    if n < 0 then "-" + Digits(-n) else Digits(n)
  }

  /** Reads a run of decimal digits back, as the struct format reads a repeat count. */
  function ParseDigits(s: string): int
    requires forall i | 0 <= i < |s| :: '0' <= s[i] <= '9'
  {
    if s == [] then 0 else 10 * ParseDigits(s[..|s| - 1]) + (s[|s| - 1] as int - '0' as int)
  }

  lemma {:induction false} DigitsRoundTrip(n: nat)
    ensures ParseDigits(Digits(n)) == n
  {
    var s := Digits(n);
    if n < 10 {
    } else {
      DigitsRoundTrip(n / 10);
      assert s[..|s| - 1] == Digits(n / 10);
    }
  }
}
