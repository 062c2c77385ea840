/**
 * `build_data_description`: the walk over a dataclass's fields that turns each
 * declared field type into a leaf, a list or a nested description, or rejects it.
 *
 * `DescribeField` and `DescribePrefix` are the specification; the method
 * `BuildDataDescription` is the source's loop, proved equal to it.
 */
module Builder {
  import opened DescriptorTypes

  /** The leaf an elementary kind yields: everything comes from the registry entry. */
  function ElementaryLeaf(reg: Registry, k: Kind, default: Value): (leaf: BasicParsingElement)
    requires k in reg
  {
    BasicParsingElement(ElementaryKind(k), reg[k].pyType, reg[k].tag, reg[k].length, default)
  }

  /** The default a leaf carries: Python's `None` when the field declares none. */
  function DefaultOf(f: Field): Value
  {
    match f.default
    case None => NoneValue
    case Some(v) => v
  }

  /** What one field contributes to the description, or why it is rejected. */
  function DescribeField(reg: Registry, f: Field): Result<Element, SchemaError>
    decreases f, 0, 0
  {
    match f.declared
    case Class(k) =>
      if k in reg then Ok(Basic(ElementaryLeaf(reg, k, DefaultOf(f))))
      else Err(UnsupportedType(f.name))
    case Dataclass(s) =>
      if f.default.Some? then Err(NestedDefault(f.name))
      else NestedElement(reg, s, 1)
    case Annotated(base, meta) =>
      if |meta| != 1 then Err(AnnotatedArity(f.name))
      else if !meta[0].IntArg? then Err(LengthNotInt(f.name))
      else DescribeAnnotated(reg, f.name, base, meta[0].n, DefaultOf(f))
    case StrType => Err(Unannotated(f.name))
    case BytesType => Err(Unannotated(f.name))
    case ListType => Err(Unannotated(f.name))
    case GenericList(_) => Err(UnsupportedType(f.name))
    case Other(_) => Err(UnsupportedType(f.name))
  }

  /**
   * The description of a nested dataclass: the whole description for a field of
   * that type (`copies == 1` with `single`), or `[description] * copies` for a list.
   */
  function NestedElement(reg: Registry, s: Struct, copies: int, single: bool := true): Result<Element, SchemaError>
    decreases s, 2, 0
  {
    match Describe(reg, s)
    case Ok(d) => Ok(if single then Dict(d) else Items(Replicate(Dict(d), copies)))
    case Err(e) => Err(e)
  }

  /** `Annotated[base, n]` with an int `n`, for the field named `name`. */
  function DescribeAnnotated(reg: Registry, name: string, base: DeclaredType, n: int, default: Value)
    : Result<Element, SchemaError>
    decreases base, 0, 0
  {
    match base
    case StrType =>
      Ok(Basic(BasicParsingElement(StrKind, "str", Decimal(n) + "s", n, default)))
    case BytesType =>
      Ok(Basic(BasicParsingElement(BytesKind, "bytes", Decimal(n) + "p", n, default)))
    case GenericList(args) =>
      if |args| != 1 then Err(ListArity(name))
      else
        (match args[0]
         case Class(k) =>
           if k in reg then Ok(Items(Replicate(Basic(ElementaryLeaf(reg, k, NoneValue)), n)))
           else Err(UnsupportedListType(name))
         case Dataclass(s) => NestedElement(reg, s, n, false)
         case _ => Err(UnsupportedListType(name)))
    case _ => Err(UnsupportedAnnotatedType(name))
  }

  /**
   * The description after the first `n` fields: the marker entry, then each field
   * assigned under its name; the first failing field's error otherwise.
   */
  function DescribePrefix(reg: Registry, s: Struct, n: nat): Result<Description, SchemaError>
    requires n <= |s.fields|
    decreases s, 0, n
  {
    if n == 0 then Ok(Description([Entry(Marker, StructType(s.name))]))
    else
      match DescribePrefix(reg, s, n - 1)
      case Err(e) => Err(e)
      case Ok(d) =>
        var f := s.fields[n - 1];
        match DescribeField(reg, f)
        case Err(e) => Err(e)
        case Ok(el) => Ok(Description(Put(d.entries, f.name, el)))
  }

  function Describe(reg: Registry, s: Struct): Result<Description, SchemaError>
    decreases s, 1, 0
  {
    DescribePrefix(reg, s, |s.fields|)
  }

  /** Once a field has failed, no later field changes the outcome. */
  lemma {:induction false} ErrorPersists(reg: Registry, s: Struct, i: nat, n: nat)
    requires i <= n <= |s.fields|
    requires DescribePrefix(reg, s, i).Err?
    ensures DescribePrefix(reg, s, n) == DescribePrefix(reg, s, i)
    decreases n
  {
    if n > i {
      ErrorPersists(reg, s, i, n - 1);
    }
  }

  /** The body of the source's loop for one field: the element it assigns, or the error it raises. */
  method BuildFieldElement(reg: Registry, f: Field) returns (res: Result<Element, SchemaError>)
    ensures res == DescribeField(reg, f)
    decreases f, 0
  {
    match f.declared {
      case Class(k) =>
        if k in reg {
          res := Ok(Basic(ElementaryLeaf(reg, k, DefaultOf(f))));
        } else {
          res := Err(UnsupportedType(f.name));
        }
      case Dataclass(sub) =>
        if f.default.Some? {
          res := Err(NestedDefault(f.name));
        } else {
          var nested := BuildDataDescription(reg, sub);
          res := if nested.Err? then Err(nested.error) else Ok(Dict(nested.value));
          assert res == NestedElement(reg, sub, 1);
        }
      case Annotated(base, meta) =>
        if |meta| != 1 {
          res := Err(AnnotatedArity(f.name));
        } else if !meta[0].IntArg? {
          res := Err(LengthNotInt(f.name));
        } else {
          var n := meta[0].n;
          if base.StrType? {
            res := Ok(Basic(BasicParsingElement(StrKind, "str", Decimal(n) + "s", n, DefaultOf(f))));
          } else if base.BytesType? {
            res := Ok(Basic(BasicParsingElement(BytesKind, "bytes", Decimal(n) + "p", n, DefaultOf(f))));
          } else if base.GenericList? {
            if |base.args| != 1 {
              res := Err(ListArity(f.name));
            } else {
              var t := base.args[0];
              if t.Class? && t.name in reg {
                res := Ok(Items(Replicate(Basic(ElementaryLeaf(reg, t.name, NoneValue)), n)));
              } else if t.Dataclass? {
                var nested := BuildDataDescription(reg, t.struct);
                res := if nested.Err? then Err(nested.error) else Ok(Items(Replicate(Dict(nested.value), n)));
                assert res == NestedElement(reg, t.struct, n, false);
              } else {
                res := Err(UnsupportedListType(f.name));
              }
            }
          } else {
            res := Err(UnsupportedAnnotatedType(f.name));
          }
        }
      case StrType =>
        res := Err(Unannotated(f.name));
      case BytesType =>
        res := Err(Unannotated(f.name));
      case ListType =>
        res := Err(Unannotated(f.name));
      case GenericList(_) =>
        res := Err(UnsupportedType(f.name));
      case Other(_) =>
        res := Err(UnsupportedType(f.name));
    }
  }

  /** A field that fails after a successful prefix decides the whole build. */
  lemma FailureAt(reg: Registry, s: Struct, i: nat, e: SchemaError)
    requires i < |s.fields| && DescribePrefix(reg, s, i).Ok?
    requires DescribeField(reg, s.fields[i]) == Err(e)
    ensures Describe(reg, s) == Err(e)
  {
    ErrorPersists(reg, s, i + 1, |s.fields|);
  }

  /** A field that succeeds after a successful prefix is assigned under its name. */
  lemma SuccessAt(reg: Registry, s: Struct, i: nat, el: Element)
    requires i < |s.fields| && DescribePrefix(reg, s, i).Ok?
    requires DescribeField(reg, s.fields[i]) == Ok(el)
    ensures DescribePrefix(reg, s, i + 1) ==
      Ok(Description(Put(DescribePrefix(reg, s, i).value.entries, s.fields[i].name, el)))
  {
  }

  /** The source's loop: fill an ordered dictionary field by field, raising on the first bad one. */
  method BuildDataDescription(reg: Registry, s: Struct) returns (r: Result<Description, SchemaError>)
    ensures r == Describe(reg, s)
    decreases s, 1
  {
    var entries := [Entry(Marker, StructType(s.name))];
    var i := 0;
    while i < |s.fields|
      invariant 0 <= i <= |s.fields|
      invariant DescribePrefix(reg, s, i) == Ok(Description(entries))
    {
      var f := s.fields[i];
      assert f in s.fields;
      var res := BuildFieldElement(reg, f);
      if res.Err? {
        FailureAt(reg, s, i, res.error);
        return Err(res.error);
      }
      SuccessAt(reg, s, i, res.value);
      entries := Put(entries, f.name, res.value);
      i := i + 1;
    }
    r := Ok(Description(entries));
  }
}
