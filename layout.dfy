/**
 * The two builders together. `DeclaredTags` reads the pack tags a dataclass
 * declares straight off its field declarations; the main theorem says that
 * building the description and then its pattern gives exactly those tags, one per
 * leaf, in field order, and never an error.
 */
module Layout {
  import opened DescriptorTypes
  import opened Builder
  import opened BuilderProperties
  import opened Pattern

  /**
   * Field names are distinct and none is the marker key, in the dataclass and in
   * every dataclass it reaches through nested or list fields.
   */
  predicate WellNamed(s: Struct)
    decreases s, 1
  {
    && FieldNamesOk(s.fields)
    && forall i | 0 <= i < |s.fields| :: TypeWellNamed(s.fields[i].declared)
  }

  predicate TypeWellNamed(t: DeclaredType)
    decreases t, 0
  {
    match t
    case Dataclass(s) => WellNamed(s)
    case Annotated(base, _) => TypeWellNamed(base)
    case GenericList(args) => forall j | 0 <= j < |args| :: TypeWellNamed(args[j])
    case _ => true
  }

  /** `n` copies of `s` one after another; none when `n` is not positive. */
  function Repeat<T>(s: seq<T>, n: int): seq<T>
  {
    if n <= 0 then [] else Repeat(s, n - 1) + s
  }

  lemma {:induction false} RepeatSingleLength<T>(x: T, n: int)
    ensures |Repeat([x], n)| == if n < 0 then 0 else n
    decreases if n < 0 then 0 else n
  {
    if n > 0 {
      RepeatSingleLength(x, n - 1);
    }
  }

  function RepeatText(t: string, n: int): string
  {
    if n <= 0 then "" else RepeatText(t, n - 1) + t
  }

  // ---------------------------------------------------------------------------
  // The tags a declaration implies
  // ---------------------------------------------------------------------------

  function DeclaredTags(reg: Registry, s: Struct): seq<string>
    decreases s, 1
  {
    FieldsTags(reg, s, |s.fields|)
  }

  function FieldsTags(reg: Registry, s: Struct, n: nat): seq<string>
    requires n <= |s.fields|
    decreases s, 0, n
  {
    if n == 0 then [] else FieldsTags(reg, s, n - 1) + FieldTags(reg, s.fields[n - 1])
  }

  /**
   * The tags one accepted field stands for: its registry tag; `"{n}s"` or `"{n}p"`;
   * the element's tags `n` times over for a list; a nested dataclass's own tags.
   */
  function FieldTags(reg: Registry, f: Field): seq<string>
    decreases f, 0
  {
    match f.declared
    case Class(k) => if k in reg then [reg[k].tag] else []
    case Dataclass(sub) => DeclaredTags(reg, sub)
    case Annotated(base, meta) =>
      if |meta| != 1 || !meta[0].IntArg? then []
      else
        var n := meta[0].n;
        (match base
         case StrType => [Decimal(n) + "s"]
         case BytesType => [Decimal(n) + "p"]
         case GenericList(args) =>
           if |args| != 1 then []
           else
             (match args[0]
              case Class(k) => if k in reg then Repeat([reg[k].tag], n) else []
              case Dataclass(sub) => Repeat(DeclaredTags(reg, sub), n)
              case _ => [])
         case _ => [])
    case _ => []
  }

  // ---------------------------------------------------------------------------
  // Helper facts about repetition and prefixes
  // ---------------------------------------------------------------------------

  lemma {:induction false} ReplicatedLeaves(list: Element, x: Element, m: nat)
    requires list.Items? && m <= |list.items|
    requires forall j | 0 <= j < |list.items| :: list.items[j] == x
    ensures ItemsLeaves(list, m) == Repeat(ElementLeaves(x), m)
  {
    if m > 0 {
      ReplicatedLeaves(list, x, m - 1);
    }
  }

  lemma {:induction false} TagsRepeat(ls: seq<BasicParsingElement>, n: int)
    ensures Tags(Repeat(ls, n)) == Repeat(Tags(ls), n)
    decreases if n < 0 then 0 else n
  {
    if n > 0 {
      TagsRepeat(ls, n - 1);
      TagsAppend(Repeat(ls, n - 1), ls);
    }
  }

  lemma {:induction false} ConcatRepeat(ts: seq<string>, n: int)
    ensures Concat(Repeat(ts, n)) == RepeatText(Concat(ts), n)
    decreases if n < 0 then 0 else n
  {
    if n > 0 {
      ConcatRepeat(ts, n - 1);
      ConcatAppend(Repeat(ts, n - 1), ts);
    }
  }

  // ---------------------------------------------------------------------------
  // Built trees are well formed and carry the declared tags
  // ---------------------------------------------------------------------------

  lemma {:induction false} StructTags(reg: Registry, s: Struct)
    requires WellNamed(s) && Describe(reg, s).Ok?
    ensures WellFormed(Describe(reg, s).value)
    ensures Tags(Leaves(Describe(reg, s).value)) == DeclaredTags(reg, s)
    decreases s, 1
  {
    PrefixTags(reg, s, |s.fields|);
  }

  lemma {:induction false} PrefixTags(reg: Registry, s: Struct, n: nat)
    requires WellNamed(s) && n <= |s.fields| && DescribePrefix(reg, s, n).Ok?
    ensures WellFormed(DescribePrefix(reg, s, n).value)
    ensures Tags(Leaves(DescribePrefix(reg, s, n).value)) == FieldsTags(reg, s, n)
    decreases s, 0, n
  {
    var d := DescribePrefix(reg, s, n).value;
    if n == 0 {
      assert Leaves(d) == EntriesLeaves(d, 0) + ElementLeaves(StructType(s.name));
    } else {
      PrefixAppend(reg, s, n);
      PrefixTags(reg, s, n - 1);
      var prev := DescribePrefix(reg, s, n - 1).value;
      var f := s.fields[n - 1];
      assert f in s.fields;
      var e := Entry(f.name, DescribeField(reg, f).value);
      FieldElementTags(reg, f, e.value);
      WellFormedAppend(prev, e);
      LeavesAppend(prev, e);
      TagsAppend(Leaves(prev), ElementLeaves(e.value));
    }
  }

  lemma {:induction false} FieldElementTags(reg: Registry, f: Field, el: Element)
    requires f.name != Marker && TypeWellNamed(f.declared) && DescribeField(reg, f) == Ok(el)
    ensures WellFormedEntry(Entry(f.name, el))
    ensures Tags(ElementLeaves(el)) == FieldTags(reg, f)
    decreases f, 0
  {
    match f.declared
    case Class(k) =>
      SingleLeafTags(el.leaf);
    case Dataclass(sub) =>
      assert DescribeField(reg, f) == NestedElement(reg, sub, 1);
      StructTags(reg, sub);
    case Annotated(base, meta) =>
      var n := meta[0].n;
      assert DescribeField(reg, f) == DescribeAnnotated(reg, f.name, base, n, DefaultOf(f));
      match base
      case StrType =>
        SingleLeafTags(el.leaf);
      case BytesType =>
        SingleLeafTags(el.leaf);
      case GenericList(args) =>
        assert args[0] in args;
        match args[0]
        case Class(k) =>
          var x := Basic(ElementaryLeaf(reg, k, NoneValue));
          ReplicatedTags(x, n);
          SingleLeafTags(x.leaf);
        case Dataclass(sub) =>
          assert DescribeField(reg, f) == NestedElement(reg, sub, n, false);
          assert TypeWellNamed(args[0]);
          StructTags(reg, sub);
          ReplicatedTags(Dict(Describe(reg, sub).value), n);
  }

  /** The leaf tags of `[x] * n` are those of `x`, `n` times over. */
  lemma ReplicatedTags(x: Element, n: int)
    ensures Tags(ElementLeaves(Items(Replicate(x, n)))) == Repeat(Tags(ElementLeaves(x)), n)
  {
    var el := Items(Replicate(x, n));
    ReplicatedLeaves(el, x, |el.items|);
    TagsRepeat(ElementLeaves(x), |el.items|);
    assert ElementLeaves(el) == ItemsLeaves(el, |el.items|);
    if n <= 0 {
      assert Repeat(Tags(ElementLeaves(x)), n) == [];
    }
  }

  lemma SingleLeafTags(leaf: BasicParsingElement)
    ensures Tags([leaf]) == [leaf.parserTag]
  {
  }

  // ---------------------------------------------------------------------------
  // The main theorem and its corollaries
  // ---------------------------------------------------------------------------

  /**
   * Building a description and then its pattern never reaches the pattern's error
   * branches; the pattern is the declared tags in field order, and the tree has
   * exactly one leaf per tag.
   */
  lemma BuildThenPattern(reg: Registry, s: Struct)
    requires WellNamed(s) && Describe(reg, s).Ok?
    ensures var d := Describe(reg, s).value;
      && WellFormed(d)
      && PatternOf(d) == Ok(Concat(DeclaredTags(reg, s)))
      && Tags(Leaves(d)) == DeclaredTags(reg, s)
      && |Leaves(d)| == |DeclaredTags(reg, s)|
  {
    StructTags(reg, s);
    PatternOfLeaves(Describe(reg, s).value);
  }

  /** A dataclass whose only field is a nested dataclass has exactly the inner pattern. */
  lemma NestedOnlyField(reg: Registry, outer: Struct, inner: Struct, name: string)
    requires outer.fields == [Field(name, Dataclass(inner), None)]
    requires name != Marker && WellNamed(inner) && Describe(reg, inner).Ok?
    ensures Describe(reg, outer).Ok?
    ensures PatternOf(Describe(reg, outer).value) == PatternOf(Describe(reg, inner).value)
  {
    var f := outer.fields[0];
    assert DescribeField(reg, f) == NestedElement(reg, inner, 1);
    PrefixAccepted(reg, outer, |outer.fields|);
    assert WellNamed(outer);
    BuildThenPattern(reg, outer);
    BuildThenPattern(reg, inner);
    assert FieldTags(reg, f) == DeclaredTags(reg, inner);
    assert DeclaredTags(reg, outer) == FieldsTags(reg, outer, 0) + FieldTags(reg, f);
    assert FieldsTags(reg, outer, 0) == [];
    assert DeclaredTags(reg, outer) == DeclaredTags(reg, inner);
  }

  /** `Annotated[list[T], n]` of an elementary `T`: the tag of `T` repeated `n` times. */
  lemma ElementaryListPattern(reg: Registry, s: Struct, name: string, k: Kind, n: int, default: Option<Value>)
    requires s.fields == [Field(name, Annotated(GenericList([Class(k)]), [IntArg(n)]), default)]
    requires name != Marker && k in reg
    ensures Describe(reg, s).Ok?
    ensures PatternOf(Describe(reg, s).value) == Ok(RepeatText(reg[k].tag, n))
    ensures |Leaves(Describe(reg, s).value)| == if n < 0 then 0 else n
  {
    var f := s.fields[0];
    assert DescribeField(reg, f) == DescribeAnnotated(reg, name, GenericList([Class(k)]), n, DefaultOf(f));
    PrefixAccepted(reg, s, |s.fields|);
    assert TypeWellNamed(f.declared) by {
      assert TypeWellNamed(GenericList([Class(k)]));
    }
    assert WellNamed(s);
    BuildThenPattern(reg, s);
    assert FieldTags(reg, f) == Repeat([reg[k].tag], n);
    assert DeclaredTags(reg, s) == FieldsTags(reg, s, 0) + FieldTags(reg, f);
    assert FieldsTags(reg, s, 0) == [];
    assert DeclaredTags(reg, s) == Repeat([reg[k].tag], n);
    ConcatRepeat([reg[k].tag], n);
    RepeatSingleLength(reg[k].tag, n);
    assert Concat([reg[k].tag]) == reg[k].tag by {
      assert [reg[k].tag][..0] == [];
    }
  }

  /** `Annotated[list[D], n]` of a dataclass `D`: the pattern of `D` repeated `n` times. */
  lemma StructListPattern(reg: Registry, s: Struct, name: string, inner: Struct, n: int, default: Option<Value>)
    requires s.fields == [Field(name, Annotated(GenericList([Dataclass(inner)]), [IntArg(n)]), default)]
    requires name != Marker && WellNamed(inner) && Describe(reg, inner).Ok?
    ensures Describe(reg, s).Ok? && PatternOf(Describe(reg, inner).value).Ok?
    ensures PatternOf(Describe(reg, s).value) == Ok(RepeatText(PatternOf(Describe(reg, inner).value).value, n))
  {
    var f := s.fields[0];
    assert DescribeField(reg, f) == DescribeAnnotated(reg, name, GenericList([Dataclass(inner)]), n, DefaultOf(f));
    assert DescribeField(reg, f) == NestedElement(reg, inner, n, false);
    PrefixAccepted(reg, s, |s.fields|);
    assert TypeWellNamed(f.declared) by {
      assert TypeWellNamed(GenericList([Dataclass(inner)]));
    }
    assert WellNamed(s);
    BuildThenPattern(reg, s);
    BuildThenPattern(reg, inner);
    assert FieldTags(reg, f) == Repeat(DeclaredTags(reg, inner), n);
    assert DeclaredTags(reg, s) == FieldsTags(reg, s, 0) + FieldTags(reg, f);
    assert FieldsTags(reg, s, 0) == [];
    assert DeclaredTags(reg, s) == Repeat(DeclaredTags(reg, inner), n);
    ConcatRepeat(DeclaredTags(reg, inner), n);
  }

  // ---------------------------------------------------------------------------
  // Field order, determinism and the size of the pattern
  // ---------------------------------------------------------------------------

  /** One field's share of the pattern. */
  function FieldPattern(reg: Registry, f: Field): string
  {
    Concat(FieldTags(reg, f))
  }

  /** In any dataclass, the share of `Annotated[list[T], n]` of an elementary `T` is `T`'s tag `n` times. */
  lemma ElementaryListShare(reg: Registry, f: Field, k: Kind, n: int)
    requires f.declared == Annotated(GenericList([Class(k)]), [IntArg(n)]) && k in reg
    ensures FieldPattern(reg, f) == RepeatText(reg[k].tag, n)
  {
    assert FieldTags(reg, f) == Repeat([reg[k].tag], n);
    ConcatRepeat([reg[k].tag], n);
    assert Concat([reg[k].tag]) == reg[k].tag by {
      assert [reg[k].tag][..0] == [];
    }
  }

  /** In any dataclass, the share of `Annotated[list[D], n]` of a dataclass `D` is `D`'s pattern `n` times. */
  lemma StructListShare(reg: Registry, f: Field, inner: Struct, n: int)
    requires f.declared == Annotated(GenericList([Dataclass(inner)]), [IntArg(n)])
    requires WellNamed(inner) && Describe(reg, inner).Ok?
    ensures PatternOf(Describe(reg, inner).value).Ok?
    ensures FieldPattern(reg, f) == RepeatText(PatternOf(Describe(reg, inner).value).value, n)
  {
    BuildThenPattern(reg, inner);
    assert FieldTags(reg, f) == Repeat(DeclaredTags(reg, inner), n);
    ConcatRepeat(DeclaredTags(reg, inner), n);
  }

  /** The shares of the first `n` fields, one after another. */
  function FieldPatterns(reg: Registry, s: Struct, n: nat): string
    requires n <= |s.fields|
  {
    if n == 0 then "" else FieldPatterns(reg, s, n - 1) + FieldPattern(reg, s.fields[n - 1])
  }

  lemma {:induction false} FieldsTagsConcat(reg: Registry, s: Struct, n: nat)
    requires n <= |s.fields|
    ensures Concat(FieldsTags(reg, s, n)) == FieldPatterns(reg, s, n)
  {
    if n > 0 {
      FieldsTagsConcat(reg, s, n - 1);
      ConcatAppend(FieldsTags(reg, s, n - 1), FieldTags(reg, s.fields[n - 1]));
    }
  }

  /**
   * The pattern of a dataclass is its fields' shares concatenated in declaration
   * order, and the share of a nested dataclass field is that dataclass's own pattern.
   */
  lemma FieldOrderConcatenation(reg: Registry, s: Struct)
    requires WellNamed(s) && Describe(reg, s).Ok?
    ensures PatternOf(Describe(reg, s).value) == Ok(FieldPatterns(reg, s, |s.fields|))
    ensures forall i | 0 <= i < |s.fields| && s.fields[i].declared.Dataclass? ::
      && Describe(reg, s.fields[i].declared.struct).Ok?
      && PatternOf(Describe(reg, s.fields[i].declared.struct).value) == Ok(FieldPattern(reg, s.fields[i]))
  {
    BuildThenPattern(reg, s);
    FieldsTagsConcat(reg, s, |s.fields|);
    PrefixAccepted(reg, s, |s.fields|);
    forall i | 0 <= i < |s.fields| && s.fields[i].declared.Dataclass?
      ensures Describe(reg, s.fields[i].declared.struct).Ok?
      ensures PatternOf(Describe(reg, s.fields[i].declared.struct).value) == Ok(FieldPattern(reg, s.fields[i]))
    {
      var f := s.fields[i];
      var inner := f.declared.struct;
      assert DescribeField(reg, f).Ok?;
      assert DescribeField(reg, f) == NestedElement(reg, inner, 1);
      assert TypeWellNamed(f.declared);
      BuildThenPattern(reg, inner);
      assert FieldTags(reg, f) == DeclaredTags(reg, inner);
    }
  }

  /**
   * The pattern depends on the field declarations alone: two dataclasses with the
   * same fields build alike and compile to the same pattern, whatever their names.
   */
  lemma SameFieldsSamePattern(reg: Registry, s: Struct, t: Struct)
    requires s.fields == t.fields && WellNamed(s) && Describe(reg, s).Ok?
    ensures Describe(reg, t).Ok?
    ensures PatternOf(Describe(reg, t).value) == PatternOf(Describe(reg, s).value)
  {
    PrefixAccepted(reg, s, |s.fields|);
    PrefixAccepted(reg, t, |t.fields|);
    assert WellNamed(t);
    BuildThenPattern(reg, s);
    BuildThenPattern(reg, t);
    FieldsTagsOfFields(reg, s, t, |s.fields|);
  }

  lemma {:induction false} FieldsTagsOfFields(reg: Registry, s: Struct, t: Struct, n: nat)
    requires s.fields == t.fields && n <= |s.fields|
    ensures FieldsTags(reg, s, n) == FieldsTags(reg, t, n)
  {
    if n > 0 {
      FieldsTagsOfFields(reg, s, t, n - 1);
    }
  }

  predicate NonEmptyTags(ts: seq<string>)
  {
    forall i | 0 <= i < |ts| :: ts[i] != ""
  }

  lemma {:induction false} RepeatNonEmpty(ts: seq<string>, n: int)
    requires NonEmptyTags(ts)
    ensures NonEmptyTags(Repeat(ts, n))
    decreases if n < 0 then 0 else n
  {
    if n > 0 {
      RepeatNonEmpty(ts, n - 1);
    }
  }

  /** With a valid registry no declared tag is empty. */
  lemma {:induction false} StructTagsNonEmpty(reg: Registry, s: Struct)
    requires ValidRegistry(reg)
    ensures NonEmptyTags(DeclaredTags(reg, s))
    decreases s, 1
  {
    FieldsTagsNonEmpty(reg, s, |s.fields|);
  }

  lemma {:induction false} FieldsTagsNonEmpty(reg: Registry, s: Struct, n: nat)
    requires ValidRegistry(reg) && n <= |s.fields|
    ensures NonEmptyTags(FieldsTags(reg, s, n))
    decreases s, 0, n
  {
    if n > 0 {
      FieldsTagsNonEmpty(reg, s, n - 1);
      assert s.fields[n - 1] in s.fields;
      FieldTagsNonEmpty(reg, s.fields[n - 1]);
    }
  }

  lemma {:induction false} FieldTagsNonEmpty(reg: Registry, f: Field)
    requires ValidRegistry(reg)
    ensures NonEmptyTags(FieldTags(reg, f))
    decreases f, 0
  {
    match f.declared
    case Dataclass(sub) =>
      StructTagsNonEmpty(reg, sub);
    case Annotated(base, meta) =>
      if |meta| == 1 && meta[0].IntArg? && base.GenericList? && |base.args| == 1 {
        var n := meta[0].n;
        assert base.args[0] in base.args;
        match base.args[0]
        case Class(k) =>
          if k in reg {
            RepeatNonEmpty([reg[k].tag], n);
          }
        case Dataclass(sub) =>
          StructTagsNonEmpty(reg, sub);
          RepeatNonEmpty(DeclaredTags(reg, sub), n);
        case _ =>
      }
    case _ =>
  }

  /** Non-empty tags give a pattern at least one character per tag long. */
  lemma {:induction false} ConcatLength(ts: seq<string>)
    requires NonEmptyTags(ts)
    ensures |Concat(ts)| >= |ts|
    decreases |ts|
  {
    if ts != [] {
      ConcatLength(ts[..|ts| - 1]);
    }
  }

  /**
   * With a valid registry the pattern has at least one character per leaf, so it is
   * empty exactly when the dataclass has no leaves at all.
   */
  lemma PatternEmptyIffNoLeaves(reg: Registry, s: Struct)
    requires ValidRegistry(reg) && WellNamed(s) && Describe(reg, s).Ok?
    ensures PatternOf(Describe(reg, s).value).Ok?
    ensures |PatternOf(Describe(reg, s).value).value| >= |Leaves(Describe(reg, s).value)|
    ensures PatternOf(Describe(reg, s).value).value == "" <==> Leaves(Describe(reg, s).value) == []
  {
    BuildThenPattern(reg, s);
    StructTagsNonEmpty(reg, s);
    ConcatLength(DeclaredTags(reg, s));
    var leaves := Leaves(Describe(reg, s).value);
    if leaves == [] {
      assert DeclaredTags(reg, s) == [];
    }
  }
}
