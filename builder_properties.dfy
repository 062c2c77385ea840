/**
 * What `build_data_description` promises: the marker comes first and every field
 * follows under its own name in declaration order; each kind of field yields the
 * element the registry or its annotation dictates; the build is all-or-nothing,
 * and it fails exactly on the malformed declarations.
 */
module BuilderProperties {
  import opened DescriptorTypes
  import opened Builder

  /** Field names of one dataclass are distinct and none is the marker key. */
  predicate FieldNamesOk(fields: seq<Field>)
  {
    && (forall i, j | 0 <= i < j < |fields| :: fields[i].name != fields[j].name)
    && (forall i | 0 <= i < |fields| :: fields[i].name != Marker)
  }

  // ---------------------------------------------------------------------------
  // Layout: marker first, then one entry per field in declaration order
  // ---------------------------------------------------------------------------

  lemma {:induction false} PrefixLayout(reg: Registry, s: Struct, n: nat)
    requires n <= |s.fields| && FieldNamesOk(s.fields)
    requires DescribePrefix(reg, s, n).Ok?
    ensures var d := DescribePrefix(reg, s, n).value;
      && |d.entries| == n + 1
      && d.entries[0] == Entry(Marker, StructType(s.name))
      && forall i | 0 <= i < n ::
           d.entries[i + 1].key == s.fields[i].name
           && DescribeField(reg, s.fields[i]) == Ok(d.entries[i + 1].value)
    decreases n, 1
  {
    if n > 0 {
      PrefixAppend(reg, s, n);
      PrefixLayout(reg, s, n - 1);
      var prev := DescribePrefix(reg, s, n - 1).value;
      var d := DescribePrefix(reg, s, n).value;
      forall i | 0 <= i < n
        ensures d.entries[i + 1].key == s.fields[i].name
        ensures DescribeField(reg, s.fields[i]) == Ok(d.entries[i + 1].value)
      {
        if i < n - 1 {
          assert d.entries[i + 1] == prev.entries[i + 1];
        }
      }
    }
  }

  /** The keys of a successful prefix: the marker, then the field names in order. */
  lemma {:induction false} PrefixKeys(reg: Registry, s: Struct, n: nat)
    requires n <= |s.fields| && FieldNamesOk(s.fields)
    requires DescribePrefix(reg, s, n).Ok?
    ensures var d := DescribePrefix(reg, s, n).value;
      && |d.entries| == n + 1
      && d.entries[0] == Entry(Marker, StructType(s.name))
      && forall i | 0 <= i < n :: d.entries[i + 1].key == s.fields[i].name
    decreases n, 1
  {
    if n > 0 {
      PrefixAppend(reg, s, n);
      PrefixKeys(reg, s, n - 1);
    }
  }

  /**
   * With distinct field names that are not the marker, each accepted field is
   * appended at the end: assignment never meets an existing key.
   */
  lemma {:induction false} PrefixAppend(reg: Registry, s: Struct, n: nat)
    requires 0 < n <= |s.fields| && FieldNamesOk(s.fields)
    requires DescribePrefix(reg, s, n).Ok?
    ensures DescribePrefix(reg, s, n - 1).Ok? && DescribeField(reg, s.fields[n - 1]).Ok?
    ensures DescribePrefix(reg, s, n).value.entries ==
      DescribePrefix(reg, s, n - 1).value.entries + [Entry(s.fields[n - 1].name, DescribeField(reg, s.fields[n - 1]).value)]
    decreases n, 0
  {
    PrefixKeys(reg, s, n - 1);
    var prev := DescribePrefix(reg, s, n - 1).value;
    var f := s.fields[n - 1];
    NameIsNew(prev.entries, s.fields, n - 1);
    SuccessAt(reg, s, n - 1, DescribeField(reg, f).value);
    PutAssigns(prev.entries, f.name, DescribeField(reg, f).value);
  }

  /** Keys laid out as the marker and the first `n` names do not hold field `n`'s name. */
  lemma NameIsNew(es: seq<Entry>, fields: seq<Field>, n: nat)
    requires n < |fields| && FieldNamesOk(fields)
    requires |es| == n + 1 && es[0].key == Marker
    requires forall i | 0 <= i < n :: es[i + 1].key == fields[i].name
    ensures forall i | 0 <= i < |es| :: es[i].key != fields[n].name
  {
    forall i | 0 <= i < |es| ensures es[i].key != fields[n].name {
      if i > 0 {
        assert es[i].key == fields[i - 1].name;
      }
    }
  }

  /**
   * A successful build holds the marker first and then every field, under its own
   * name and in declaration order, with the element that field describes to.
   */
  lemma DescribeLayout(reg: Registry, s: Struct)
    requires FieldNamesOk(s.fields) && Describe(reg, s).Ok?
    ensures var d := Describe(reg, s).value;
      && |d.entries| == |s.fields| + 1
      && d.entries[0] == Entry(Marker, StructType(s.name))
      && forall i | 0 <= i < |s.fields| ::
           d.entries[i + 1].key == s.fields[i].name
           && DescribeField(reg, s.fields[i]) == Ok(d.entries[i + 1].value)
  {
    PrefixLayout(reg, s, |s.fields|);
  }

  // ---------------------------------------------------------------------------
  // All-or-nothing
  // ---------------------------------------------------------------------------

  /** The first `n` fields are all accepted (stated field by field, without a quantifier). */
  predicate AcceptedUpTo(reg: Registry, s: Struct, n: nat)
    requires n <= |s.fields|
  {
    n == 0 || (AcceptedUpTo(reg, s, n - 1) && DescribeField(reg, s.fields[n - 1]).Ok?)
  }

  lemma {:induction false} AcceptedUpToIff(reg: Registry, s: Struct, n: nat)
    requires n <= |s.fields|
    ensures AcceptedUpTo(reg, s, n) <==> forall i | 0 <= i < n :: DescribeField(reg, s.fields[i]).Ok?
  {
    if n > 0 {
      AcceptedUpToIff(reg, s, n - 1);
    }
  }

  lemma {:induction false} PrefixAcceptedUpTo(reg: Registry, s: Struct, n: nat)
    requires n <= |s.fields|
    ensures DescribePrefix(reg, s, n).Ok? <==> AcceptedUpTo(reg, s, n)
  {
    if n > 0 {
      PrefixAcceptedUpTo(reg, s, n - 1);
    }
  }

  /** The first `n` fields build exactly when each of them is accepted. */
  lemma PrefixAccepted(reg: Registry, s: Struct, n: nat)
    requires n <= |s.fields|
    ensures DescribePrefix(reg, s, n).Ok? <==> forall i | 0 <= i < n :: DescribeField(reg, s.fields[i]).Ok?
  {
    PrefixAcceptedUpTo(reg, s, n);
    AcceptedUpToIff(reg, s, n);
  }

  lemma {:induction false} PrefixFirstError(reg: Registry, s: Struct, n: nat)
    requires n <= |s.fields| && DescribePrefix(reg, s, n).Err?
    ensures exists i | 0 <= i < n ::
      AcceptedUpTo(reg, s, i) && DescribeField(reg, s.fields[i]) == Err(DescribePrefix(reg, s, n).error)
  {
    if DescribePrefix(reg, s, n - 1).Err? {
      PrefixFirstError(reg, s, n - 1);
      assert DescribePrefix(reg, s, n) == DescribePrefix(reg, s, n - 1);
    } else {
      PrefixAcceptedUpTo(reg, s, n - 1);
      assert DescribeField(reg, s.fields[n - 1]) == Err(DescribePrefix(reg, s, n).error);
    }
  }

  /**
   * The build succeeds exactly when every field describes successfully; when it
   * fails, its error is that of the first failing field and no description is returned.
   */
  lemma FirstFailure(reg: Registry, s: Struct)
    ensures Describe(reg, s).Ok? <==> forall i | 0 <= i < |s.fields| :: DescribeField(reg, s.fields[i]).Ok?
    ensures Describe(reg, s).Err? ==>
      exists i | 0 <= i < |s.fields| ::
        && (forall j | 0 <= j < i :: DescribeField(reg, s.fields[j]).Ok?)
        && DescribeField(reg, s.fields[i]) == Err(Describe(reg, s).error)
  {
    PrefixAccepted(reg, s, |s.fields|);
    if Describe(reg, s).Err? {
      PrefixFirstError(reg, s, |s.fields|);
      var i :| 0 <= i < |s.fields| &&
        AcceptedUpTo(reg, s, i) && DescribeField(reg, s.fields[i]) == Err(Describe(reg, s).error);
      AcceptedUpToIff(reg, s, i);
    }
  }

  // ---------------------------------------------------------------------------
  // Which declarations are accepted: an independent classification
  // ---------------------------------------------------------------------------

  /** Every field of the dataclass, and of every dataclass it nests, is well declared. */
  predicate Schemable(reg: Registry, s: Struct)
    decreases s, 1
  {
    forall i | 0 <= i < |s.fields| :: FieldSchemable(reg, s.fields[i])
  }

  /**
   * A well-declared field: an elementary kind; a dataclass without a default; or
   * `Annotated` with exactly one int argument over `str`, `bytes`, or a one-argument
   * list of an elementary kind or a dataclass.
   */
  predicate FieldSchemable(reg: Registry, f: Field)
    decreases f, 0
  {
    match f.declared
    case Class(k) => k in reg
    case Dataclass(sub) => f.default.None? && Schemable(reg, sub)
    case Annotated(base, meta) =>
      && |meta| == 1 && meta[0].IntArg?
      && (|| base.StrType? || base.BytesType?
          || (&& base.GenericList? && |base.args| == 1
              && match base.args[0]
                 case Class(k) => k in reg
                 case Dataclass(sub) => Schemable(reg, sub)
                 case _ => false))
    case _ => false
  }

  lemma {:induction false} StructSchemable(reg: Registry, s: Struct)
    ensures Describe(reg, s).Ok? <==> Schemable(reg, s)
    decreases s, 1
  {
    PrefixAccepted(reg, s, |s.fields|);
    forall i | 0 <= i < |s.fields|
      ensures DescribeField(reg, s.fields[i]).Ok? <==> FieldSchemable(reg, s.fields[i])
    {
      assert s.fields[i] in s.fields;
      FieldSchemableIff(reg, s.fields[i]);
    }
  }

  /** A field describes successfully exactly when it is well declared. */
  lemma {:induction false} FieldSchemableIff(reg: Registry, f: Field)
    ensures DescribeField(reg, f).Ok? <==> FieldSchemable(reg, f)
    decreases f, 0
  {
    match f.declared
    case Dataclass(sub) =>
      StructSchemable(reg, sub);
    case Annotated(base, meta) =>
      if |meta| == 1 && meta[0].IntArg? {
        assert DescribeField(reg, f) == DescribeAnnotated(reg, f.name, base, meta[0].n, DefaultOf(f));
        if base.GenericList? && |base.args| == 1 && base.args[0].Dataclass? {
          StructSchemable(reg, base.args[0].struct);
          assert DescribeField(reg, f) == NestedElement(reg, base.args[0].struct, meta[0].n, false);
        }
      }
    case _ =>
  }

  // ---------------------------------------------------------------------------
  // Rejections
  // ---------------------------------------------------------------------------

  /**
   * Each malformed form of a field is rejected with the error of that form, naming
   * the field; a failure inside a nested dataclass is passed on unchanged.
   */
  lemma FieldRejections(reg: Registry, f: Field)
    ensures var t := f.declared; var r := DescribeField(reg, f);
      && (t.Dataclass? && f.default.Some? ==> r == Err(NestedDefault(f.name)))
      && (t.Dataclass? && f.default.None? && Describe(reg, t.struct).Err? ==>
            r == Err(Describe(reg, t.struct).error))
      && (t.Annotated? && |t.metadata| != 1 ==> r == Err(AnnotatedArity(f.name)))
      && (t.Annotated? && |t.metadata| == 1 && t.metadata[0].NonIntArg? ==> r == Err(LengthNotInt(f.name)))
      && (t.Annotated? && |t.metadata| == 1 && t.metadata[0].IntArg? ==>
            var b := t.base;
            && (b.GenericList? && |b.args| != 1 ==> r == Err(ListArity(f.name)))
            && ((b.GenericList? && |b.args| == 1 && !(b.args[0].Class? && b.args[0].name in reg)
                 && !b.args[0].Dataclass?) ==> r == Err(UnsupportedListType(f.name)))
            && ((b.GenericList? && |b.args| == 1 && b.args[0].Dataclass?
                 && Describe(reg, b.args[0].struct).Err?) ==> r == Err(Describe(reg, b.args[0].struct).error))
            && (!b.StrType? && !b.BytesType? && !b.GenericList? ==> r == Err(UnsupportedAnnotatedType(f.name))))
      && (t.StrType? || t.BytesType? || t.ListType? ==> r == Err(Unannotated(f.name)))
      && (t.Other? || t.GenericList? || (t.Class? && t.name !in reg) ==> r == Err(UnsupportedType(f.name)))
  {
    match f.declared
    case Annotated(base, meta) =>
      if |meta| == 1 && meta[0].IntArg? {
        assert DescribeField(reg, f) == DescribeAnnotated(reg, f.name, base, meta[0].n, DefaultOf(f));
        if base.GenericList? && |base.args| == 1 && base.args[0].Dataclass? {
          assert DescribeField(reg, f) == NestedElement(reg, base.args[0].struct, meta[0].n, false);
        }
      }
    case _ =>
  }

  /**
   * Once the fields before field `i` are accepted, a failing field `i` decides the
   * outcome: the whole build fails with its error and returns no description.
   */
  lemma FailingFieldDecides(reg: Registry, s: Struct, i: nat)
    requires i < |s.fields|
    requires forall j | 0 <= j < i :: DescribeField(reg, s.fields[j]).Ok?
    requires DescribeField(reg, s.fields[i]).Err?
    ensures Describe(reg, s) == Err(DescribeField(reg, s.fields[i]).error)
  {
    PrefixAccepted(reg, s, i);
    FailureAt(reg, s, i, DescribeField(reg, s.fields[i]).error);
  }

  // ---------------------------------------------------------------------------
  // The element each kind of field yields
  // ---------------------------------------------------------------------------

  /**
   * An elementary field yields a leaf whose kind, Python type, tag and length are
   * the registry's, carrying the declared default or `None`.
   */
  lemma ElementaryFieldEntry(reg: Registry, s: Struct, i: nat)
    requires FieldNamesOk(s.fields) && Describe(reg, s).Ok?
    requires i < |s.fields| && s.fields[i].declared.Class?
    ensures |Describe(reg, s).value.entries| == |s.fields| + 1
    ensures var f := s.fields[i]; var k := f.declared.name; var e := Describe(reg, s).value.entries[i + 1];
      && k in reg
      && e.key == f.name
      && e.value.Basic?
      && e.value.leaf.parsingType == ElementaryKind(k)
      && e.value.leaf.pythonType == reg[k].pyType
      && e.value.leaf.parserTag == reg[k].tag
      && e.value.leaf.length == reg[k].length
      && e.value.leaf.defaultValue == (if f.default.None? then NoneValue else f.default.value)
  {
    DescribeLayout(reg, s);
  }

  /**
   * `Annotated[str, n]` yields a leaf tagged `"{n}s"` of length `n`, `Annotated[bytes, n]`
   * one tagged `"{n}p"`; both carry the declared default, and the tag's count reads back as `n`.
   */
  lemma TextFieldEntry(reg: Registry, s: Struct, i: nat)
    requires FieldNamesOk(s.fields) && Describe(reg, s).Ok?
    requires i < |s.fields| && s.fields[i].declared.Annotated?
    requires s.fields[i].declared.base.StrType? || s.fields[i].declared.base.BytesType?
    ensures |Describe(reg, s).value.entries| == |s.fields| + 1
    ensures var f := s.fields[i]; var t := f.declared; var e := Describe(reg, s).value.entries[i + 1];
      && |t.metadata| == 1 && t.metadata[0].IntArg?
      && var n := t.metadata[0].n;
         && e.key == f.name
         && e.value.Basic?
         && e.value.leaf.length == n
         && e.value.leaf.parserTag == Decimal(n) + (if t.base.StrType? then "s" else "p")
         && e.value.leaf.parsingType == (if t.base.StrType? then StrKind else BytesKind)
         && e.value.leaf.pythonType == (if t.base.StrType? then "str" else "bytes")
         && e.value.leaf.defaultValue == (if f.default.None? then NoneValue else f.default.value)
         && (n >= 0 ==> ParseDigits(e.value.leaf.parserTag[..|e.value.leaf.parserTag| - 1]) == n)
  {
    DescribeLayout(reg, s);
    var f := s.fields[i];
    var t := f.declared;
    assert DescribeField(reg, f).Ok?;
    var n := t.metadata[0].n;
    assert DescribeField(reg, f) == DescribeAnnotated(reg, f.name, t.base, n, DefaultOf(f));
    if n >= 0 {
      DigitsRoundTrip(n);
      var tag := Describe(reg, s).value.entries[i + 1].value.leaf.parserTag;
      assert tag[..|tag| - 1] == Digits(n);
    }
  }

  /**
   * `Annotated[list[T], n]` yields a list of `n` elements (none when `n` is not
   * positive): each a registry leaf without default when `T` is elementary, each
   * the description of `T` when `T` is a dataclass.
   */
  lemma ListFieldEntry(reg: Registry, s: Struct, i: nat)
    requires FieldNamesOk(s.fields) && Describe(reg, s).Ok?
    requires i < |s.fields| && s.fields[i].declared.Annotated? && s.fields[i].declared.base.GenericList?
    ensures |Describe(reg, s).value.entries| == |s.fields| + 1
    ensures var f := s.fields[i]; var t := f.declared; var e := Describe(reg, s).value.entries[i + 1];
      && |t.metadata| == 1 && t.metadata[0].IntArg? && |t.base.args| == 1
      && var n := t.metadata[0].n; var elem := t.base.args[0];
         && e.key == f.name
         && e.value.Items?
         && |e.value.items| == (if n < 0 then 0 else n)
         && (elem.Class? || elem.Dataclass?)
         && (elem.Class? ==>
               && elem.name in reg
               && forall j | 0 <= j < |e.value.items| ::
                    && e.value.items[j].Basic?
                    && e.value.items[j].leaf.parsingType == ElementaryKind(elem.name)
                    && e.value.items[j].leaf.pythonType == reg[elem.name].pyType
                    && e.value.items[j].leaf.parserTag == reg[elem.name].tag
                    && e.value.items[j].leaf.length == reg[elem.name].length
                    && e.value.items[j].leaf.defaultValue == NoneValue)
         && (elem.Dataclass? ==>
               && Describe(reg, elem.struct).Ok?
               && forall j | 0 <= j < |e.value.items| :: e.value.items[j] == Dict(Describe(reg, elem.struct).value))
  {
    DescribeLayout(reg, s);
    var f := s.fields[i];
    var t := f.declared;
    assert DescribeField(reg, f).Ok?;
    var n := t.metadata[0].n;
    assert DescribeField(reg, f) == DescribeAnnotated(reg, f.name, t.base, n, DefaultOf(f));
    if t.base.args[0].Dataclass? {
      assert DescribeField(reg, f) == NestedElement(reg, t.base.args[0].struct, n, false);
    }
  }

  /** A nested dataclass field declares no default and yields that dataclass's own description. */
  lemma NestedFieldEntry(reg: Registry, s: Struct, i: nat)
    requires FieldNamesOk(s.fields) && Describe(reg, s).Ok?
    requires i < |s.fields| && s.fields[i].declared.Dataclass?
    ensures |Describe(reg, s).value.entries| == |s.fields| + 1
    ensures var f := s.fields[i]; var e := Describe(reg, s).value.entries[i + 1];
      && f.default.None?
      && Describe(reg, f.declared.struct).Ok?
      && e.key == f.name
      && e.value == Dict(Describe(reg, f.declared.struct).value)
  {
    DescribeLayout(reg, s);
    var f := s.fields[i];
    assert DescribeField(reg, f).Ok?;
    assert DescribeField(reg, f) == NestedElement(reg, f.declared.struct, 1);
  }
}
