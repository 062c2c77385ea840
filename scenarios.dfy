/**
 * Concrete dataclasses run through both builders, over any registry that gives
 * three elementary kinds their struct-module tags.
 */
module Scenarios {
  import opened DescriptorTypes
  import opened Builder
  import opened BuilderProperties
  import opened Pattern
  import opened Layout

  /** The registry gives `uint8`, `uint32` and `float32` their struct-module tags. */
  predicate SampleRegistry(reg: Registry)
  {
    && "uint8" in reg && reg["uint8"].tag == "B"
    && "uint32" in reg && reg["uint32"].tag == "I"
    && "float32" in reg && reg["float32"].tag == "f"
  }

  /** `a: uint32`, `b: Annotated[str, 4]`, `c: Annotated[list[uint8], 3]`. */
  function Sample(): Struct
  {
    Struct("Sample", [
      Field("a", Class("uint32"), None),
      Field("b", Annotated(StrType, [IntArg(4)]), None),
      Field("c", Annotated(GenericList([Class("uint8")]), [IntArg(3)]), None)
    ])
  }

  function Point(): Struct
  {
    Struct("Point", [Field("x", Class("float32"), None), Field("y", Class("float32"), None)])
  }

  /** A dataclass whose only field is a `Point`. */
  function Wrapper(): Struct
  {
    Struct("Wrapper", [Field("inner", Dataclass(Point()), None)])
  }

  /** `points: Annotated[list[Point], 2]`. */
  function Path(): Struct
  {
    Struct("Path", [Field("points", Annotated(GenericList([Dataclass(Point())]), [IntArg(2)]), None)])
  }

  lemma SamplePattern(reg: Registry)
    requires SampleRegistry(reg)
    ensures Describe(reg, Sample()).Ok?
    ensures PatternOf(Describe(reg, Sample()).value) == Ok("I4sBBB")
    ensures |Leaves(Describe(reg, Sample()).value)| == 5
  {
    SampleBuilds(reg);
    SampleTags(reg);
    SampleConcat();
    BuildThenPattern(reg, Sample());
  }

  lemma SampleConcat()
    ensures Concat(["I", "4s", "B", "B", "B"]) == "I4sBBB"
  {
    assert Concat(["I", "4s", "B", "B", "B"]) == "I4sBBB" by {
      SingleTag("I");
      ConcatSnoc(["I"], "4s");
      assert ["I"] + ["4s"] == ["I", "4s"];
      ConcatSnoc(["I", "4s"], "B");
      assert ["I", "4s"] + ["B"] == ["I", "4s", "B"];
      ConcatSnoc(["I", "4s", "B"], "B");
      assert ["I", "4s", "B"] + ["B"] == ["I", "4s", "B", "B"];
      ConcatSnoc(["I", "4s", "B", "B"], "B");
      assert ["I", "4s", "B", "B"] + ["B"] == ["I", "4s", "B", "B", "B"];
    }
  }

  lemma SampleBuilds(reg: Registry)
    requires SampleRegistry(reg)
    ensures Describe(reg, Sample()).Ok? && WellNamed(Sample())
  {
    var s := Sample();
    assert DescribeField(reg, s.fields[0]).Ok?;
    assert DescribeField(reg, s.fields[1]) == DescribeAnnotated(reg, "b", StrType, 4, NoneValue);
    assert DescribeField(reg, s.fields[2]) ==
      DescribeAnnotated(reg, "c", GenericList([Class("uint8")]), 3, NoneValue);
    assert AcceptedUpTo(reg, s, 1);
    assert AcceptedUpTo(reg, s, 2);
    assert AcceptedUpTo(reg, s, 3);
    PrefixAcceptedUpTo(reg, s, 3);
    assert TypeWellNamed(s.fields[2].declared) by {
      assert TypeWellNamed(GenericList([Class("uint8")]));
    }
  }

  lemma SampleTags(reg: Registry)
    requires SampleRegistry(reg)
    ensures DeclaredTags(reg, Sample()) == ["I", "4s", "B", "B", "B"]
  {
    var s := Sample();
    assert DigitChar(4) == '4';
    assert Decimal(4) == "4";
    assert Decimal(4) + "s" == "4s";
    assert FieldTags(reg, s.fields[0]) == ["I"];
    assert FieldTags(reg, s.fields[1]) == ["4s"];
    assert FieldTags(reg, s.fields[2]) == Repeat(["B"], 3) == ["B", "B", "B"];
    assert FieldsTags(reg, s, 1) == ["I"];
    assert FieldsTags(reg, s, 2) == ["I", "4s"];
    assert FieldsTags(reg, s, 3) == ["I", "4s", "B", "B", "B"];
  }

  lemma ConcatSnoc(ts: seq<string>, t: string)
    ensures Concat(ts + [t]) == Concat(ts) + t
  {
    assert (ts + [t])[..|ts|] == ts;
  }

  lemma SingleTag(t: string)
    ensures Concat([t]) == t
  {
    assert [t][..0] == [];
  }

  lemma PointPattern(reg: Registry)
    requires SampleRegistry(reg)
    ensures Describe(reg, Point()).Ok?
    ensures PatternOf(Describe(reg, Point()).value) == Ok("ff")
  {
    PointBuilds(reg);
    PointTags(reg);
    BuildThenPattern(reg, Point());
    assert Concat(["f", "f"]) == "ff" by {
      SingleTag("f");
      ConcatSnoc(["f"], "f");
      assert ["f"] + ["f"] == ["f", "f"];
    }
  }

  lemma PointBuilds(reg: Registry)
    requires SampleRegistry(reg)
    ensures Describe(reg, Point()).Ok? && WellNamed(Point())
  {
    var s := Point();
    assert AcceptedUpTo(reg, s, 2);
    PrefixAcceptedUpTo(reg, s, 2);
  }

  lemma PointTags(reg: Registry)
    requires SampleRegistry(reg)
    ensures DeclaredTags(reg, Point()) == ["f", "f"]
  {
    var s := Point();
    assert FieldsTags(reg, s, 1) == ["f"];
    assert FieldsTags(reg, s, 2) == ["f", "f"];
  }

  /** A nested `Point` contributes its own pattern verbatim. */
  lemma WrapperPattern(reg: Registry)
    requires SampleRegistry(reg)
    ensures Describe(reg, Wrapper()).Ok?
    ensures PatternOf(Describe(reg, Wrapper()).value) == Ok("ff")
  {
    PointBuilds(reg);
    PointPattern(reg);
    NestedOnlyField(reg, Wrapper(), Point(), "inner");
  }

  /** Two `Point`s in a list: the pattern of `Point` twice. */
  lemma PathPattern(reg: Registry)
    requires SampleRegistry(reg)
    ensures Describe(reg, Path()).Ok?
    ensures PatternOf(Describe(reg, Path()).value) == Ok("ffff")
  {
    PointBuilds(reg);
    PointPattern(reg);
    StructListPattern(reg, Path(), "points", Point(), 2, None);
    assert RepeatText("ff", 2) == "ffff";
  }

  /** A field literally named `__struct_type__`. */
  function Shadowing(): Struct
  {
    Struct("Shadowing", [Field(Marker, Class("uint8"), None)])
  }

  /**
   * A field named like the marker key overwrites the marker in place, and the pattern
   * then skips it: the description holds one leaf while the pattern has no tag for it.
   */
  lemma MarkerFieldIsSkipped(reg: Registry)
    requires SampleRegistry(reg)
    ensures Describe(reg, Shadowing()).Ok?
    ensures Describe(reg, Shadowing()).value.entries ==
      [Entry(Marker, Basic(ElementaryLeaf(reg, "uint8", NoneValue)))]
    ensures PatternOf(Describe(reg, Shadowing()).value) == Ok("")
    ensures |Leaves(Describe(reg, Shadowing()).value)| == 1
  {
    var s := Shadowing();
    var leaf := ElementaryLeaf(reg, "uint8", NoneValue);
    var start := [Entry(Marker, StructType("Shadowing"))];
    assert Find(start, Marker) == 0;
    assert Put(start, Marker, Basic(leaf)) == [Entry(Marker, Basic(leaf))];
    assert DescribeField(reg, s.fields[0]) == Ok(Basic(leaf));
    assert DescribePrefix(reg, s, 0) == Ok(Description(start));
    assert Describe(reg, s) == Ok(Description([Entry(Marker, Basic(leaf))]));
    var d := Describe(reg, s).value;
    assert EntriesPattern(d, 1) == Ok("");
    assert EntriesLeaves(d, 1) == EntriesLeaves(d, 0) + [leaf];
  }
}
