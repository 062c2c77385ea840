/**
 * `build_data_pattern`: the in-order fold of a description into one struct-format
 * pattern. `EntriesPattern` and `ItemsPattern` specify the outer and the inner loop
 * after a number of iterations; `BuildDataPattern` is the source's loops, proved
 * equal to them. On a well-formed tree the pattern is the concatenation of the
 * tags of its leaves, one tag per leaf, in order.
 */
module Pattern {
  import opened DescriptorTypes

  /** `pattern += q`, where `q` may be the error of a recursive call. */
  function Extend(p: string, q: Result<string, PatternError>): Result<string, PatternError>
  {
    match q
    case Ok(x) => Ok(p + x)
    case Err(e) => Err(e)
  }

  /** What the first `n` entries of `d` add to the pattern (the outer loop after `n` iterations). */
  function EntriesPattern(d: Description, n: nat): Result<string, PatternError>
    requires n <= |d.entries|
    decreases d, 0, n
  {
    if n == 0 then Ok("")
    else
      match EntriesPattern(d, n - 1)
      case Err(e) => Err(e)
      case Ok(p) =>
        var e := d.entries[n - 1];
        if e.key == Marker then Ok(p)
        else
          match e.value
          case Basic(leaf) => Ok(p + leaf.parserTag)
          case Items(items) => Extend(p, ItemsPattern(e.key, e.value, |items|))
          case Dict(sub) => Extend(p, PatternOf(sub))
          case StructType(_) => Err(InvalidElementType(e.key))
  }

  /** What the first `m` elements of the list stored under `name` add (the inner loop). */
  function ItemsPattern(name: string, list: Element, m: nat): Result<string, PatternError>
    requires list.Items? && m <= |list.items|
    decreases list, 0, m
  {
    if m == 0 then Ok("")
    else
      match ItemsPattern(name, list, m - 1)
      case Err(e) => Err(e)
      case Ok(p) =>
        match list.items[m - 1]
        case Basic(leaf) => Ok(p + leaf.parserTag)
        case Dict(sub) => Extend(p, PatternOf(sub))
        case _ => Err(InvalidListType(name))
  }

  function PatternOf(d: Description): Result<string, PatternError>
    decreases d, 1
  {
    EntriesPattern(d, |d.entries|)
  }

  lemma {:induction false} EntriesErrorPersists(d: Description, i: nat, n: nat)
    requires i <= n <= |d.entries| && EntriesPattern(d, i).Err?
    ensures EntriesPattern(d, n) == EntriesPattern(d, i)
    decreases n
  {
    if n > i {
      EntriesErrorPersists(d, i, n - 1);
    }
  }

  lemma {:induction false} ItemsErrorPersists(name: string, list: Element, j: nat, m: nat)
    requires list.Items? && j <= m <= |list.items| && ItemsPattern(name, list, j).Err?
    ensures ItemsPattern(name, list, m) == ItemsPattern(name, list, j)
    decreases m
  {
    if m > j {
      ItemsErrorPersists(name, list, j, m - 1);
    }
  }

  /** An error in entry `i`, after a successful prefix, is the error of the whole pattern. */
  lemma EntryFailure(d: Description, i: nat, e: PatternError)
    requires i < |d.entries| && EntriesPattern(d, i).Ok? && EntriesPattern(d, i + 1) == Err(e)
    ensures PatternOf(d) == Err(e)
  {
    EntriesErrorPersists(d, i + 1, |d.entries|);
  }

  /** An error in element `j` of the list in entry `i` is the error of the whole pattern. */
  lemma ItemFailure(d: Description, i: nat, j: nat, e: PatternError)
    requires i < |d.entries| && EntriesPattern(d, i).Ok?
    requires d.entries[i].key != Marker && d.entries[i].value.Items?
    requires j < |d.entries[i].value.items|
    requires ItemsPattern(d.entries[i].key, d.entries[i].value, j + 1) == Err(e)
    ensures PatternOf(d) == Err(e)
  {
    var list := d.entries[i].value;
    ItemsErrorPersists(d.entries[i].key, list, j + 1, |list.items|);
    EntryFailure(d, i, e);
  }

  /** The source's loops: skip the marker, append leaf tags, expand lists, recurse into dictionaries. */
  method BuildDataPattern(d: Description) returns (r: Result<string, PatternError>)
    ensures r == PatternOf(d)
    decreases d
  {
    var pattern := "";
    for i := 0 to |d.entries|
      invariant EntriesPattern(d, i) == Ok(pattern)
    {
      var name, root := d.entries[i].key, d.entries[i].value;
      assert d.entries[i] in d.entries;
      if name == Marker {
        continue;
      }
      if root.Basic? {
        pattern := pattern + root.leaf.parserTag;
      } else if root.Items? {
        ghost var before := pattern;
        for j := 0 to |root.items|
          invariant ItemsPattern(name, root, j).Ok?
          invariant pattern == before + ItemsPattern(name, root, j).value
        {
          var sub := root.items[j];
          assert sub in root.items;
          if sub.Basic? {
            pattern := pattern + sub.leaf.parserTag;
          } else if sub.Dict? {
            var inner := BuildDataPattern(sub.desc);
            if inner.Err? {
              ItemFailure(d, i, j, inner.error);
              return Err(inner.error);
            }
            pattern := pattern + inner.value;
          } else {
            ItemFailure(d, i, j, InvalidListType(name));
            return Err(InvalidListType(name));
          }
        }
      } else if root.Dict? {
        var inner := BuildDataPattern(root.desc);
        if inner.Err? {
          EntryFailure(d, i, inner.error);
          return Err(inner.error);
        }
        pattern := pattern + inner.value;
      } else {
        EntryFailure(d, i, InvalidElementType(name));
        return Err(InvalidElementType(name));
      }
    }
    r := Ok(pattern);
  }

  // ---------------------------------------------------------------------------
  // Well-formed trees and their leaves
  // ---------------------------------------------------------------------------

  /**
   * The shape `build_data_description` produces: the marker key holds the dataclass,
   * every other key a leaf, a list of leaves and dictionaries, or a dictionary.
   */
  predicate WellFormed(d: Description)
    decreases d, 1
  {
    forall i | 0 <= i < |d.entries| :: WellFormedEntry(d.entries[i])
  }

  predicate WellFormedEntry(e: Entry)
    decreases e, 0
  {
    if e.key == Marker then e.value.StructType?
    else
      match e.value
      case StructType(_) => false
      case Basic(_) => true
      case Items(items) =>
        forall j | 0 <= j < |items| :: items[j].Basic? || (items[j].Dict? && WellFormed(items[j].desc))
      case Dict(sub) => WellFormed(sub)
  }

  /** Every leaf of the tree in order, under every key: the values a pack call is given. */
  function Leaves(d: Description): seq<BasicParsingElement>
    decreases d, 1
  {
    EntriesLeaves(d, |d.entries|)
  }

  function EntriesLeaves(d: Description, n: nat): seq<BasicParsingElement>
    requires n <= |d.entries|
    decreases d, 0, n
  {
    if n == 0 then [] else EntriesLeaves(d, n - 1) + ElementLeaves(d.entries[n - 1].value)
  }

  function ElementLeaves(el: Element): seq<BasicParsingElement>
    decreases el, 1
  {
    match el
    case StructType(_) => []
    case Basic(leaf) => [leaf]
    case Items(items) => ItemsLeaves(el, |items|)
    case Dict(sub) => Leaves(sub)
  }

  function ItemsLeaves(list: Element, m: nat): seq<BasicParsingElement>
    requires list.Items? && m <= |list.items|
    decreases list, 0, m
  {
    if m == 0 then [] else ItemsLeaves(list, m - 1) + ElementLeaves(list.items[m - 1])
  }

  function Tags(leaves: seq<BasicParsingElement>): (ts: seq<string>)
    ensures |ts| == |leaves|
  {
    seq(|leaves|, i requires 0 <= i < |leaves| => leaves[i].parserTag)
  }

  /** The strings of `ts` written one after another. */
  function Concat(ts: seq<string>): string
  {
    if ts == [] then "" else Concat(ts[..|ts| - 1]) + ts[|ts| - 1]
  }

  /** Appending a well-formed entry keeps a tree well formed. */
  lemma WellFormedAppend(d: Description, e: Entry)
    requires WellFormed(d) && WellFormedEntry(e)
    ensures WellFormed(Description(d.entries + [e]))
  {
    var d' := Description(d.entries + [e]);
    forall i | 0 <= i < |d'.entries| ensures WellFormedEntry(d'.entries[i]) {
      if i < |d.entries| {
        assert d'.entries[i] == d.entries[i];
      }
    }
  }

  /** Appending an entry appends its leaves. */
  lemma LeavesAppend(d: Description, e: Entry)
    ensures Leaves(Description(d.entries + [e])) == Leaves(d) + ElementLeaves(e.value)
  {
    EntriesLeavesAppend(d, e, |d.entries|);
  }

  lemma {:induction false} EntriesLeavesAppend(d: Description, e: Entry, k: nat)
    requires k <= |d.entries|
    ensures EntriesLeaves(Description(d.entries + [e]), k) == EntriesLeaves(d, k)
  {
    if k > 0 {
      EntriesLeavesAppend(d, e, k - 1);
      assert (d.entries + [e])[k - 1] == d.entries[k - 1];
    }
  }

  lemma {:induction false} ConcatAppend(a: seq<string>, b: seq<string>)
    ensures Concat(a + b) == Concat(a) + Concat(b)
    decreases |b|
  {
    if b != [] {
      var b' := b[..|b| - 1];
      assert (a + b)[..|a + b| - 1] == a + b';
      ConcatAppend(a, b');
    } else {
      assert a + b == a;
    }
  }

  lemma TagsAppend(a: seq<BasicParsingElement>, b: seq<BasicParsingElement>)
    ensures Tags(a + b) == Tags(a) + Tags(b)
  {
    assert forall i | 0 <= i < |a + b| :: Tags(a + b)[i] == (Tags(a) + Tags(b))[i];
  }

  lemma SingleLeafPattern(leaf: BasicParsingElement)
    ensures Concat(Tags([leaf])) == leaf.parserTag
  {
    assert Tags([leaf]) == [leaf.parserTag];
    assert [leaf.parserTag][..0] == [];
  }

  /** Appending the tags of `more` to a pattern built from `leaves`. */
  lemma PatternAppend(leaves: seq<BasicParsingElement>, more: seq<BasicParsingElement>)
    ensures Concat(Tags(leaves + more)) == Concat(Tags(leaves)) + Concat(Tags(more))
  {
    TagsAppend(leaves, more);
    ConcatAppend(Tags(leaves), Tags(more));
  }

  // ---------------------------------------------------------------------------
  // The pattern of a well-formed tree
  // ---------------------------------------------------------------------------

  /**
   * On a well-formed tree the pattern never reaches an error branch, and it is the
   * tags of the tree's leaves concatenated in order: one tag per leaf.
   */
  lemma {:induction false} PatternOfLeaves(d: Description)
    requires WellFormed(d)
    ensures PatternOf(d) == Ok(Concat(Tags(Leaves(d))))
    decreases d, 1
  {
    EntriesPatternLeaves(d, |d.entries|);
  }

  lemma {:induction false} EntriesPatternLeaves(d: Description, n: nat)
    requires WellFormed(d) && n <= |d.entries|
    ensures EntriesPattern(d, n) == Ok(Concat(Tags(EntriesLeaves(d, n))))
    decreases d, 0, n
  {
    if n > 0 {
      EntriesPatternLeaves(d, n - 1);
      var e := d.entries[n - 1];
      assert WellFormedEntry(e);
      var prev := EntriesLeaves(d, n - 1);
      PatternAppend(prev, ElementLeaves(e.value));
      if e.key == Marker {
        assert ElementLeaves(e.value) == [];
        assert EntriesLeaves(d, n) == prev;
      } else {
        match e.value
        case Basic(leaf) =>
          SingleLeafPattern(leaf);
        case Items(items) =>
          ItemsPatternLeaves(e.key, e.value, |items|);
        case Dict(sub) =>
          PatternOfLeaves(sub);
      }
    }
  }

  lemma {:induction false} ItemsPatternLeaves(name: string, list: Element, m: nat)
    requires list.Items? && m <= |list.items|
    requires forall j | 0 <= j < |list.items| ::
      list.items[j].Basic? || (list.items[j].Dict? && WellFormed(list.items[j].desc))
    ensures ItemsPattern(name, list, m) == Ok(Concat(Tags(ItemsLeaves(list, m))))
    decreases list, 0, m
  {
    if m > 0 {
      ItemsPatternLeaves(name, list, m - 1);
      var x := list.items[m - 1];
      var prev := ItemsLeaves(list, m - 1);
      var p := Concat(Tags(prev));
      assert ItemsLeaves(list, m) == prev + ElementLeaves(x);
      PatternAppend(prev, ElementLeaves(x));
      if x.Basic? {
        SingleLeafPattern(x.leaf);
        assert ItemsPattern(name, list, m) == Ok(p + x.leaf.parserTag);
      } else {
        assert x.Dict? && WellFormed(x.desc);
        PatternOfLeaves(x.desc);
        assert ItemsPattern(name, list, m) == Extend(p, PatternOf(x.desc));
      }
    }
  }
}
