/**
  Condition matching of a multipart block-state piece: whether a piece of a
  multipart blockstate applies to a block, decided from the block's
  properties (a list of NBT tags) and the piece's parsed `when` condition.
 */
module MultiPart {

  import opened Wrappers
  import opened JavaLang

  // ---------------------------------------------------------------------
  // Block properties: NBT tags
  // ---------------------------------------------------------------------

  /** The NBT tag kinds that have no text form for condition matching. */
  datatype OtherKind = End | ByteArray | List | Compound | IntArray | LongArray

  /** The payload of an NBT tag. A float or double carries the text Java's
      `Float.toString`/`Double.toString` gives for it. */
  datatype TagValue =
    | ByteValue(b: int8)
    | ShortValue(s: int16)
    | IntValue(i: int32)
    | LongValue(l: int64)
    | FloatValue(floatText: string)
    | DoubleValue(doubleText: string)
    | StringValue(str: string)
    | OtherValue(kind: OtherKind)

  /** A named NBT tag, one element of a block's property compound. */
  datatype NbtTag = NbtTag(name: string, value: TagValue) {

    /** The NBT type ID of the tag. */
    function ID(): int {
      match value
      case ByteValue(_) => 1
      case ShortValue(_) => 2
      case IntValue(_) => 3
      case LongValue(_) => 4
      case FloatValue(_) => 5
      case DoubleValue(_) => 6
      case StringValue(_) => 8
      case OtherValue(k) =>
        match k
        case End => 0
        case ByteArray => 7
        case List => 9
        case Compound => 10
        case IntArray => 11
        case LongArray => 12
    }
  }

  /** The type IDs for which a property has a text value. */
  predicate SupportedID(id: int) {
    1 <= id <= 6 || id == 8
  }

  /** The text a property is compared as, or None for the other tag types. */
  function PropValue(tag: NbtTag): (r: Option<string>)
    ensures r.Some? <==> SupportedID(tag.ID())
    ensures tag.value.StringValue? ==> r == Some(tag.value.str)
  {
    match tag.value
    case ByteValue(b) => Some(Decimal(b))
    case ShortValue(s) => Some(Decimal(s))
    case IntValue(i) => Some(Decimal(i))
    case LongValue(l) => Some(Decimal(l))
    case FloatValue(t) => Some(t)
    case DoubleValue(t) => Some(t)
    case StringValue(s) => Some(s)
    case OtherValue(_) => None
  }

  // ---------------------------------------------------------------------
  // Conditions
  // ---------------------------------------------------------------------

  /** A condition object: each member's name mapped to the text `getAsString`
      gives for its JSON value, read as '|'-separated alternatives. */
  type CheckObject = map<string, string>

  /**
    A parsed `when` object: its `OR` array if it has one, its `AND` array
    if it has one, and its string members, which are the condition when it
    has neither array.
   */
  datatype When = When(orList: Option<seq<CheckObject>>, andList: Option<seq<CheckObject>>, members: CheckObject)

  /** One alternative accepts a value when equal, and "true"/"false" also accept "1"/"0". */
  predicate Accepts(alternative: string, propValue: string) {
    propValue == alternative
    || (alternative == "false" && propValue == "0")
    || (alternative == "true" && propValue == "1")
  }

  /** The value is accepted by one of the alternatives in the text. */
  predicate ValueAllowed(propValue: string, alternatives: string) {
    exists v :: v in JavaSplit(alternatives) && Accepts(v, propValue)
  }

  /** A tag satisfies a condition object unless the object names it, the tag
      has a text value, and no alternative accepts that value. */
  predicate TagSatisfies(tag: NbtTag, check: CheckObject) {
    tag.name in check && PropValue(tag).Some? ==> ValueAllowed(PropValue(tag).value, check[tag.name])
  }

  /** Every property satisfies the condition object. */
  predicate Satisfies(properties: seq<NbtTag>, check: CheckObject) {
    forall i :: 0 <= i < |properties| ==> TagSatisfies(properties[i], check)
  }

  /** Whether the piece applies: no condition, some OR element, every AND
      element, or the object itself; OR is consulted before AND. */
  predicate Applies(properties: seq<NbtTag>, check: Option<When>) {
    match check
    case None => true
    case Some(w) =>
      if w.orList.Some? then exists i :: 0 <= i < |w.orList.value| && Satisfies(properties, w.orList.value[i])
      else if w.andList.Some? then forall i :: 0 <= i < |w.andList.value| ==> Satisfies(properties, w.andList.value[i])
      else Satisfies(properties, w.members)
  }

  // ---------------------------------------------------------------------
  // The matching loops
  // ---------------------------------------------------------------------

  /** The `found` loop: scans the alternatives until one accepts the value. */
  method AnyAlternativeAccepts(propValue: string, values: seq<string>) returns (found: bool)
    ensures found <==> exists v :: v in values && Accepts(v, propValue)
  {
    found := false;
    var j := 0;
    while j < |values|
      invariant 0 <= j <= |values|
      invariant !found
      invariant forall m :: 0 <= m < j ==> !Accepts(values[m], propValue)
    {
      if propValue == values[j] {
        found := true;
        break;
      } else if (values[j] == "false" && propValue == "0") || (values[j] == "true" && propValue == "1") {
        found := true;
        break;
      }
      j := j + 1;
    }
    assert found ==> Accepts(values[j], propValue);
  }

  /** Runs over the properties, stopping at the first named property whose
      value no alternative accepts. */
  method TestProperties(properties: seq<NbtTag>, checkObject: CheckObject) returns (r: bool)
    ensures r == Satisfies(properties, checkObject)
  {
    var i := 0;
    while i < |properties|
      invariant 0 <= i <= |properties|
      invariant forall k :: 0 <= k < i ==> TagSatisfies(properties[k], checkObject)
    {
      var tag := properties[i];
      if tag.name in checkObject {
        var values := JavaSplit(checkObject[tag.name]);
        var propValue := PropValue(tag);
        if propValue.Some? {
          var found := AnyAlternativeAccepts(propValue.value, values);
          if !found {
            assert !ValueAllowed(propValue.value, checkObject[tag.name]);
            return false;
          }
          assert ValueAllowed(propValue.value, checkObject[tag.name]);
        }
      }
      assert TagSatisfies(properties[i], checkObject);
      i := i + 1;
    }
    return true;
  }

  /** Decides whether the piece applies, with the early returns of the OR and AND loops. */
  method UsePart(properties: seq<NbtTag>, check: Option<When>) returns (r: bool)
    ensures r == Applies(properties, check)
  {
    if check.None? {
      return true;
    }
    var w := check.value;
    if w.orList.Some? {
      var list := w.orList.value;
      for i := 0 to |list|
        invariant forall k :: 0 <= k < i ==> !Satisfies(properties, list[k])
      {
        var ok := TestProperties(properties, list[i]);
        if ok {
          return true;
        }
      }
      return false;
    } else if w.andList.Some? {
      var list := w.andList.value;
      for i := 0 to |list|
        invariant forall k :: 0 <= k < i ==> Satisfies(properties, list[k])
      {
        var ok := TestProperties(properties, list[i]);
        if !ok {
          return false;
        }
      }
      return true;
    } else {
      r := TestProperties(properties, w.members);
    }
  }

  // ---------------------------------------------------------------------
  // Properties of the matching
  // ---------------------------------------------------------------------

  /** The property list is a conjunction: satisfying a concatenation means
      satisfying both parts. */
  lemma SatisfiesConcat(p: seq<NbtTag>, q: seq<NbtTag>, check: CheckObject)
    ensures Satisfies(p + q, check) <==> Satisfies(p, check) && Satisfies(q, check)
  {
    if Satisfies(p, check) && Satisfies(q, check) {
      forall i | 0 <= i < |p + q| ensures TagSatisfies((p + q)[i], check) {
        if i >= |p| {
          assert (p + q)[i] == q[i - |p|];
        }
      }
    }
    if Satisfies(p + q, check) {
      forall i | 0 <= i < |p| ensures TagSatisfies(p[i], check) {
        assert (p + q)[i] == p[i];
      }
      forall i | 0 <= i < |q| ensures TagSatisfies(q[i], check) {
        assert (p + q)[|p| + i] == q[i];
      }
    }
  }

  /** Only which tags occur matters, not their position. */
  lemma SatisfiesByMembers(p: seq<NbtTag>, check: CheckObject)
    ensures Satisfies(p, check) <==> forall t :: t in p ==> TagSatisfies(t, check)
  {
  }

  /** The outcome does not depend on the order of the properties. */
  lemma SatisfiesOrderIndependent(p: seq<NbtTag>, q: seq<NbtTag>, check: CheckObject)
    requires multiset(p) == multiset(q)
    ensures Satisfies(p, check) == Satisfies(q, check)
  {
    SatisfiesByMembers(p, check);
    SatisfiesByMembers(q, check);
    forall t ensures t in p <==> t in q {
      assert t in p <==> t in multiset(p);
      assert t in q <==> t in multiset(q);
    }
  }

  /** A condition key that no property is named by imposes no requirement:
      adding or removing it changes nothing. */
  lemma UnnamedKeyIgnored(p: seq<NbtTag>, check: CheckObject, key: string, alternatives: string)
    requires forall i :: 0 <= i < |p| ==> p[i].name != key
    ensures Satisfies(p, check[key := alternatives]) == Satisfies(p, check)
    ensures Satisfies(p, check - {key}) == Satisfies(p, check)
  {
    forall i | 0 <= i < |p|
      ensures TagSatisfies(p[i], check[key := alternatives]) == TagSatisfies(p[i], check)
      ensures TagSatisfies(p[i], check - {key}) == TagSatisfies(p[i], check)
    {
      assert p[i].name in check[key := alternatives] <==> p[i].name in check;
      assert p[i].name in check - {key} <==> p[i].name in check;
    }
  }

  /** An empty condition object accepts every property list. */
  lemma EmptyCheckSatisfied(p: seq<NbtTag>)
    ensures Satisfies(p, map[])
  {
  }

  /** A tag of an unsupported type never causes a failure. */
  lemma UnsupportedTagIgnored(p: seq<NbtTag>, t: NbtTag, check: CheckObject)
    requires !SupportedID(t.ID())
    ensures Satisfies(p + [t], check) == Satisfies(p, check)
  {
    SatisfiesConcat(p, [t], check);
  }

  /** For a non-empty value only the pieces between separators matter: the
      empty pieces Java's split drops could not have accepted it. */
  lemma ValueAllowedByPieces(propValue: string, alternatives: string)
    requires propValue != ""
    ensures ValueAllowed(propValue, alternatives)
        <==> exists v :: v in SplitAll(alternatives) && Accepts(v, propValue)
  {
    forall v | Accepts(v, propValue) ensures v in JavaSplit(alternatives) <==> v in SplitAll(alternatives) {
      JavaSplitNonEmpty(alternatives, v);
    }
  }

  /** What a single supported property needs: one of its alternatives
      accepts its text. */
  lemma SingleProperty(t: NbtTag, alternatives: string)
    requires SupportedID(t.ID())
    ensures Satisfies([t], map[t.name := alternatives]) <==> ValueAllowed(PropValue(t).value, alternatives)
  {
    assert [t][0] == t;
  }

  /** The boolean aliases: "true" accepts a byte 1 and "false" a byte 0;
      "true" also accepts the string "1", and it does not accept a byte 0. */
  lemma BooleanAliases(name: string)
    ensures Satisfies([NbtTag(name, ByteValue(1))], map[name := "true"])
    ensures Satisfies([NbtTag(name, ByteValue(0))], map[name := "false"])
    ensures Satisfies([NbtTag(name, StringValue("1"))], map[name := "true"])
    ensures !Satisfies([NbtTag(name, ByteValue(0))], map[name := "true"])
  {
    assert Decimal(1) == "1";
    assert Decimal(0) == "0";
    assert JavaSplit("true") == ["true"];
    assert JavaSplit("false") == ["false"];
    assert "true" in JavaSplit("true") && Accepts("true", "1");
    assert "false" in JavaSplit("false") && Accepts("false", "0");
    SingleProperty(NbtTag(name, ByteValue(1)), "true");
    SingleProperty(NbtTag(name, ByteValue(0)), "false");
    SingleProperty(NbtTag(name, StringValue("1")), "true");
    SingleProperty(NbtTag(name, ByteValue(0)), "true");
  }

  /** Java's split decides the empty value: "" is allowed by "" and by "|a",
      but not by "|", which splits into no alternatives at all. */
  lemma EmptyValueAlternatives()
    ensures ValueAllowed("", "")
    ensures !ValueAllowed("", "|")
    ensures ValueAllowed("", "|a")
  {
    assert JavaSplit("") == [""];
    assert "" in JavaSplit("") && Accepts("", "");
    assert SplitAll("|") == ["", ""];
    assert JavaSplit("|") == [];
    NoSeparator("a");
    assert "|a"[1..] == "a";
    assert SplitAll("|a") == ["", "a"];
    assert JavaSplit("|a") == ["", "a"];
  }

  /** Each condition kind in terms of single conditions: none applies
      always, OR means some element does (none for an empty list) and wins over
      AND, AND means every element does (all for an empty list). */
  lemma ConditionKinds(p: seq<NbtTag>, ors: seq<CheckObject>, ands: seq<CheckObject>, members: CheckObject)
    ensures Applies(p, None)
    ensures Applies(p, Some(When(Some(ors), Some(ands), members))) == Applies(p, Some(When(Some(ors), None, members)))
    ensures Applies(p, Some(When(Some(ors), None, members)))
        <==> exists i :: 0 <= i < |ors| && Applies(p, Some(When(None, None, ors[i])))
    ensures Applies(p, Some(When(None, Some(ands), members)))
        <==> forall i :: 0 <= i < |ands| ==> Applies(p, Some(When(None, None, ands[i])))
    ensures !Applies(p, Some(When(Some([]), Some(ands), members)))
    ensures Applies(p, Some(When(None, Some([]), members)))
  {
  }
}
