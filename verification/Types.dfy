/** What the type names of a schema accept, told by values rather than by cases
    (internal/quality/domain/typecheck.go, `matchesType`). */
module Types {
  import opened Values
  import opened Typecheck
  import Text

  // ---------------------------------------------------------------- names

  /** Small letters and digits only. */
  predicate Plainly(t: string) {
    forall c | c in t :: 'a' <= c <= 'z' || '0' <= c <= '9'
  }

  lemma PlainName(t: string)
    requires Plainly(t)
    ensures Text.TypeName(t) == t
  {
    Text.TrimIdempotent(t);
    assert Text.Trimmed(t) by {
      assert t != [] ==> t[0] in t && t[|t| - 1] in t;
    }
    hide Text.Trim;
    forall i | 0 <= i < |t|
      ensures Text.LowerChar(t[i]) == t[i]
    {
      assert t[i] in t;
    }
    assert Text.ToLower(t) == t;
  }

  lemma TextNames(t: string)
    requires t in ["string", "text", "uuid", "date", "datetime", "timestamp"]
    ensures ClassOf(t) == TextType
  {
    assert Plainly(t);
    PlainName(t);
    hide Text.TypeName;
  }

  lemma BoolNames(t: string)
    requires t in ["bool", "boolean"]
    ensures ClassOf(t) == BoolType
  {
    assert Plainly(t);
    PlainName(t);
    hide Text.TypeName;
  }

  lemma IntNames(t: string)
    requires t in ["int", "int8", "int16", "int32", "int64", "integer"]
    ensures ClassOf(t) == IntType
  {
    assert Plainly(t);
    PlainName(t);
    hide Text.TypeName;
    assert t[0] == 'i';
  }

  lemma UintNames(t: string)
    requires t in ["uint", "uint8", "uint16", "uint32", "uint64"]
    ensures ClassOf(t) == UintType
  {
    assert Plainly(t);
    PlainName(t);
    hide Text.TypeName;
    assert t[0] == 'u' && t[1] == 'i';
  }

  lemma NumberNames(t: string)
    requires t in ["float", "float32", "float64", "number", "decimal"]
    ensures ClassOf(t) == NumberType
  {
    assert Plainly(t);
    PlainName(t);
    hide Text.TypeName;
  }

  lemma ObjectNames(t: string)
    requires t in ["object", "map", "json"]
    ensures ClassOf(t) == ObjectType
  {
    assert Plainly(t);
    PlainName(t);
    hide Text.TypeName;
  }

  lemma ArrayNames(t: string)
    requires t in ["array", "list", "repeated"]
    ensures ClassOf(t) == ArrayType
  {
    assert Plainly(t);
    PlainName(t);
    hide Text.TypeName;
  }

  lemma BytesNames(t: string)
    requires t in ["bytes", "binary"]
    ensures ClassOf(t) == BytesType
  {
    assert Plainly(t);
    PlainName(t);
    hide Text.TypeName;
  }

  lemma CommonNames()
    ensures ClassOf("string") == TextType && ClassOf("bool") == BoolType && ClassOf("int") == IntType
    ensures ClassOf("uint") == UintType && ClassOf("number") == NumberType && ClassOf("object") == ObjectType
    ensures ClassOf("array") == ArrayType
  {
    hide ClassOf;
    TextNames("string");
    BoolNames("bool");
    IntNames("int");
    UintNames("uint");
    NumberNames("number");
    ObjectNames("object");
    ArrayNames("array");
  }

  /** Which spellings mean the same. */
  lemma SpellingsFallTogether(v: Value, t: string)
    ensures t in ["string", "text", "uuid", "date", "datetime", "timestamp", "bytes", "binary"] ==>
              MatchesType(v, t) == MatchesType(v, "string")
    ensures t in ["bool", "boolean"] ==> MatchesType(v, t) == MatchesType(v, "bool")
    ensures t in ["int", "int8", "int16", "int32", "int64", "integer"] ==> MatchesType(v, t) == MatchesType(v, "int")
    ensures t in ["uint", "uint8", "uint16", "uint32", "uint64"] ==> MatchesType(v, t) == MatchesType(v, "uint")
    ensures t in ["float", "float32", "float64", "number", "decimal"] ==> MatchesType(v, t) == MatchesType(v, "number")
    ensures t in ["object", "map", "json"] ==> MatchesType(v, t) == MatchesType(v, "object")
    ensures t in ["array", "list", "repeated"] ==> MatchesType(v, t) == MatchesType(v, "array")
  {
    CommonNames();
    TextSpellings(v, t);
    NumberSpellings(v, t);
    hide ClassOf;
    if t in ["bool", "boolean"] {
      BoolNames(t);
    }
    if t in ["object", "map", "json"] {
      ObjectNames(t);
    }
    if t in ["array", "list", "repeated"] {
      ArrayNames(t);
    }
  }

  lemma TextSpellings(v: Value, t: string)
    ensures t in ["string", "text", "uuid", "date", "datetime", "timestamp", "bytes", "binary"] ==>
              MatchesType(v, t) == MatchesType(v, "string")
  {
    hide ClassOf;
    CommonNames();
    if t in ["string", "text", "uuid", "date", "datetime", "timestamp"] {
      TextNames(t);
    } else if t in ["bytes", "binary"] {
      BytesNames(t);
    }
  }

  lemma NumberSpellings(v: Value, t: string)
    ensures t in ["int", "int8", "int16", "int32", "int64", "integer"] ==> MatchesType(v, t) == MatchesType(v, "int")
    ensures t in ["uint", "uint8", "uint16", "uint32", "uint64"] ==> MatchesType(v, t) == MatchesType(v, "uint")
    ensures t in ["float", "float32", "float64", "number", "decimal"] ==> MatchesType(v, t) == MatchesType(v, "number")
  {
    hide ClassOf;
    CommonNames();
    if t in ["int", "int8", "int16", "int32", "int64", "integer"] {
      IntNames(t);
    }
    if t in ["uint", "uint8", "uint16", "uint32", "uint64"] {
      UintNames(t);
    }
    if t in ["float", "float32", "float64", "number", "decimal"] {
      NumberNames(t);
    }
  }

  /** Any other name accepts everything, so that schemas can use types of their own. */
  lemma UnknownNamesAccept(v: Value, t: string)
    requires Plainly(t)
    requires t !in ["string", "text", "uuid", "date", "datetime", "timestamp", "bytes", "binary", "bool", "boolean"]
    requires t !in ["int", "int8", "int16", "int32", "int64", "integer", "uint", "uint8", "uint16", "uint32", "uint64"]
    requires t !in ["float", "float32", "float64", "number", "decimal", "object", "map", "json", "array", "list", "repeated"]
    ensures MatchesType(v, t)
  {
    PlainName(t);
    hide Text.TypeName;
  }

  // ---------------------------------------------------------------- values

  /** A whole number. */
  function Whole(z: int): Value {
    Num(z as real)
  }

  /** Every number a client sends is accepted by "number", every whole one in the range of 64-bit integers by "int",
      and every such one that is not negative by "uint", whatever its width says; nothing else is. */
  lemma NumbersAccepted(v: Value)
    ensures MatchesType(v, "number") <==> exists x: real :: v == Num(x)
    ensures MatchesType(v, "int") <==>
            exists z: int :: v == Whole(z) && -9_223_372_036_854_775_808 <= z <= 9_223_372_036_854_775_807
    ensures MatchesType(v, "uint") <==> exists z: int :: v == Whole(z) && 0 <= z <= 9_223_372_036_854_775_807
  {
    CommonNames();
    hide ClassOf;
    if v.Num? {
      assert v == Num(v.n);
      if IsInteger(v) {
        assert v == Whole(v.n.Floor);
      }
    }
  }

  /** The numeric types narrow, with these gaps: an int that is no uint is negative, and a number that is no int is
      fractional or out of range. */
  lemma NumericTypesNarrow(v: Value)
    ensures MatchesType(v, "uint") ==> MatchesType(v, "int")
    ensures MatchesType(v, "int") ==> MatchesType(v, "number")
    ensures v.Num? && MatchesType(v, "int") ==> (!MatchesType(v, "uint") <==> v.n < 0.0)
    ensures v.Num? ==>
              (!MatchesType(v, "int") <==>
               v.n.Floor as real != v.n || v.n.Floor < -9_223_372_036_854_775_808 || v.n.Floor > 9_223_372_036_854_775_807)
  {
    CommonNames();
    hide ClassOf;
  }

  function One(b: bool): nat {
    if b then 1 else 0
  }

  /** Every decoded value but null is of exactly one basic type, its own; null is of none. */
  lemma BasicTypesPartition(v: Value)
    ensures One(MatchesType(v, "string")) + One(MatchesType(v, "bool")) + One(MatchesType(v, "number"))
            + One(MatchesType(v, "object")) + One(MatchesType(v, "array")) == One(v != Null)
    ensures MatchesType(v, "string") <==> exists s :: v == Str(s)
    ensures MatchesType(v, "bool") <==> v == Bool(true) || v == Bool(false)
    ensures MatchesType(v, "object") <==> exists m :: v == Obj(m)
    ensures MatchesType(v, "array") <==> exists a :: v == Arr(a)
  {
    CommonNames();
    hide ClassOf;
    match v
    case Str(s) => assert v == Str(s);
    case Arr(a) => assert v == Arr(a);
    case Obj(m) => assert v == Obj(m);
    case _ =>
  }
}
