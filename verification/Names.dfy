/**
 Wire names: snake_case identifiers turned into camelCase and back, over
 ASCII.
 */
module Names {
  import opened Texts
  import opened Sequences

  // ----------------------------------------------------------- the conversions

  /** value.split("_"). */
  function SplitUnderscore(s: string): (parts: seq<string>)
    ensures parts != []
  {
    if s == "" then [""]
    else
      var rest := SplitUnderscore(s[1..]);
      if s[0] == '_' then [""] + rest else [[s[0]] + rest[0]] + rest[1..]
  }

  function Capital(part: string): string {
    if part == "" then "" else [UpperChar(part[0])] + part[1..]
  }

  function Capitals(parts: seq<string>): string {
    if parts == [] then "" else Capital(parts[0]) + Capitals(parts[1..])
  }

  function ToCamel(value: string): string {
    var parts := SplitUnderscore(value);
    parts[0] + Capitals(parts[1..])
  }

  /** An underscore goes before every capital but one at the very start. */
  function Separate(s: string, atStart: bool): string {
    if s == "" then ""
    else (if IsUpper(s[0]) && !atStart then "_" else "") + [s[0]] + Separate(s[1..], false)
  }

  function ToSnake(value: string): string {
    Lower(Separate(value, true))
  }

  // ------------------------------------------------- the same, character by character

  /** ToCamel read from left to right: raised says that an underscore has just been dropped. */
  function Camel(s: string, raised: bool): string {
    if s == "" then ""
    else if s[0] == '_' then Camel(s[1..], true)
    else [if raised then UpperChar(s[0]) else s[0]] + Camel(s[1..], false)
  }

  function Snake(s: string, atStart: bool): string {
    if s == "" then ""
    else (if IsUpper(s[0]) && !atStart then "_" else "") + [LowerChar(s[0])] + Snake(s[1..], false)
  }

  lemma {:induction false} CamelIsToCamel(s: string)
    ensures Camel(s, false) == ToCamel(s)
    ensures Camel(s, true) == Capitals(SplitUnderscore(s))
  {
    if s != "" {
      CamelIsToCamel(s[1..]);
      var rest := SplitUnderscore(s[1..]);
      var parts := SplitUnderscore(s);
      if s[0] == '_' {
        assert parts[1..] == rest;
        assert Capitals(parts) == Capital("") + Capitals(rest);
      } else {
        assert parts[1..] == rest[1..];
        assert parts[0] == [s[0]] + rest[0];
        assert parts[0][1..] == rest[0];
        Associate([s[0]], rest[0], Capitals(rest[1..]));
        Associate([UpperChar(s[0])], rest[0], Capitals(rest[1..]));
      }
    }
  }

  lemma {:induction false} LowerConcat(a: string, b: string)
    ensures Lower(a + b) == Lower(a) + Lower(b)
  {
    if a == "" {
      assert a + b == b;
    } else {
      assert (a + b)[1..] == a[1..] + b;
      LowerConcat(a[1..], b);
    }
  }

  lemma {:induction false} SnakeIsToSnake(s: string, atStart: bool)
    ensures Snake(s, atStart) == Lower(Separate(s, atStart))
  {
    if s != "" {
      var mark := if IsUpper(s[0]) && !atStart then "_" else "";
      SnakeIsToSnake(s[1..], false);
      LowerConcat(mark + [s[0]], Separate(s[1..], false));
      assert Lower(mark + [s[0]]) == mark + [LowerChar(s[0])] by {
        LowerConcat(mark, [s[0]]);
        assert Lower([s[0]]) == [LowerChar(s[0])];
        assert Lower("_") == "_" && Lower("") == "";
      }
    }
  }

  // -------------------------------------------------------------- the round trip

  /** No capitals, and every underscore stands between something and a lower-case letter. */
  predicate WellFormed(v: string) {
    && (forall i :: 0 <= i < |v| ==> !IsUpper(v[i]))
    && (forall i :: 0 <= i < |v| && v[i] == '_' ==> 0 < i && i + 1 < |v| && IsLower(v[i + 1]))
  }

  /** WellFormed read from left to right. */
  predicate Good(s: string, raised: bool) {
    if s == "" then !raised
    else if s[0] == '_' then !raised && Good(s[1..], true)
    else !IsUpper(s[0]) && (raised ==> IsLower(s[0])) && Good(s[1..], false)
  }

  lemma {:induction false} GoodMeans(s: string, raised: bool)
    ensures Good(s, raised) <==>
            && (forall i :: 0 <= i < |s| ==> !IsUpper(s[i]))
            && (forall i :: 0 <= i < |s| && s[i] == '_' ==> i + 1 < |s| && IsLower(s[i + 1]))
            && (raised ==> s != "" && IsLower(s[0]))
  {
    if s != "" {
      GoodMeans(s[1..], s[0] == '_');
      assert forall i :: 0 <= i < |s[1..]| ==> s[1..][i] == s[i + 1];
      assert forall i :: 1 <= i < |s| ==> s[i] == s[1..][i - 1];
    }
  }

  lemma {:induction false} GoodReturns(s: string, raised: bool)
    requires Good(s, raised)
    ensures Snake(Camel(s, raised), false) == (if raised then "_" else "") + s
    decreases |s|
  {
    if s != "" {
      if s[0] == '_' {
        GoodReturns(s[1..], true);
        assert "_" + s[1..] == s;
      } else {
        GoodReturns(s[1..], false);
        var c := Camel(s, raised);
        assert c[1..] == Camel(s[1..], false);
        assert s == [s[0]] + s[1..];
      }
    }
  }

  /** What comes back has no capitals, and it is shorter where the name is not good. */
  lemma {:induction false} BadShrinks(s: string, raised: bool)
    requires forall i :: 0 <= i < |s| ==> !IsUpper(s[i])
    ensures |Snake(Camel(s, raised), false)| <= |s| + (if raised then 1 else 0)
    ensures |Snake(Camel(s, raised), false)| == |s| + (if raised then 1 else 0) ==> Good(s, raised)
    decreases |s|
  {
    if s != "" {
      var c := Camel(s, raised);
      if s[0] == '_' {
        BadShrinks(s[1..], true);
      } else {
        BadShrinks(s[1..], false);
        assert c[1..] == Camel(s[1..], false);
      }
    }
  }

  lemma {:induction false} SnakeHasNoCapitals(s: string, atStart: bool)
    ensures forall i :: 0 <= i < |Snake(s, atStart)| ==> !IsUpper(Snake(s, atStart)[i])
  {
    if s != "" {
      SnakeHasNoCapitals(s[1..], false);
    }
  }

  /** At the very start a capital gets no underscore. */
  lemma SnakeStart(s: string)
    ensures Snake(s, true) == if s != "" && IsUpper(s[0]) then Snake(s, false)[1..] else Snake(s, false)
  {
  }

  lemma {:induction false} DroppedStart(s: string)
    requires forall i :: 0 <= i < |s| ==> !IsUpper(s[i])
    ensures |Snake(Camel(s, true), true)| <= |s|
  {
    BadShrinks(s, true);
    SnakeStart(Camel(s, true));
    if s != "" && s[0] == '_' {
      DroppedStart(s[1..]);
    }
  }

  lemma WellFormedReturns(v: string)
    requires WellFormed(v)
    ensures Snake(Camel(v, false), true) == v
  {
    GoodMeans(v, false);
    GoodReturns(v, false);
    SnakeStart(Camel(v, false));
  }

  lemma OthersDoNot(v: string)
    requires Snake(Camel(v, false), true) == v
    ensures WellFormed(v)
  {
    SnakeHasNoCapitals(Camel(v, false), true);
    if v != "" && v[0] == '_' {
      DroppedStart(v[1..]);
    }
    BadShrinks(v, false);
    SnakeStart(Camel(v, false));
    GoodMeans(v, false);
  }

  /** For every ASCII text: converting to the wire and back gives the text again exactly when it is well formed. */
  lemma RoundTripExactly(v: string)
    ensures ToSnake(ToCamel(v)) == v <==> WellFormed(v)
  {
    CamelIsToCamel(v);
    SnakeIsToSnake(ToCamel(v), true);
    if WellFormed(v) {
      WellFormedReturns(v);
    }
    if Snake(Camel(v, false), true) == v {
      OthersDoNot(v);
    }
  }

  /** Distinct well-formed field names never share a wire alias. */
  lemma AliasesAreDistinct(a: string, b: string)
    requires WellFormed(a) && WellFormed(b) && ToCamel(a) == ToCamel(b)
    ensures a == b
  {
    RoundTripExactly(a);
    RoundTripExactly(b);
  }

  lemma {:induction false} LostSeparator(p: string, q: string, raised: bool)
    requires q != "" && q[0] != '_' && UpperChar(q[0]) == q[0]
    ensures Camel(p + "_" + q, raised) == Camel(p + q, raised)
    decreases |p|
  {
    if p == "" {
      assert (p + "_" + q)[1..] == q && p + q == q;
    } else {
      assert (p + "_" + q)[1..] == p[1..] + "_" + q && (p + q)[1..] == p[1..] + q;
      LostSeparator(p[1..], q, p[0] == '_');
    }
  }

  /** An underscore before a digit is lost: the names with and without it have the same alias. */
  lemma DigitPartSharesAlias(p: string, q: string)
    requires q != "" && IsDigit(q[0])
    ensures ToCamel(p + "_" + q) == ToCamel(p + q) && !WellFormed(p + "_" + q)
  {
    var v := p + "_" + q;
    CamelIsToCamel(v);
    CamelIsToCamel(p + q);
    LostSeparator(p, q, false);
    assert v[|p|] == '_' && v[|p| + 1] == q[0];
  }

  /** Fields that the academy's review form declares do not come back as they were. */
  lemma SessionFieldDoesNotReturn()
    ensures ToSnake(ToCamel("teaching_session" + "_" + "1_status")) != "teaching_session" + "_" + "1_status"
    ensures ToCamel("teaching_session" + "_" + "1_status") == ToCamel("teaching_session" + "1_status")
  {
    var p, q := "teaching_session", "1_status";
    DigitPartSharesAlias(p, q);
    RoundTripExactly(p + "_" + q);
  }
}
