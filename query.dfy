/**
 * The part of the database query builder the pet listing uses: equality,
 * case-insensitive `LIKE` and range conditions over the columns of the pets
 * table, and what each condition means for one row.
 */
module Query {
  import opened Wrappers
  import opened Numbers
  import opened Strings
  import opened Types

  /** A value compared against a column. */
  datatype Value = Text(text: string) | Number(number: Num) | Flag(flag: bool)

  datatype Condition =
    | Eq(column: string, value: Value)        // `.eq(column, value)`
    | ILike(column: string, pattern: string)  // `.ilike(column, pattern)`
    | Gte(column: string, bound: Num)         // `.gte(column, bound)`
    | Lte(column: string, bound: Num)         // `.lte(column, bound)`

  /** `from(table).select("*").order(orderBy, { ascending })` followed by the conditions, in the order they were added. */
  datatype PetsQuery = PetsQuery(table: string, orderBy: string, ascending: bool, conditions: seq<Condition>)

  /**
   * `LIKE` matching: `%` matches any run of characters, `_` any single
   * character, and every other character itself.
   */
  predicate LikeMatch(s: string, pat: string)
    decreases |pat|, |s|
  {
    if pat == [] then s == []
    else if pat[0] == '%' then LikeMatch(s, pat[1..]) || (s != [] && LikeMatch(s[1..], pat))
    else s != [] && (pat[0] == '_' || s[0] == pat[0]) && LikeMatch(s[1..], pat[1..])
  }

  /** `ILIKE`: `LIKE` after lower-casing both sides. */
  predicate ILikeMatch(s: string, pat: string) {
    LikeMatch(Lower(s), Lower(pat))
  }

  /**
   * `s` holds no character the filter reads as a wildcard: the `LIKE`
   * wildcards `%` and `_`, and `*`, which the REST filter syntax behind
   * `.ilike` reads as `%`.
   */
  predicate NoWildcards(s: string) {
    forall i :: 0 <= i < |s| ==> s[i] != '%' && s[i] != '_' && s[i] != '*'
  }

  /** A wildcard-free pattern prefix matches exactly the same prefix of the string. */
  lemma {:induction false} LikeLiteral(s: string, b: string, rest: string)
    requires NoWildcards(b)
    ensures LikeMatch(s, b + rest) <==> |b| <= |s| && s[..|b|] == b && LikeMatch(s[|b|..], rest)
  {
    if b == [] {
      assert b + rest == rest;
      assert s[..0] == b && s[0..] == s;
    } else {
      assert (b + rest)[0] == b[0];
      assert (b + rest)[1..] == b[1..] + rest;
      if s != [] {
        LikeLiteral(s[1..], b[1..], rest);
        if |b| <= |s| {
          assert s[1..][..|b| - 1] == s[1..|b|];
          assert s[1..][|b| - 1..] == s[|b|..];
          assert s[..|b|] == [s[0]] + s[1..|b|];
          assert b == [b[0]] + b[1..];
        }
      }
    }
  }

  /** The pattern `%` matches every string. */
  lemma {:induction false} LikeAnything(s: string)
    ensures LikeMatch(s, "%")
  {
    assert "%"[1..] == "";
    if s != [] {
      LikeAnything(s[1..]);
    }
  }

  /** A leading `%` lets the rest of the pattern match any suffix. */
  lemma {:induction false} LikeLeadingPercent(s: string, q: string)
    ensures LikeMatch(s, "%" + q) <==> exists i :: 0 <= i <= |s| && LikeMatch(s[i..], q)
  {
    assert ("%" + q)[0] == '%' && ("%" + q)[1..] == q;
    assert s[0..] == s;
    if s != [] {
      LikeLeadingPercent(s[1..], q);
      assert forall i :: 0 <= i <= |s| - 1 ==> s[1..][i..] == s[i + 1..];
      if exists i :: 0 <= i <= |s| && LikeMatch(s[i..], q) {
        var i :| 0 <= i <= |s| && LikeMatch(s[i..], q);
        if i > 0 {
          assert LikeMatch(s[1..][i - 1..], q);
        }
      }
    }
  }

  /** `%b%` with a wildcard-free `b` matches exactly the strings that contain `b`. */
  lemma LikeContains(s: string, b: string)
    requires NoWildcards(b)
    ensures LikeMatch(s, "%" + b + "%") <==> Contains(s, b)
  {
    assert "%" + b + "%" == "%" + (b + "%");
    LikeLeadingPercent(s, b + "%");
    forall i | 0 <= i <= |s|
      ensures LikeMatch(s[i..], b + "%") <==> OccursAt(s, b, i)
    {
      LikeLiteral(s[i..], b, "%");
      if i + |b| <= |s| {
        LikeAnything(s[i..][|b|..]);
        assert s[i..][..|b|] == s[i..i + |b|];
      }
    }
    if Contains(s, b) {
      var i: nat :| OccursAt(s, b, i);
      assert LikeMatch(s[i..], b + "%");
    }
  }

  /** Lower-casing distributes over concatenation. */
  lemma {:induction false} LowerConcat(a: string, b: string)
    ensures Lower(a + b) == Lower(a) + Lower(b)
  {
    if a != [] {
      assert (a + b)[0] == a[0];
      assert (a + b)[1..] == a[1..] + b;
      LowerConcat(a[1..], b);
    }
  }

  /** Lower-casing introduces no wildcard. */
  lemma LowerNoWildcards(b: string)
    requires NoWildcards(b)
    ensures NoWildcards(Lower(b))
  {
    var r := Lower(b);
    forall i | 0 <= i < |r|
      ensures r[i] != '%' && r[i] != '_' && r[i] != '*'
    {
      assert LowerChar(r[i]) == LowerChar(b[i]);
    }
  }

  /** `ILIKE '%b%'` with a wildcard-free `b` is a case-insensitive `includes`. */
  lemma ILikeContains(s: string, b: string)
    requires NoWildcards(b)
    ensures ILikeMatch(s, "%" + b + "%") <==> Contains(Lower(s), Lower(b))
  {
    LowerConcat("%" + b, "%");
    LowerConcat("%", b);
    assert Lower("%") == "%";
    LowerNoWildcards(b);
    LikeContains(Lower(s), Lower(b));
  }

  /** The value of a filtered column of a pet row; `null` is `None`. */
  function Column(p: Pet, column: string): Option<Value> {
    if column == "species" then Some(Text(p.species))
    else if column == "breed" then (if p.breed.Some? then Some(Text(p.breed.value)) else None)
    else if column == "age" then (if p.age.Some? then Some(Number(p.age.value)) else None)
    else if column == "size" then (if p.size.Some? then Some(Text(p.size.value)) else None)
    else if column == "gender" then (if p.gender.Some? then Some(Text(p.gender.value)) else None)
    else if column == "is_adopted" then Some(Flag(p.isAdopted))
    else None
  }

  /**
   * The row satisfies the condition. A comparison with `null` fails, as in
   * SQL; a range condition compares integers only.
   */
  predicate Holds(p: Pet, c: Condition) {
    match c
    case Eq(col, v) => Column(p, col) == Some(v)
    case ILike(col, pat) =>
      var v := Column(p, col);
      v.Some? && v.value.Text? && ILikeMatch(v.value.text, pat)
    case Gte(col, b) =>
      var v := Column(p, col);
      v.Some? && v.value.Number? && v.value.number.Int? && b.Int? && v.value.number.value >= b.value
    case Lte(col, b) =>
      var v := Column(p, col);
      v.Some? && v.value.Number? && v.value.number.Int? && b.Int? && v.value.number.value <= b.value
  }

  /** The row satisfies every condition of the query. */
  predicate Selected(p: Pet, conditions: seq<Condition>) {
    forall i :: 0 <= i < |conditions| ==> Holds(p, conditions[i])
  }
}
