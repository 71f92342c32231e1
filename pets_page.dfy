/**
 * The pet listing of app/pets/page.tsx: the URL's search parameters are
 * read into a `PetFilters` record, and `getPets` turns that record into a
 * query on the pets table.
 */
module PetsPage {
  import opened Wrappers
  import opened Numbers
  import opened Strings
  import opened Types
  import opened Store
  import opened Router
  import opened Query
  import opened PetFilterPanel

  /** The `searchParams` prop: each parameter name bound to one value. */
  type SearchParams = map<string, string>

  /** `searchParams.key`: the value, or `undefined`. */
  function Get(sp: SearchParams, key: string): Option<string> {
    if key in sp then Some(sp[key]) else None
  }

  /** The search parameters of a query string; a name that repeats keeps its first value. */
  function FromQuery(params: seq<Param>): (sp: SearchParams)
    ensures forall key :: Get(sp, key) == Lookup(params, key)
  {
    if params == [] then map[]
    else FromQuery(params[1..])[params[0].0 := params[0].1]
  }

  /** `s ? Number.parseInt(s) : undefined` on an optional parameter. */
  function AgeParam(s: Option<string>): (r: Option<Num>)
    ensures r.Some? <==> s.Some? && s.value != ""
    ensures r.Some? ==> r.value == ParseInt(s.value)
  {
    if s.Some? && s.value != "" then Some(ParseInt(s.value)) else None
  }

  /** `adopted === "true" ? true : adopted === "false" ? false : undefined`. */
  function AdoptedParam(s: Option<string>): (r: Option<bool>)
    ensures r == Some(true) <==> s == Some("true")
    ensures r == Some(false) <==> s == Some("false")
  {
    if s == Some("true") then Some(true)
    else if s == Some("false") then Some(false)
    else None
  }

  /** The filters the page reads from its search parameters. */
  function ParseFilters(sp: SearchParams): PetFilters {
    PetFilters(
      Get(sp, "species"),
      Get(sp, "breed"),
      AgeParam(Get(sp, "minAge")),
      AgeParam(Get(sp, "maxAge")),
      Get(sp, "size"),
      Get(sp, "gender"),
      AdoptedParam(Get(sp, "adopted")))
  }

  /** The filters with empty text filters dropped, as they are after a trip through the URL. */
  function Canonical(f: PetFilters): PetFilters {
    f.(species := TextValue(f.species), breed := TextValue(f.breed),
       size := TextValue(f.size), gender := TextValue(f.gender))
  }

  /**
   * Applying filters and loading the page they lead to gives the page the
   * same filters back, up to empty text filters: every age, `NaN` and `0`
   * included, and the adopted flag, `false` included, survive.
   */
  lemma UrlRoundTrip(f: PetFilters)
    ensures ParseFilters(FromQuery(FilterParams(f))) == Canonical(f)
  {
    var sp := FromQuery(FilterParams(f));
    ParamPresence(f);
    AgeParamOfNumValue(f.minAge);
    AgeParamOfNumValue(f.maxAge);
    AdoptedParamOfFlagValue(f.isAdopted);
    assert Get(sp, "minAge") == NumValue(f.minAge);
    assert Get(sp, "maxAge") == NumValue(f.maxAge);
    assert Get(sp, "adopted") == FlagValue(f.isAdopted);
  }

  /** Reading back a written age gives the age. */
  lemma AgeParamOfNumValue(x: Option<Num>)
    ensures AgeParam(NumValue(x)) == x
  {
    if x.Some? {
      ParseIntOfToString(x.value);
    }
  }

  /** Reading back a written adopted flag gives the flag. */
  lemma AdoptedParamOfFlagValue(x: Option<bool>)
    ensures AdoptedParam(FlagValue(x)) == x
  {
  }

  /** Filters without empty text values come back unchanged. */
  lemma UrlRoundTripExact(f: PetFilters)
    requires f.species != Some("") && f.breed != Some("") && f.size != Some("") && f.gender != Some("")
    ensures ParseFilters(FromQuery(FilterParams(f))) == f
  {
    UrlRoundTrip(f);
  }

  /** Applying the filters a page was loaded with writes the same parameters again. */
  lemma ReapplyIsStable(f: PetFilters)
    ensures FilterParams(ParseFilters(FromQuery(FilterParams(f)))) == FilterParams(f)
  {
    UrlRoundTrip(f);
  }

  /** `c`, when present, added after the conditions `cs`. */
  function AddCondition(cs: seq<Condition>, c: Option<Condition>): seq<Condition> {
    if c.Some? then cs + [c.value] else cs
  }

  /** `eq("species", …)` for a non-empty species filter. */
  function SpeciesCondition(f: PetFilters): Option<Condition> {
    if TextValue(f.species).Some? then Some(Eq("species", Text(f.species.value))) else None
  }

  /** `ilike("breed", "%" + breed + "%")` for a non-empty breed filter. */
  function BreedCondition(f: PetFilters): Option<Condition> {
    if TextValue(f.breed).Some? then Some(ILike("breed", "%" + f.breed.value + "%")) else None
  }

  /** `gte("age", …)` whenever the minimum age is defined. */
  function MinAgeCondition(f: PetFilters): Option<Condition> {
    if f.minAge.Some? then Some(Gte("age", f.minAge.value)) else None
  }

  /** `lte("age", …)` whenever the maximum age is defined. */
  function MaxAgeCondition(f: PetFilters): Option<Condition> {
    if f.maxAge.Some? then Some(Lte("age", f.maxAge.value)) else None
  }

  /** `eq("size", …)` for a non-empty size filter. */
  function SizeCondition(f: PetFilters): Option<Condition> {
    if TextValue(f.size).Some? then Some(Eq("size", Text(f.size.value))) else None
  }

  /** `eq("gender", …)` for a non-empty gender filter. */
  function GenderCondition(f: PetFilters): Option<Condition> {
    if TextValue(f.gender).Some? then Some(Eq("gender", Text(f.gender.value))) else None
  }

  /** `eq("is_adopted", …)` whenever the adopted flag is defined. */
  function AdoptedCondition(f: PetFilters): Option<Condition> {
    if f.isAdopted.Some? then Some(Eq("is_adopted", Flag(f.isAdopted.value))) else None
  }

  /** The conditions `getPets` adds for `f`, in order. */
  function PetConditions(f: PetFilters): seq<Condition> {
    var c1 := AddCondition([], SpeciesCondition(f));
    var c2 := AddCondition(c1, BreedCondition(f));
    var c3 := AddCondition(c2, MinAgeCondition(f));
    var c4 := AddCondition(c3, MaxAgeCondition(f));
    var c5 := AddCondition(c4, SizeCondition(f));
    var c6 := AddCondition(c5, GenderCondition(f));
    AddCondition(c6, AdoptedCondition(f))
  }

  /** The row satisfies the condition, if there is one. */
  predicate Admits(p: Pet, c: Option<Condition>) {
    c.Some? ==> Holds(p, c.value)
  }

  /** The optional age `age` is an integer of at least `bound`; `null` and `NaN` are never compared true. */
  predicate AtLeast(age: Option<Num>, bound: Num) {
    age.Some? && age.value.Int? && bound.Int? && age.value.value >= bound.value
  }

  /** The optional age `age` is an integer of at most `bound`. */
  predicate AtMost(age: Option<Num>, bound: Num) {
    age.Some? && age.value.Int? && bound.Int? && age.value.value <= bound.value
  }

  /**
   * The pet meets the filters, field by field: equal species, size and
   * gender, a breed that contains the breed filter in any letter case, an
   * age within the bounds, and the adoption flag; absent and empty text
   * filters impose nothing.
   */
  predicate MatchesFilters(p: Pet, f: PetFilters) {
    (TextValue(f.species).Some? ==> p.species == f.species.value)
    && (TextValue(f.breed).Some? ==> p.breed.Some? && Contains(Lower(p.breed.value), Lower(f.breed.value)))
    && (f.minAge.Some? ==> AtLeast(p.age, f.minAge.value))
    && (f.maxAge.Some? ==> AtMost(p.age, f.maxAge.value))
    && (TextValue(f.size).Some? ==> p.size == f.size)
    && (TextValue(f.gender).Some? ==> p.gender == f.gender)
    && (f.isAdopted.Some? ==> p.isAdopted == f.isAdopted.value)
  }

  /** The filtered column names are pairwise distinct. */
  lemma ColumnNamesDistinct()
    ensures "species" != "breed"
    ensures "species" != "age"
    ensures "species" != "size"
    ensures "species" != "gender"
    ensures "species" != "is_adopted"
    ensures "breed" != "age"
    ensures "breed" != "size"
    ensures "breed" != "gender"
    ensures "breed" != "is_adopted"
    ensures "age" != "size"
    ensures "age" != "gender"
    ensures "age" != "is_adopted"
    ensures "size" != "gender"
    ensures "size" != "is_adopted"
    ensures "gender" != "is_adopted"
  {
    assert |"species"| != |"breed"|;
    assert |"species"| != |"age"|;
    assert |"species"| != |"size"|;
    assert |"species"| != |"gender"|;
    assert |"species"| != |"is_adopted"|;
    assert |"breed"| != |"age"|;
    assert |"breed"| != |"size"|;
    assert |"breed"| != |"gender"|;
    assert |"breed"| != |"is_adopted"|;
    assert |"age"| != |"size"|;
    assert |"age"| != |"gender"|;
    assert |"age"| != |"is_adopted"|;
    assert |"size"| != |"gender"|;
    assert |"size"| != |"is_adopted"|;
    assert |"gender"| != |"is_adopted"|;
  }

  /** Adding a condition narrows the selection to the rows that also satisfy it. */
  lemma SelectedAdd(p: Pet, cs: seq<Condition>, c: Option<Condition>)
    ensures Selected(p, AddCondition(cs, c)) <==> Selected(p, cs) && Admits(p, c)
  {
    if c.Some? {
      var all := cs + [c.value];
      assert all[|cs|] == c.value;
      assert forall i :: 0 <= i < |cs| ==> all[i] == cs[i];
    }
  }

  /** The species condition selects the pets of that species. */
  lemma SpeciesMeaning(p: Pet, f: PetFilters)
    ensures Admits(p, SpeciesCondition(f)) <==> (TextValue(f.species).Some? ==> p.species == f.species.value)
  {
  }

  /** The breed condition selects the pets whose breed contains the filter in any letter case. */
  lemma BreedMeaning(p: Pet, f: PetFilters)
    requires TextValue(f.breed).Some? ==> NoWildcards(f.breed.value)
    ensures Admits(p, BreedCondition(f)) <==>
      (TextValue(f.breed).Some? ==> p.breed.Some? && Contains(Lower(p.breed.value), Lower(f.breed.value)))
  {
    ColumnNamesDistinct();
    if TextValue(f.breed).Some? && p.breed.Some? {
      ILikeContains(p.breed.value, f.breed.value);
    }
  }

  /** The minimum-age condition selects the pets with an integer age of at least the bound. */
  lemma MinAgeMeaning(p: Pet, f: PetFilters)
    ensures Admits(p, MinAgeCondition(f)) <==> (f.minAge.Some? ==> AtLeast(p.age, f.minAge.value))
  {
    ColumnNamesDistinct();
  }

  /** The maximum-age condition selects the pets with an integer age of at most the bound. */
  lemma MaxAgeMeaning(p: Pet, f: PetFilters)
    ensures Admits(p, MaxAgeCondition(f)) <==> (f.maxAge.Some? ==> AtMost(p.age, f.maxAge.value))
  {
    ColumnNamesDistinct();
  }

  /** The size condition selects the pets of that size. */
  lemma SizeMeaning(p: Pet, f: PetFilters)
    ensures Admits(p, SizeCondition(f)) <==> (TextValue(f.size).Some? ==> p.size == f.size)
  {
    ColumnNamesDistinct();
  }

  /** The gender condition selects the pets of that gender. */
  lemma GenderMeaning(p: Pet, f: PetFilters)
    ensures Admits(p, GenderCondition(f)) <==> (TextValue(f.gender).Some? ==> p.gender == f.gender)
  {
    ColumnNamesDistinct();
  }

  /** The adopted condition selects the pets with that adoption flag. */
  lemma AdoptedMeaning(p: Pet, f: PetFilters)
    ensures Admits(p, AdoptedCondition(f)) <==> (f.isAdopted.Some? ==> p.isAdopted == f.isAdopted.value)
  {
    ColumnNamesDistinct();
  }

  /**
   * The query of `getPets` selects exactly the pets that meet the filters,
   * provided the breed filter holds no `LIKE` wildcard (`%` or `_`), which
   * the page passes on unescaped.
   */
  lemma QueryMeansFilters(p: Pet, f: PetFilters)
    requires TextValue(f.breed).Some? ==> NoWildcards(f.breed.value)
    ensures Selected(p, PetConditions(f)) <==> MatchesFilters(p, f)
  {
    var c1 := AddCondition([], SpeciesCondition(f));
    var c2 := AddCondition(c1, BreedCondition(f));
    var c3 := AddCondition(c2, MinAgeCondition(f));
    var c4 := AddCondition(c3, MaxAgeCondition(f));
    var c5 := AddCondition(c4, SizeCondition(f));
    var c6 := AddCondition(c5, GenderCondition(f));
    SelectedAdd(p, [], SpeciesCondition(f));
    SelectedAdd(p, c1, BreedCondition(f));
    SelectedAdd(p, c2, MinAgeCondition(f));
    SelectedAdd(p, c3, MaxAgeCondition(f));
    SelectedAdd(p, c4, SizeCondition(f));
    SelectedAdd(p, c5, GenderCondition(f));
    SelectedAdd(p, c6, AdoptedCondition(f));
    SpeciesMeaning(p, f);
    BreedMeaning(p, f);
    MinAgeMeaning(p, f);
    MaxAgeMeaning(p, f);
    SizeMeaning(p, f);
    GenderMeaning(p, f);
    AdoptedMeaning(p, f);
  }

  /** The listing reached by applying filters runs the query of the filters that were applied. */
  lemma AppliedQuery(f: PetFilters)
    ensures PetConditions(ParseFilters(FromQuery(FilterParams(f)))) == PetConditions(f)
  {
    UrlRoundTrip(f);
    var g := Canonical(f);
    assert SpeciesCondition(g) == SpeciesCondition(f) && BreedCondition(g) == BreedCondition(f);
    assert SizeCondition(g) == SizeCondition(f) && GenderCondition(g) == GenderCondition(f);
  }

  /** Every pet a query selects satisfies the query's first condition, if it has one. */
  lemma SelectedFirst(p: Pet, f: PetFilters)
    requires Selected(p, PetConditions(f))
    ensures Admits(p, SpeciesCondition(f))
  {
    var c1 := AddCondition([], SpeciesCondition(f));
    var c2 := AddCondition(c1, BreedCondition(f));
    var c3 := AddCondition(c2, MinAgeCondition(f));
    var c4 := AddCondition(c3, MaxAgeCondition(f));
    var c5 := AddCondition(c4, SizeCondition(f));
    var c6 := AddCondition(c5, GenderCondition(f));
    SelectedAdd(p, c6, AdoptedCondition(f));
    SelectedAdd(p, c5, GenderCondition(f));
    SelectedAdd(p, c4, SizeCondition(f));
    SelectedAdd(p, c3, MaxAgeCondition(f));
    SelectedAdd(p, c2, MinAgeCondition(f));
    SelectedAdd(p, c1, BreedCondition(f));
    SelectedAdd(p, [], SpeciesCondition(f));
  }

  /**
   * As written, picking "All species" stores the species "all", and the
   * listing then shows only pets whose species is literally "all": a dog,
   * for one, disappears.
   */
  lemma AllSpeciesAsWritten(p: Pet, f: PetFilters)
    requires p.species != "all"
    ensures !Selected(p, PetConditions(f.(species := NonEmpty("all"))))
  {
    var g := f.(species := NonEmpty("all"));
    if Selected(p, PetConditions(g)) {
      SelectedFirst(p, g);
      SpeciesMeaning(p, g);
    }
  }

  /**
   * As written, choosing "All species" and applying the filters empties the
   * listing: the species select stores "all", the panel writes it into the
   * URL, the page reads it back and asks for pets whose species is "all".
   */
  lemma AllSpeciesListsNothing(p: Pet, f: PetFilters)
    requires p.species != "all"
    ensures !Selected(p, PetConditions(ParseFilters(FromQuery(FilterParams(f.(species := NonEmpty("all")))))))
  {
    AppliedQuery(f.(species := NonEmpty("all")));
    AllSpeciesAsWritten(p, f);
  }

  /**
   * With the evident intent, the "all" option of each select clears its
   * filter, and the listing is the one without that filter.
   */
  lemma AllOptionClearsFilter(p: Pet, f: PetFilters)
    ensures Selected(p, PetConditions(f.(species := SelectChoice("all")))) <==> Selected(p, PetConditions(f.(species := None)))
    ensures Selected(p, PetConditions(f.(size := SelectChoice("all")))) <==> Selected(p, PetConditions(f.(size := None)))
    ensures Selected(p, PetConditions(f.(gender := SelectChoice("all")))) <==> Selected(p, PetConditions(f.(gender := None)))
  {
  }

  /**
   * The range the slider effect writes on mounting is a bound on every
   * applied query: a pet whose age is unknown is never listed once the
   * filters are applied.
   */
  lemma SyncedRangeExcludesUnknownAge(p: Pet, f: PetFilters, low: int, high: int)
    requires p.age.None?
    ensures !Selected(p, PetConditions(ParseFilters(FromQuery(FilterParams(f.(minAge := Some(Int(low)), maxAge := Some(Int(high))))))))
  {
    var g := f.(minAge := Some(Int(low)), maxAge := Some(Int(high)));
    AppliedQuery(g);
    var c1 := AddCondition([], SpeciesCondition(g));
    var c2 := AddCondition(c1, BreedCondition(g));
    var c3 := AddCondition(c2, MinAgeCondition(g));
    var c4 := AddCondition(c3, MaxAgeCondition(g));
    var c5 := AddCondition(c4, SizeCondition(g));
    var c6 := AddCondition(c5, GenderCondition(g));
    SelectedAdd(p, c6, AdoptedCondition(g));
    SelectedAdd(p, c5, GenderCondition(g));
    SelectedAdd(p, c4, SizeCondition(g));
    SelectedAdd(p, c3, MaxAgeCondition(g));
    SelectedAdd(p, c2, MinAgeCondition(g));
    MinAgeMeaning(p, g);
  }

  /**
   * `getPets`: the query on the pets table, newest first, with one
   * condition per present filter; and the rows it yields, or none when the
   * query fails.
   */
  method GetPets(filters: PetFilters, reply: Reply<seq<Pet>>) returns (query: PetsQuery, pets: seq<Pet>)
    ensures query == PetsQuery("pets", "created_at", false, PetConditions(filters))
    ensures reply.error.Some? ==> pets == []
    ensures reply.error.None? ==> pets == reply.data.GetOr([])
  {
    var conditions: seq<Condition> := [];
    ghost var expected: seq<Condition> := [];
    if filters.species.Some? && filters.species.value != "" {
      conditions := conditions + [Eq("species", Text(filters.species.value))];
    }
    expected := AddCondition(expected, SpeciesCondition(filters));
    assert conditions == expected;
    if filters.breed.Some? && filters.breed.value != "" {
      conditions := conditions + [ILike("breed", "%" + filters.breed.value + "%")];
    }
    expected := AddCondition(expected, BreedCondition(filters));
    assert conditions == expected;
    if filters.minAge.Some? {
      conditions := conditions + [Gte("age", filters.minAge.value)];
    }
    expected := AddCondition(expected, MinAgeCondition(filters));
    assert conditions == expected;
    if filters.maxAge.Some? {
      conditions := conditions + [Lte("age", filters.maxAge.value)];
    }
    expected := AddCondition(expected, MaxAgeCondition(filters));
    assert conditions == expected;
    if filters.size.Some? && filters.size.value != "" {
      conditions := conditions + [Eq("size", Text(filters.size.value))];
    }
    expected := AddCondition(expected, SizeCondition(filters));
    assert conditions == expected;
    if filters.gender.Some? && filters.gender.value != "" {
      conditions := conditions + [Eq("gender", Text(filters.gender.value))];
    }
    expected := AddCondition(expected, GenderCondition(filters));
    assert conditions == expected;
    if filters.isAdopted.Some? {
      conditions := conditions + [Eq("is_adopted", Flag(filters.isAdopted.value))];
    }
    expected := AddCondition(expected, AdoptedCondition(filters));
    assert conditions == expected;
    query := PetsQuery("pets", "created_at", false, conditions);
    if reply.error.Some? {
      pets := [];
    } else {
      pets := reply.data.GetOr([]);
    }
  }
}
