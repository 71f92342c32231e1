/**
 * The filter panel of components/pet-filters.tsx: a `PetFilters` record and
 * an age range edited by the controls, serialised into URL query parameters
 * when the filters are applied.
 */
module PetFilterPanel {
  import opened Wrappers
  import opened Numbers
  import opened Types
  import opened Router

  /** Some entry of `params` has key `key`. */
  predicate HasKey(params: seq<Param>, key: string) {
    exists i :: 0 <= i < |params| && params[i].0 == key
  }

  /** `params.get(key)`: the value of the first entry with key `key`. */
  function Lookup(params: seq<Param>, key: string): (r: Option<string>)
    ensures r.None? <==> !HasKey(params, key)
  {
    if params == [] then None
    else if params[0].0 == key then Some(params[0].1)
    else
      assert forall i :: 1 <= i < |params| ==> params[i] == params[1..][i - 1];
      Lookup(params[1..], key)
  }

  /** `params` without its entries with key `key`; the other entries stay, in order. */
  function RemoveKey(params: seq<Param>, key: string): (r: seq<Param>)
    ensures !HasKey(r, key)
    ensures |r| <= |params|
    ensures !HasKey(params, key) ==> r == params
  {
    if params == [] then []
    else
      assert forall i :: 1 <= i < |params| ==> params[i] == params[1..][i - 1];
      if params[0].0 == key then RemoveKey(params[1..], key)
      else [params[0]] + RemoveKey(params[1..], key)
  }

  /** Removing a key from two runs of entries one after the other keeps their order. */
  lemma {:induction false} RemoveKeyConcat(a: seq<Param>, b: seq<Param>, key: string)
    ensures RemoveKey(a + b, key) == RemoveKey(a, key) + RemoveKey(b, key)
  {
    if a == [] {
      assert a + b == b;
    } else {
      var x, t := a[0], a[1..];
      RemoveKeyConcat(t, b, key);
      SplitFirst(a, b);
      RemoveKeyCons(x, t + b, key);
      SplitFirst(a, []);
      assert a + [] == a;
      RemoveKeyCons(x, t, key);
      if x.0 != key {
        Associative([x], RemoveKey(t, key), RemoveKey(b, key));
      }
    }
  }

  /** A non-empty run followed by another is its first entry followed by the rest of both. */
  lemma SplitFirst<T>(a: seq<T>, b: seq<T>)
    requires a != []
    ensures a + b == [a[0]] + (a[1..] + b)
  {
  }

  /** Concatenation is associative. */
  lemma Associative<T>(a: seq<T>, b: seq<T>, c: seq<T>)
    ensures a + (b + c) == (a + b) + c
  {
  }

  /** Removing a key from an entry followed by more entries. */
  lemma RemoveKeyCons(x: Param, t: seq<Param>, key: string)
    ensures RemoveKey([x] + t, key) == if x.0 == key then RemoveKey(t, key) else [x] + RemoveKey(t, key)
  {
    assert ([x] + t)[1..] == t;
  }

  /** The entries left after removing a key are exactly those with another key. */
  lemma {:induction false} RemoveKeyMembers(params: seq<Param>, key: string, p: Param)
    ensures p in RemoveKey(params, key) <==> p in params && p.0 != key
  {
    if params != [] {
      RemoveKeyMembers(params[1..], key, p);
      assert params == [params[0]] + params[1..];
    }
  }

  /** Removing one key leaves every other key's `get` as it was. */
  lemma {:induction false} RemoveKeyLookup(params: seq<Param>, key: string, other: string)
    requires other != key
    ensures Lookup(RemoveKey(params, key), other) == Lookup(params, other)
  {
    if params != [] {
      RemoveKeyLookup(params[1..], key, other);
    }
  }

  /**
   * `params.set(key, value)`: the first entry with that key takes the value
   * and later ones are dropped; with no such entry, the pair is appended.
   */
  function SetParam(params: seq<Param>, key: string, value: string): (r: seq<Param>)
    ensures !HasKey(params, key) ==> r == params + [(key, value)]
  {
    if params == [] then [(key, value)]
    else if params[0].0 == key then [(key, value)] + RemoveKey(params[1..], key)
    else
      assert !HasKey(params, key) ==> !HasKey(params[1..], key) by {
        assert forall i :: 1 <= i < |params| ==> params[i] == params[1..][i - 1];
      }
      [params[0]] + SetParam(params[1..], key, value)
  }

  /** After `params.set(key, value)`, `params.get(key)` is `value`. */
  lemma {:induction false} SetParamLookup(params: seq<Param>, key: string, value: string)
    ensures Lookup(SetParam(params, key, value), key) == Some(value)
  {
    if params != [] && params[0].0 != key {
      SetParamLookup(params[1..], key, value);
    }
  }

  /** `value || undefined` (or `value || null`): the empty string is no value. */
  function NonEmpty(value: string): (r: Option<string>)
    ensures r.None? <==> value == ""
    ensures r.Some? ==> r.value == value
  {
    if value == "" then None else Some(value)
  }

  /**
   * The value a filter select evidently means to store: the empty value and
   * the "all" option ("All species", "Any size", "Any gender") clear the
   * filter, any other option is stored as it is. As written, the selects
   * store `value || undefined`, that is `NonEmpty(value)`, which keeps "all".
   */
  function SelectChoice(value: string): (r: Option<string>)
    ensures r.None? <==> value == "" || value == "all"
    ensures r.Some? ==> r.value == value
  {
    if value == "" || value == "all" then None else Some(value)
  }

  /** `x || fallback` on an optional number: absent, `NaN` and `0` give `fallback`. */
  function NumOr(x: Option<Num>, fallback: int): (r: int)
    ensures x == Some(Int(r)) || r == fallback
    ensures (x.Some? && x.value.Int? && x.value.value != 0) ==> x == Some(Int(r))
    ensures x.None? || x == Some(NaN) || x == Some(Int(0)) ==> r == fallback
  {
    match x
    case Some(Int(n)) => if n != 0 then n else fallback
    case _ => fallback
  }

  /** The text of a boolean, as `toString()` writes it. */
  function BoolText(b: bool): string {
    if b then "true" else "false"
  }

  /** `params.set(key, v)` when `v` is present; otherwise `params` unchanged. */
  function SetIf(params: seq<Param>, key: string, v: Option<string>): seq<Param> {
    if v.Some? then SetParam(params, key, v.value) else params
  }

  /** The parameter list with `(key, v)` appended when `v` is present. */
  function AddIf(params: seq<Param>, key: string, v: Option<string>): seq<Param> {
    if v.Some? then params + [(key, v.value)] else params
  }

  /** On a key not yet set, a conditional `set` is a conditional append. */
  lemma SetIfFresh(params: seq<Param>, key: string, v: Option<string>)
    requires !HasKey(params, key)
    ensures SetIf(params, key, v) == AddIf(params, key, v)
  {
  }

  /** A text filter is written when it is a non-empty string (JavaScript truthiness). */
  function TextValue(v: Option<string>): (r: Option<string>)
    ensures r.Some? <==> v.Some? && v.value != ""
    ensures r.Some? ==> r == v
  {
    if v.Some? && v.value != "" then v else None
  }

  /** A number filter is written whenever it is defined, `0` and `NaN` included. */
  function NumValue(v: Option<Num>): (r: Option<string>)
    ensures r.Some? <==> v.Some?
  {
    if v.Some? then Some(NumToString(v.value)) else None
  }

  /** The adopted flag is written whenever it is defined, `false` included. */
  function FlagValue(v: Option<bool>): (r: Option<string>)
    ensures r.Some? <==> v.Some?
  {
    if v.Some? then Some(BoolText(v.value)) else None
  }

  /** The query parameters `applyFilters` builds for `f`: one `set` per present filter, in the order of the source. */
  function FilterParams(f: PetFilters): seq<Param> {
    var p1 := SetIf([], "species", TextValue(f.species));
    var p2 := SetIf(p1, "breed", TextValue(f.breed));
    var p3 := SetIf(p2, "minAge", NumValue(f.minAge));
    var p4 := SetIf(p3, "maxAge", NumValue(f.maxAge));
    var p5 := SetIf(p4, "size", TextValue(f.size));
    var p6 := SetIf(p5, "gender", TextValue(f.gender));
    SetIf(p6, "adopted", FlagValue(f.isAdopted))
  }

  /** The parameter names, in the order `applyFilters` sets them. */
  const FilterKeys: seq<string> := ["species", "breed", "minAge", "maxAge", "size", "gender", "adopted"]

  /** The value written for the filter behind `FilterKeys[n]`, if any. */
  function Present(f: PetFilters, n: nat): Option<string>
    requires n < |FilterKeys|
  {
    if n == 0 then TextValue(f.species)
    else if n == 1 then TextValue(f.breed)
    else if n == 2 then NumValue(f.minAge)
    else if n == 3 then NumValue(f.maxAge)
    else if n == 4 then TextValue(f.size)
    else if n == 5 then TextValue(f.gender)
    else FlagValue(f.isAdopted)
  }

  /** A reference definition: the first `n` present filters, appended in the fixed order. */
  function Appended(f: PetFilters, n: nat): seq<Param>
    requires n <= |FilterKeys|
  {
    if n == 0 then [] else AddIf(Appended(f, n - 1), FilterKeys[n - 1], Present(f, n - 1))
  }

  /** The position of a key in the fixed order species, breed, minAge, maxAge, size, gender, adopted. */
  function KeyRank(key: string): nat {
    if key == "species" then 0
    else if key == "breed" then 1
    else if key == "minAge" then 2
    else if key == "maxAge" then 3
    else if key == "size" then 4
    else if key == "gender" then 5
    else if key == "adopted" then 6
    else 7
  }

  /** The keys of `params` strictly follow the fixed order; in particular none repeats. */
  predicate InKeyOrder(params: seq<Param>) {
    forall i, j :: 0 <= i < j < |params| ==> KeyRank(params[i].0) < KeyRank(params[j].0)
  }

  /** Every key of `params` comes before position `n` of the fixed order. */
  predicate RanksBelow(params: seq<Param>, n: nat) {
    forall i :: 0 <= i < |params| ==> KeyRank(params[i].0) < n
  }

  /** Looking a key up in two lists joined finds it in the first when it is there. */
  lemma {:induction false} LookupAppend(ps: seq<Param>, t: seq<Param>, key: string)
    ensures Lookup(ps + t, key) == if HasKey(ps, key) then Lookup(ps, key) else Lookup(t, key)
  {
    if ps == [] {
      assert ps + t == t;
    } else if ps[0].0 == key {
      assert (ps + t)[0] == ps[0];
      assert HasKey(ps, key) by { assert ps[0].0 == key; }
    } else {
      assert (ps + t)[1..] == ps[1..] + t;
      LookupAppend(ps[1..], t, key);
      assert HasKey(ps, key) <==> HasKey(ps[1..], key) by {
        assert forall i :: 1 <= i < |ps| ==> ps[i] == ps[1..][i - 1];
      }
    }
  }

  /** A conditional append under the key of rank `n`, onto keys of lower rank, keeps the order. */
  lemma AddIfInKeyOrder(ps: seq<Param>, key: string, v: Option<string>, n: nat)
    requires KeyRank(key) == n
    requires InKeyOrder(ps) && RanksBelow(ps, n)
    ensures InKeyOrder(AddIf(ps, key, v)) && RanksBelow(AddIf(ps, key, v), n + 1)
    ensures !HasKey(ps, key)
  {
  }

  /** The seven parameter names are pairwise distinct. */
  lemma KeyNamesDistinct()
    ensures "species" != "breed"
    ensures "species" != "minAge"
    ensures "species" != "maxAge"
    ensures "species" != "size"
    ensures "species" != "gender"
    ensures "species" != "adopted"
    ensures "breed" != "minAge"
    ensures "breed" != "maxAge"
    ensures "breed" != "size"
    ensures "breed" != "gender"
    ensures "breed" != "adopted"
    ensures "minAge" != "maxAge"
    ensures "minAge" != "size"
    ensures "minAge" != "gender"
    ensures "minAge" != "adopted"
    ensures "maxAge" != "size"
    ensures "maxAge" != "gender"
    ensures "maxAge" != "adopted"
    ensures "size" != "gender"
    ensures "size" != "adopted"
    ensures "gender" != "adopted"
  {
    assert |"species"| != |"breed"|;
    assert |"species"| != |"minAge"|;
    assert |"species"| != |"maxAge"|;
    assert |"species"| != |"size"|;
    assert |"species"| != |"gender"|;
    assert "species"[0] != "adopted"[0];
    assert |"breed"| != |"minAge"|;
    assert |"breed"| != |"maxAge"|;
    assert |"breed"| != |"size"|;
    assert |"breed"| != |"gender"|;
    assert |"breed"| != |"adopted"|;
    assert "minAge"[1] != "maxAge"[1];
    assert |"minAge"| != |"size"|;
    assert "minAge"[0] != "gender"[0];
    assert |"minAge"| != |"adopted"|;
    assert |"maxAge"| != |"size"|;
    assert "maxAge"[0] != "gender"[0];
    assert |"maxAge"| != |"adopted"|;
    assert |"size"| != |"gender"|;
    assert |"size"| != |"adopted"|;
    assert |"gender"| != |"adopted"|;
  }
  /** The ranks of the seven parameter names. */
  lemma KeyRanks()
    ensures KeyRank("species") == 0
    ensures KeyRank("breed") == 1
    ensures KeyRank("minAge") == 2
    ensures KeyRank("maxAge") == 3
    ensures KeyRank("size") == 4
    ensures KeyRank("gender") == 5
    ensures KeyRank("adopted") == 6
  {
    KeyNamesDistinct();
  }


  /** A conditional append under another key leaves a lookup unchanged. */
  lemma LookupAddIfOther(ps: seq<Param>, key: string, v: Option<string>, k: string)
    requires key != k
    ensures Lookup(AddIf(ps, key, v), k) == Lookup(ps, k)
  {
    if v.Some? {
      LookupAppend(ps, [(key, v.value)], k);
    }
  }

  /** A conditional append under a key not yet set makes the lookup find exactly `v`. */
  lemma LookupAddIfFresh(ps: seq<Param>, key: string, v: Option<string>)
    requires !HasKey(ps, key)
    ensures Lookup(AddIf(ps, key, v), key) == v
  {
    if v.Some? {
      LookupAppend(ps, [(key, v.value)], key);
    }
  }

  /** Position `n` of the fixed order holds the `n`-th parameter name. */
  lemma KeyRankAt(n: nat)
    requires n < |FilterKeys|
    ensures KeyRank(FilterKeys[n]) == n
  {
    KeyRanks();
  }

  /** The first `n` appended filters follow the fixed order and use only its first `n` positions. */
  lemma {:induction false} AppendedOrder(f: PetFilters, n: nat)
    requires n <= |FilterKeys|
    ensures InKeyOrder(Appended(f, n)) && RanksBelow(Appended(f, n), n)
  {
    if n > 0 {
      AppendedOrder(f, n - 1);
      KeyRankAt(n - 1);
      AddIfInKeyOrder(Appended(f, n - 1), FilterKeys[n - 1], Present(f, n - 1), n - 1);
    }
  }

  /** Looking up the `j`-th name among the first `n` appended filters finds its value exactly when `j < n`. */
  lemma {:induction false} AppendedLookup(f: PetFilters, n: nat, j: nat)
    requires n <= |FilterKeys| && j < |FilterKeys|
    ensures Lookup(Appended(f, n), FilterKeys[j]) == if j < n then Present(f, j) else None
  {
    if n > 0 {
      var prev := Appended(f, n - 1);
      AppendedOrder(f, n - 1);
      KeyRankAt(n - 1);
      KeyRankAt(j);
      if j == n - 1 {
        AddIfInKeyOrder(prev, FilterKeys[j], Present(f, j), j);
        LookupAddIfFresh(prev, FilterKeys[j], Present(f, j));
      } else {
        AppendedLookup(f, n - 1, j);
        LookupAddIfOther(prev, FilterKeys[n - 1], Present(f, n - 1), FilterKeys[j]);
      }
    }
  }

  /**
   * Every `set` of `applyFilters` meets a key not yet set, so it appends:
   * the parameters are the present filters in the fixed order, and that
   * order is strict, so no key repeats.
   */
  lemma ParamsAppended(f: PetFilters)
    ensures FilterParams(f) == Appended(f, |FilterKeys|)
    ensures InKeyOrder(FilterParams(f))
  {
    assert !HasKey(Appended(f, 0), FilterKeys[0]) by {
      AppendedOrder(f, 0);
      KeyRankAt(0);
      AddIfInKeyOrder(Appended(f, 0), FilterKeys[0], Present(f, 0), 0);
    }
    SetIfFresh(Appended(f, 0), FilterKeys[0], Present(f, 0));
    assert !HasKey(Appended(f, 1), FilterKeys[1]) by {
      AppendedOrder(f, 1);
      KeyRankAt(1);
      AddIfInKeyOrder(Appended(f, 1), FilterKeys[1], Present(f, 1), 1);
    }
    SetIfFresh(Appended(f, 1), FilterKeys[1], Present(f, 1));
    assert !HasKey(Appended(f, 2), FilterKeys[2]) by {
      AppendedOrder(f, 2);
      KeyRankAt(2);
      AddIfInKeyOrder(Appended(f, 2), FilterKeys[2], Present(f, 2), 2);
    }
    SetIfFresh(Appended(f, 2), FilterKeys[2], Present(f, 2));
    assert !HasKey(Appended(f, 3), FilterKeys[3]) by {
      AppendedOrder(f, 3);
      KeyRankAt(3);
      AddIfInKeyOrder(Appended(f, 3), FilterKeys[3], Present(f, 3), 3);
    }
    SetIfFresh(Appended(f, 3), FilterKeys[3], Present(f, 3));
    assert !HasKey(Appended(f, 4), FilterKeys[4]) by {
      AppendedOrder(f, 4);
      KeyRankAt(4);
      AddIfInKeyOrder(Appended(f, 4), FilterKeys[4], Present(f, 4), 4);
    }
    SetIfFresh(Appended(f, 4), FilterKeys[4], Present(f, 4));
    assert !HasKey(Appended(f, 5), FilterKeys[5]) by {
      AppendedOrder(f, 5);
      KeyRankAt(5);
      AddIfInKeyOrder(Appended(f, 5), FilterKeys[5], Present(f, 5), 5);
    }
    SetIfFresh(Appended(f, 5), FilterKeys[5], Present(f, 5));
    assert !HasKey(Appended(f, 6), FilterKeys[6]) by {
      AppendedOrder(f, 6);
      KeyRankAt(6);
      AddIfInKeyOrder(Appended(f, 6), FilterKeys[6], Present(f, 6), 6);
    }
    SetIfFresh(Appended(f, 6), FilterKeys[6], Present(f, 6));
    AppendedOrder(f, |FilterKeys|);
  }

  /**
   * Each key is set exactly when its filter is present: the text filters
   * when they are non-empty, the ages and the adopted flag whenever they are
   * defined (`0`, `NaN` and `false` included), under the key "adopted".
   */
  lemma ParamPresence(f: PetFilters)
    ensures Lookup(FilterParams(f), "species") == TextValue(f.species)
    ensures Lookup(FilterParams(f), "breed") == TextValue(f.breed)
    ensures Lookup(FilterParams(f), "minAge") == NumValue(f.minAge)
    ensures Lookup(FilterParams(f), "maxAge") == NumValue(f.maxAge)
    ensures Lookup(FilterParams(f), "size") == TextValue(f.size)
    ensures Lookup(FilterParams(f), "gender") == TextValue(f.gender)
    ensures Lookup(FilterParams(f), "adopted") == FlagValue(f.isAdopted)
  {
    ParamsAppended(f);
    AppendedLookup(f, |FilterKeys|, 0);
    AppendedLookup(f, |FilterKeys|, 1);
    AppendedLookup(f, |FilterKeys|, 2);
    AppendedLookup(f, |FilterKeys|, 3);
    AppendedLookup(f, |FilterKeys|, 4);
    AppendedLookup(f, |FilterKeys|, 5);
    AppendedLookup(f, |FilterKeys|, 6);
  }

  class FilterPanel {
    const pathname: string
    var filters: PetFilters
    var ageRange: (int, int)
    /** The age-range effect is due: React runs it after mounting and after every `setAgeRange`. */
    var syncPending: bool

    /** The initial state: the given filters and the range `[minAge || 0, maxAge || 15]`. */
    constructor (initialFilters: PetFilters, pathname: string)
      ensures this.pathname == pathname && filters == initialFilters
      ensures ageRange == (NumOr(initialFilters.minAge, 0), NumOr(initialFilters.maxAge, 15))
      ensures syncPending
    {
      this.pathname := pathname;
      filters := initialFilters;
      ageRange := (NumOr(initialFilters.minAge, 0), NumOr(initialFilters.maxAge, 15));
      syncPending := true;
    }

    /** `applyFilters`: navigate to the current path with one parameter per present filter, set in the fixed order. */
    method ApplyFilters() returns (outcome: Outcome)
      ensures outcome == Push(pathname, FilterParams(filters))
    {
      var f := filters;
      var params: seq<Param> := [];
      ghost var expected: seq<Param> := [];
      if f.species.Some? && f.species.value != "" {
        params := SetParam(params, "species", f.species.value);
      }
      expected := SetIf(expected, "species", TextValue(f.species));
      assert params == expected;
      if f.breed.Some? && f.breed.value != "" {
        params := SetParam(params, "breed", f.breed.value);
      }
      expected := SetIf(expected, "breed", TextValue(f.breed));
      assert params == expected;
      if f.minAge.Some? {
        params := SetParam(params, "minAge", NumToString(f.minAge.value));
      }
      expected := SetIf(expected, "minAge", NumValue(f.minAge));
      assert params == expected;
      if f.maxAge.Some? {
        params := SetParam(params, "maxAge", NumToString(f.maxAge.value));
      }
      expected := SetIf(expected, "maxAge", NumValue(f.maxAge));
      assert params == expected;
      if f.size.Some? && f.size.value != "" {
        params := SetParam(params, "size", f.size.value);
      }
      expected := SetIf(expected, "size", TextValue(f.size));
      assert params == expected;
      if f.gender.Some? && f.gender.value != "" {
        params := SetParam(params, "gender", f.gender.value);
      }
      expected := SetIf(expected, "gender", TextValue(f.gender));
      assert params == expected;
      if f.isAdopted.Some? {
        params := SetParam(params, "adopted", BoolText(f.isAdopted.value));
      }
      expected := SetIf(expected, "adopted", FlagValue(f.isAdopted));
      assert params == expected;
      outcome := Push(pathname, params);
    }

    /** `resetFilters`: the empty record, the range [0, 15], and navigation to the bare path; the age-range effect becomes due. */
    method ResetFilters() returns (outcome: Outcome)
      modifies this`filters, this`ageRange, this`syncPending
      ensures filters == NoFilters && ageRange == (0, 15) && syncPending
      ensures outcome == Push(pathname, [])
    {
      filters := NoFilters;
      ageRange := (0, 15);
      syncPending := true;
      outcome := Push(pathname, []);
    }

    /** The slider sets a new range; the age-range effect becomes due. */
    method SetAgeRange(low: int, high: int)
      modifies this`ageRange, this`syncPending
      ensures ageRange == (low, high) && syncPending
    {
      ageRange := (low, high);
      syncPending := true;
    }

    /** The age-range effect: minAge and maxAge take the range's bounds; every other filter is unchanged. */
    method SyncAgeRange()
      modifies this`filters, this`syncPending
      ensures !syncPending
      ensures filters == if old(syncPending)
        then old(filters).(minAge := Some(Int(ageRange.0)), maxAge := Some(Int(ageRange.1)))
        else old(filters)
    {
      if syncPending {
        filters := filters.(minAge := Some(Int(ageRange.0)), maxAge := Some(Int(ageRange.1)));
        syncPending := false;
      }
    }

    /** The species select, as written: only species changes, the empty value clears it, and "All species" is stored as "all". */
    method SetSpecies(value: string)
      modifies this`filters
      ensures filters == old(filters).(species := NonEmpty(value))
    {
      filters := filters.(species := NonEmpty(value));
    }

    /** The breed input: only breed changes, and the empty value clears it. */
    method SetBreed(value: string)
      modifies this`filters
      ensures filters == old(filters).(breed := NonEmpty(value))
    {
      filters := filters.(breed := NonEmpty(value));
    }

    /** The size select, as written: only size changes, the empty value clears it, and "Any size" is stored as "all". */
    method SetSize(value: string)
      modifies this`filters
      ensures filters == old(filters).(size := NonEmpty(value))
    {
      filters := filters.(size := NonEmpty(value));
    }

    /** The gender select, as written: only gender changes, the empty value clears it, and "Any gender" is stored as "all". */
    method SetGender(value: string)
      modifies this`filters
      ensures filters == old(filters).(gender := NonEmpty(value))
    {
      filters := filters.(gender := NonEmpty(value));
    }

    /** The adopted switch: checked sets `true`, unchecked clears the filter; it never sets `false`. */
    method SetAdopted(checked: bool)
      modifies this`filters
      ensures filters == old(filters).(isAdopted := if checked then Some(true) else None)
      ensures filters.isAdopted != Some(false)
    {
      filters := filters.(isAdopted := if checked then Some(true) else None);
    }
  }
}
