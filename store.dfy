/**
 * The hosted database, seen as in-memory tables that inserts append to.
 * Identifiers and timestamps the database assigns are not modelled, so a
 * table holds the rows as the application submitted them. Whether the
 * database accepts an insert is decided outside the application and is a
 * parameter of every insert.
 */
module Store {
  import opened Wrappers
  import opened Numbers
  import opened Types

  /** What a query returns: `{ data, error }`. */
  datatype Reply<T> = Reply(data: Option<T>, error: Option<string>)

  /** A profile row as the report page inserts it. */
  datatype NewProfile = NewProfile(id: string, fullName: string)

  /** A pet row as the report page inserts it; an age is `null` or an integer. */
  datatype NewPet = NewPet(
    name: string,
    species: string,
    breed: Option<string>,
    age: Option<int>,
    size: Option<string>,
    gender: Option<string>,
    description: Option<string>,
    healthStatus: Option<string>,
    imageUrl: Option<string>,
    reportedBy: string,
    isAdopted: bool)

  /** An application row as the adoption form inserts it. */
  datatype NewApplication = NewApplication(petId: string, userId: string, reason: string, status: ApplicationStatus)

  /** The number of applications of `userId` for `petId`. */
  function ApplicationCount(apps: seq<NewApplication>, petId: string, userId: string): nat {
    if apps == [] then 0
    else
      var last := apps[|apps| - 1];
      ApplicationCount(apps[..|apps| - 1], petId, userId)
      + (if last.petId == petId && last.userId == userId then 1 else 0)
  }

  /** No two applications are for the same pet by the same user. */
  predicate OnePerPair(apps: seq<NewApplication>) {
    forall i, j :: 0 <= i < j < |apps| ==>
      apps[i].petId != apps[j].petId || apps[i].userId != apps[j].userId
  }

  /** Counting agrees with looking for a matching row. */
  lemma {:induction false} ApplicationCountZero(apps: seq<NewApplication>, petId: string, userId: string)
    ensures ApplicationCount(apps, petId, userId) == 0 <==>
      forall i :: 0 <= i < |apps| ==> apps[i].petId != petId || apps[i].userId != userId
  {
    if apps != [] {
      var init := apps[..|apps| - 1];
      ApplicationCountZero(init, petId, userId);
      assert forall i :: 0 <= i < |init| ==> init[i] == apps[i];
    }
  }

  /** In a table with one application per pair, a pair has at most one application. */
  lemma {:induction false} OnePerPairCount(apps: seq<NewApplication>, petId: string, userId: string)
    requires OnePerPair(apps)
    ensures ApplicationCount(apps, petId, userId) <= 1
  {
    if apps != [] {
      var init := apps[..|apps| - 1];
      var last := apps[|apps| - 1];
      assert OnePerPair(init);
      OnePerPairCount(init, petId, userId);
      if last.petId == petId && last.userId == userId {
        ApplicationCountZero(init, petId, userId);
      }
    }
  }

  /** Appending an application for a pair that has none keeps one application per pair. */
  lemma AppendKeepsOnePerPair(apps: seq<NewApplication>, app: NewApplication)
    requires OnePerPair(apps)
    requires ApplicationCount(apps, app.petId, app.userId) == 0
    ensures OnePerPair(apps + [app])
  {
    ApplicationCountZero(apps, app.petId, app.userId);
  }

  /** After the first application of a pair is appended, the `.single()` lookup finds it. */
  lemma AppendFirstIsSingle(apps: seq<NewApplication>, app: NewApplication)
    requires ApplicationCount(apps, app.petId, app.userId) == 0
    ensures ApplicationCount(apps + [app], app.petId, app.userId) == 1
  {
    assert (apps + [app])[..|apps|] == apps;
  }

  /** With one application per pair, a pair that has an application has exactly one, so `.single()` finds it. */
  lemma ExistingIsSingle(apps: seq<NewApplication>, petId: string, userId: string)
    requires OnePerPair(apps)
    requires exists i :: 0 <= i < |apps| && apps[i].petId == petId && apps[i].userId == userId
    ensures ApplicationCount(apps, petId, userId) == 1
  {
    OnePerPairCount(apps, petId, userId);
    ApplicationCountZero(apps, petId, userId);
  }

  /** The number of profiles with identifier `id`. */
  function ProfileCount(profiles: seq<NewProfile>, id: string): nat {
    if profiles == [] then 0
    else ProfileCount(profiles[..|profiles| - 1], id) + (if profiles[|profiles| - 1].id == id then 1 else 0)
  }

  class Database {
    var profiles: seq<NewProfile>
    var pets: seq<NewPet>
    var applications: seq<NewApplication>

    constructor ()
      ensures profiles == [] && pets == [] && applications == []
    {
      profiles, pets, applications := [], [], [];
    }

    /** `.from("profiles").select("*").eq("id", id).single()` finds a row: exactly one row matches. */
    function HasSingleProfile(id: string): bool
      reads this
    {
      ProfileCount(profiles, id) == 1
    }

    /** `.from("adoption_applications")…eq("pet_id", …).eq("user_id", …).single()` finds a row. */
    function HasSingleApplication(petId: string, userId: string): bool
      reads this
    {
      ApplicationCount(applications, petId, userId) == 1
    }

    method InsertProfile(p: NewProfile, accepted: bool) returns (ok: bool)
      modifies this`profiles
      ensures ok == accepted
      ensures profiles == if accepted then old(profiles) + [p] else old(profiles)
    {
      ok := accepted;
      if accepted {
        profiles := profiles + [p];
      }
    }

    method InsertPet(p: NewPet, accepted: bool) returns (ok: bool)
      modifies this`pets
      ensures ok == accepted
      ensures pets == if accepted then old(pets) + [p] else old(pets)
    {
      ok := accepted;
      if accepted {
        pets := pets + [p];
      }
    }

    method InsertApplication(a: NewApplication, accepted: bool) returns (ok: bool)
      modifies this`applications
      ensures ok == accepted
      ensures applications == if accepted then old(applications) + [a] else old(applications)
    {
      ok := accepted;
      if accepted {
        applications := applications + [a];
      }
    }
  }
}
