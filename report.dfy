/**
 * The report form of app/report/page.tsx: nine text fields edited by name,
 * and a submit handler that makes sure the signed-in user has a profile
 * and then inserts the reported pet.
 */
module ReportPage {
  import opened Wrappers
  import opened Numbers
  import opened Store
  import opened Router
  import opened PetFilterPanel

  datatype FormField = Name | Species | Breed | Age | Size | Gender | Description | HealthStatus | ImageUrl

  /** The form's state: every field is the text the user typed or picked. */
  datatype ReportForm = ReportForm(
    name: string,
    species: string,
    breed: string,
    age: string,
    size: string,
    gender: string,
    description: string,
    healthStatus: string,
    imageUrl: string)

  /** The initial state: every field empty. */
  const EmptyForm := ReportForm("", "", "", "", "", "", "", "", "")

  /** The `name` attribute that addresses a field. */
  function FieldName(f: FormField): string {
    match f
    case Name => "name"
    case Species => "species"
    case Breed => "breed"
    case Age => "age"
    case Size => "size"
    case Gender => "gender"
    case Description => "description"
    case HealthStatus => "healthStatus"
    case ImageUrl => "imageUrl"
  }

  /** The field a `name` attribute addresses, if any. */
  function FieldNamed(name: string): Option<FormField> {
    if name == "name" then Some(Name)
    else if name == "species" then Some(Species)
    else if name == "breed" then Some(Breed)
    else if name == "age" then Some(Age)
    else if name == "size" then Some(Size)
    else if name == "gender" then Some(Gender)
    else if name == "description" then Some(Description)
    else if name == "healthStatus" then Some(HealthStatus)
    else if name == "imageUrl" then Some(ImageUrl)
    else None
  }

  /** Every field is addressed by its own name and by no other. */
  lemma FieldNames(name: string, f: FormField)
    ensures FieldNamed(name) == Some(f) <==> FieldName(f) == name
  {
    FieldNamesDistinct();
  }

  /** The nine field names are pairwise distinct. */
  lemma FieldNamesDistinct()
    ensures forall f, g :: f != g ==> FieldName(f) != FieldName(g)
  {
    assert "name"[0] != "size"[0];
  }

  /** The text of one field. */
  function Field(form: ReportForm, f: FormField): string {
    match f
    case Name => form.name
    case Species => form.species
    case Breed => form.breed
    case Age => form.age
    case Size => form.size
    case Gender => form.gender
    case Description => form.description
    case HealthStatus => form.healthStatus
    case ImageUrl => form.imageUrl
  }

  /** The form with one field replaced. */
  function WithField(form: ReportForm, f: FormField, value: string): ReportForm {
    match f
    case Name => form.(name := value)
    case Species => form.(species := value)
    case Breed => form.(breed := value)
    case Age => form.(age := value)
    case Size => form.(size := value)
    case Gender => form.(gender := value)
    case Description => form.(description := value)
    case HealthStatus => form.(healthStatus := value)
    case ImageUrl => form.(imageUrl := value)
  }

  /** Replacing a field sets that field and leaves every other field as it was. */
  lemma FieldOfWithField(form: ReportForm, f: FormField, value: string, g: FormField)
    ensures Field(WithField(form, f, value), g) == if f == g then value else Field(form, g)
  {
  }

  /** The `age` column of the row: `age ? parseInt(age) : null`; `NaN` goes over the wire as `null`. */
  function AgeColumn(age: string): (r: Option<int>)
    ensures r.Some? <==> age != "" && ParseInt(age).Int?
    ensures r.Some? ==> ParseInt(age) == Int(r.value)
  {
    if age == "" then None
    else match ParseInt(age)
      case Int(n) => Some(n)
      case NaN => None
  }

  /** The pet row the form describes, reported by `userId` and not adopted. */
  function PetRow(form: ReportForm, userId: string): NewPet {
    NewPet(
      form.name,
      form.species,
      NonEmpty(form.breed),
      AgeColumn(form.age),
      NonEmpty(form.size),
      NonEmpty(form.gender),
      NonEmpty(form.description),
      NonEmpty(form.healthStatus),
      NonEmpty(form.imageUrl),
      userId,
      false)
  }

  /** The text a column value shows in the form: `null` is the empty field. */
  function OrEmpty(x: Option<string>): string {
    x.GetOr("")
  }

  /** The form that describes a row: the inverse of `PetRow`. */
  function FormOf(row: NewPet): ReportForm {
    ReportForm(
      row.name,
      row.species,
      OrEmpty(row.breed),
      if row.age.Some? then NumToString(Int(row.age.value)) else "",
      OrEmpty(row.size),
      OrEmpty(row.gender),
      OrEmpty(row.description),
      OrEmpty(row.healthStatus),
      OrEmpty(row.imageUrl))
  }

  /** A row that a report can produce: not adopted, and no column holds the empty string. */
  predicate Reportable(row: NewPet) {
    !row.isAdopted
    && row.breed != Some("") && row.size != Some("") && row.gender != Some("")
    && row.description != Some("") && row.healthStatus != Some("") && row.imageUrl != Some("")
  }

  /** Every row a report inserts is reportable and records its reporter. */
  lemma PetRowReportable(form: ReportForm, userId: string)
    ensures Reportable(PetRow(form, userId)) && PetRow(form, userId).reportedBy == userId
  {
  }

  /** Filling the form from a reportable row and submitting it inserts that very row. */
  lemma PetRowOfFormOf(row: NewPet)
    requires Reportable(row)
    ensures PetRow(FormOf(row), row.reportedBy) == row
  {
    if row.age.Some? {
      ParseIntOfToString(Int(row.age.value));
    }
  }

  /** A form whose age is empty or written as `toString` writes it comes back from its row unchanged. */
  lemma FormOfPetRow(form: ReportForm, userId: string)
    requires form.age == "" || (ParseInt(form.age).Int? && NumToString(ParseInt(form.age)) == form.age)
    ensures FormOf(PetRow(form, userId)) == form
  {
  }

  /** The signed-in user: an identifier and the optional `user_metadata.full_name`. */
  datatype User = User(id: string, fullName: Option<string>)

  /** `user.user_metadata?.full_name || "User"`. */
  function DisplayName(u: User): (r: string)
    ensures r != ""
    ensures u.fullName.Some? && u.fullName.value != "" ==> r == u.fullName.value
    ensures (u.fullName.None? || u.fullName.value == "") ==> r == "User"
  {
    if u.fullName.Some? && u.fullName.value != "" then u.fullName.value else "User"
  }

  const ReportError := "Failed to report pet. Please try again."

  class ReportPetPage {
    var form: ReportForm
    var isSubmitting: bool
    var error: Option<string>

    constructor ()
      ensures form == EmptyForm && !isSubmitting && error.None?
    {
      form := EmptyForm;
      isSubmitting := false;
      error := None;
    }

    /**
     * `handleChange` and `handleSelectChange`: the field the name addresses
     * takes the value. For a name that addresses no field the source adds a
     * property the page never reads; here no field changes.
     */
    method SetField(name: string, value: string)
      modifies this`form
      ensures form == if FieldNamed(name).Some? then WithField(old(form), FieldNamed(name).value, value) else old(form)
    {
      var f := FieldNamed(name);
      if f.Some? {
        form := WithField(form, f.value, value);
      }
    }

    /**
     * `handleSubmit`. Without a user: to the sign-in page, nothing else
     * changes. Otherwise: a profile is inserted when the lookup does not
     * find exactly one; if that insert fails nothing more happens; then the
     * pet row is inserted. Success goes to the listing; any failure leaves
     * the error message. The form is not cleared, and the page is no longer
     * submitting once the handler returns.
     */
    method Submit(user: Option<User>, db: Database, profileAccepted: bool, petAccepted: bool) returns (outcome: Outcome)
      modifies this`isSubmitting, this`error, db`profiles, db`pets
      ensures form == old(form)
      ensures user.None? ==>
        outcome == Push("/login", [("redirect", "/report")])
        && isSubmitting == old(isSubmitting) && error == old(error)
        && db.profiles == old(db.profiles) && db.pets == old(db.pets)
      ensures user.Some? ==>
        var u := user.value;
        var needsProfile := !old(db.HasSingleProfile(u.id));
        var reached := !needsProfile || profileAccepted;
        var done := reached && petAccepted;
        && !isSubmitting
        && db.profiles == (if needsProfile && profileAccepted then old(db.profiles) + [NewProfile(u.id, DisplayName(u))] else old(db.profiles))
        && db.pets == (if done then old(db.pets) + [PetRow(form, u.id)] else old(db.pets))
        && outcome == (if done then Push("/pets", []) else Stay)
        && error == (if done then None else Some(ReportError))
    {
      if user.None? {
        outcome := Push("/login", [("redirect", "/report")]);
        return;
      }
      var u := user.value;
      isSubmitting := true;
      error := None;
      var reached := true;
      if !db.HasSingleProfile(u.id) {
        reached := db.InsertProfile(NewProfile(u.id, DisplayName(u)), profileAccepted);
      }
      var done := false;
      if reached {
        done := db.InsertPet(PetRow(form, u.id), petAccepted);
      }
      if done {
        outcome := Push("/pets", []);
      } else {
        outcome := Stay;
        error := Some(ReportError);
      }
      isSubmitting := false;
    }
  }
}
