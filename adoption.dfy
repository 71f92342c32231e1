/**
 * The adoption form of components/adoption-form.tsx: a reason typed by the
 * signed-in user, and a submit handler that refuses a second application
 * for the same pet and otherwise inserts a pending one.
 */
module Adoption {
  import opened Wrappers
  import opened Types
  import opened Store
  import opened Router

  const DuplicateError := "You have already submitted an application for this pet."
  const SubmitError := "Failed to submit application. Please try again."

  class AdoptionForm {
    const petId: string
    var reason: string
    var isSubmitting: bool
    var error: Option<string>

    constructor (petId: string)
      ensures this.petId == petId && reason == "" && !isSubmitting && error.None?
    {
      this.petId := petId;
      reason := "";
      isSubmitting := false;
      error := None;
    }

    /** The text area: the reason becomes what was typed. */
    method SetReason(value: string)
      modifies this`reason
      ensures reason == value
    {
      reason := value;
    }

    /**
     * `handleSubmit` for the signed-in user `user`, if any. Without a user:
     * to the sign-in page, nothing else changes. When the lookup finds this
     * user's application for the pet: the duplicate message and no insert.
     * Otherwise one pending application with the typed reason is inserted;
     * success refreshes the page and clears the reason, failure leaves the
     * error message. The form is no longer submitting once the handler
     * returns, on the early return too.
     */
    method Submit(user: Option<string>, db: Database, insertAccepted: bool) returns (outcome: Outcome)
      modifies this`reason, this`isSubmitting, this`error, db`applications
      ensures user.None? ==>
        outcome == Push("/login", []) && reason == old(reason) && isSubmitting == old(isSubmitting)
        && error == old(error) && db.applications == old(db.applications)
      ensures user.Some? ==>
        var duplicate := old(db.HasSingleApplication(petId, user.value));
        var done := !duplicate && insertAccepted;
        && !isSubmitting
        && db.applications == (if done then old(db.applications) + [NewApplication(petId, user.value, old(reason), Pending)] else old(db.applications))
        && outcome == (if done then Refresh else Stay)
        && reason == (if done then "" else old(reason))
        && error == (if duplicate then Some(DuplicateError) else if done then None else Some(SubmitError))
      ensures OnePerPair(old(db.applications)) ==> OnePerPair(db.applications)
      ensures (user.Some? && OnePerPair(old(db.applications))
               && ApplicationCount(old(db.applications), petId, user.value) > 0)
        ==> db.applications == old(db.applications)
    {
      if user.None? {
        outcome := Push("/login", []);
        return;
      }
      var uid := user.value;
      isSubmitting := true;
      error := None;
      if db.HasSingleApplication(petId, uid) {
        error := Some(DuplicateError);
        outcome := Stay;
        isSubmitting := false;
        return;
      }
      if OnePerPair(db.applications) {
        OnePerPairCount(db.applications, petId, uid);
      }
      var app := NewApplication(petId, uid, reason, Pending);
      ghost var before := db.applications;
      var ok := db.InsertApplication(app, insertAccepted);
      if ok && OnePerPair(before) {
        AppendKeepsOnePerPair(before, app);
      }
      if ok {
        outcome := Refresh;
        reason := "";
      } else {
        outcome := Stay;
        error := Some(SubmitError);
      }
      isSubmitting := false;
    }
  }
}
