/** The routes that write to the table put the validation gate first, so
    only records without validation errors are ever stored. */
module FormRoutes {
  import opened Strings
  import opened Json
  import opened FormSchema
  import opened Validator
  import opened ErrorHandler
  import opened ValidateMiddleware
  import opened FormController

  /** Every stored record passes the validator. */
  predicate AllClean(rows: seq<Row>, matches: Matcher) {
    forall i :: 0 <= i < |rows| ==> Errors(Onboarding.fields, rows[i].data, matches) == map[]
  }

  /** `POST /submissions`: the gate, then `submitForm`. */
  method PostSubmission(store: SubmissionStore, body: Record, id: string, createdAt: string, matches: Matcher)
    returns (o: Outcome)
    requires store.Valid() && AllClean(store.rows, matches)
    modifies store
    ensures store.Valid() && AllClean(store.rows, matches)
    ensures Gate("POST", body, matches).Fail? ==>
              store.rows == old(store.rows) && o == Raise(FromAppError(Gate("POST", body, matches).error))
    ensures Gate("POST", body, matches) == Continue && !HasId(old(store.rows), id) ==>
              store.rows == old(store.rows) + [Row(id, body, createdAt)] && o == Answer(201, Created(id, createdAt))
    ensures Gate("POST", body, matches) == Continue && HasId(old(store.rows), id) ==>
              store.rows == old(store.rows) && o == Raise(PrimaryKeyViolation)
  {
    var gate := Gate("POST", body, matches);
    if gate.Fail? {
      return Raise(FromAppError(gate.error));
    }
    o := store.Create(id, body, createdAt);
  }

  /** `PUT /submissions/:id`: the gate, then `updateSubmission`. */
  method PutSubmission(store: SubmissionStore, id: string, body: Record, matches: Matcher)
    returns (o: Outcome)
    requires store.Valid() && AllClean(store.rows, matches)
    modifies store
    ensures store.Valid() && AllClean(store.rows, matches)
    ensures Gate("PUT", body, matches).Fail? ==>
              store.rows == old(store.rows) && o == Raise(FromAppError(Gate("PUT", body, matches).error))
    ensures Gate("PUT", body, matches) == Continue ==> store.rows == UpdateRows(old(store.rows), id, body)
    ensures Gate("PUT", body, matches) == Continue && HasId(old(store.rows), id) ==>
              o == Answer(200, Message("Updated successfully"))
    ensures Gate("PUT", body, matches) == Continue && !HasId(old(store.rows), id) ==>
              store.rows == old(store.rows) && o == Raise(NotFound)
  {
    var gate := Gate("PUT", body, matches);
    if gate.Fail? {
      return Raise(FromAppError(gate.error));
    }
    o := store.Update(id, body);
  }

  /** `DELETE /submissions/:id` has no gate; removing rows keeps the rest clean. */
  method DeleteSubmission(store: SubmissionStore, id: string, ghost matches: Matcher)
    returns (o: Outcome)
    requires store.Valid() && AllClean(store.rows, matches)
    modifies store
    ensures store.Valid() && AllClean(store.rows, matches)
    ensures store.rows == DeleteRows(old(store.rows), id)
  {
    o := store.Delete(id);
    forall i | 0 <= i < |store.rows| ensures Errors(Onboarding.fields, store.rows[i].data, matches) == map[] {
      assert store.rows[i] in old(store.rows);
    }
  }

  /** The list route is a plain read and has no gate either. */
  lemma ListIsNotGated(body: Record, matches: Matcher)
    ensures Gate("GET", body, matches) == Continue && Gate("DELETE", body, matches) == Continue
  {
  }
}
