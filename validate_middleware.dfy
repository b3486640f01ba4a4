/** `validateSchemaMiddleware`: the gate in front of create and update. */
module ValidateMiddleware {
  import opened Strings
  import opened Json
  import opened FormSchema
  import opened Validator
  import opened ApiError
  import opened ErrorHandler

  /** What the gate passes to `next`: nothing, or an error. */
  datatype Verdict = Continue | Fail(error: AppError)

  /** The gate for a request with method `httpMethod` and body `body`. */
  function Gate(httpMethod: string, body: Record, matches: Matcher): (o: Verdict)
    ensures httpMethod != "POST" && httpMethod != "PUT" ==> o == Continue
    ensures (httpMethod == "POST" || httpMethod == "PUT") ==>
              (o == Continue <==> Errors(Onboarding.fields, body, matches) == map[])
    ensures o.Fail? ==> o.error == NewAppError("Validation failed", 400, Some(Errors(Onboarding.fields, body, matches)))
  {
    if httpMethod == "POST" || httpMethod == "PUT" then
      var errors := Errors(Onboarding.fields, body, matches);
      if |errors| > 0 then Fail(NewAppError("Validation failed", 400, Some(errors))) else Continue
    else Continue
  }

  /** A body the gate lets through on POST or PUT has no field with a message. */
  lemma ContinueMeansValid(httpMethod: string, body: Record, matches: Matcher)
    requires httpMethod == "POST" || httpMethod == "PUT"
    requires Gate(httpMethod, body, matches) == Continue
    ensures forall k :: 0 <= k < |Onboarding.fields| ==>
              FieldError(Onboarding.fields[k], Get(body, Onboarding.fields[k].id), matches).None?
  {
    OnboardingUniqueIds();
    ErrorsEmptyIff(Onboarding.fields, body, matches);
  }

  /** A rejected request reaches the client, in production, as a 400 with
      'Validation failed' and exactly the validator's map. */
  lemma RejectionResponse(httpMethod: string, body: Record, matches: Matcher, mode: Option<string>)
    requires Gate(httpMethod, body, matches).Fail?
    requires mode != Some("development")
    ensures GlobalErrorHandler(FromAppError(Gate(httpMethod, body, matches).error), mode)
            == Response(400, ProdBody(Some("Validation failed"), Some(Errors(Onboarding.fields, body, matches))))
  {
  }

  /** An empty POST body is rejected, and among its errors is age's required
      message. */
  lemma EmptyPostRejected(matches: Matcher)
    ensures Gate("POST", [], matches).Fail?
    ensures "age" in Gate("POST", [], matches).error.errors
    ensures Gate("POST", [], matches).error.errors["age"] == "Age is required"
  {
    OnboardingEmptyAge(matches);
  }
}
