/** `AppError`: the error the backend raises on purpose. Its `status` text is
    derived from the status code once, when it is built. */
module ApiError {
  import opened Strings

  datatype AppError = AppError(
    message: string,
    statusCode: int,
    status: string,
    errors: map<string, string>,
    isOperational: bool)

  /** `` `${statusCode}`.startsWith('4') ? 'fail' : 'error' ``. */
  function StatusFor(statusCode: int): (s: string)
    ensures s == "fail" || s == "error"
    ensures s == "fail" <==> StartsWith(IntToString(statusCode), "4")
  {
    if StartsWith(IntToString(statusCode), "4") then "fail" else "error"
  }

  /** `new AppError(message, statusCode, errors)`; `None` is an `errors`
      argument that is left out or `null`. */
  function NewAppError(message: string, statusCode: int, errors: Option<map<string, string>>): (e: AppError)
    ensures e.message == message && e.statusCode == statusCode
    ensures e.status == StatusFor(statusCode)
    ensures e.errors == (if errors.Some? then errors.value else map[])
    ensures e.isOperational
  {
    AppError(message, statusCode, StatusFor(statusCode), errors.GetOr(map[]), true)
  }

  /** The first decimal digit of a natural number. */
  function LeadingDigit(n: nat): (d: nat)
    ensures d < 10
    ensures n > 0 ==> d > 0
  {
    if n < 10 then n else LeadingDigit(n / 10)
  }

  lemma {:induction false} NatToStringFirst(n: nat)
    ensures NatToString(n)[0] == Digit(LeadingDigit(n))
  {
    if n >= 10 {
      NatToStringFirst(n / 10);
      assert NatToString(n)[0] == NatToString(n / 10)[0];
    }
  }

  /** For every non-negative code, `'fail'` exactly when its first decimal
      digit is 4; negative codes are `'error'`. */
  lemma StatusByLeadingDigit(statusCode: int)
    ensures statusCode >= 0 ==> (StatusFor(statusCode) == "fail" <==> LeadingDigit(statusCode) == 4)
    ensures statusCode < 0 ==> StatusFor(statusCode) == "error"
  {
    if statusCode >= 0 {
      NatToStringFirst(statusCode);
      if LeadingDigit(statusCode) != 4 {
        assert Digit(LeadingDigit(statusCode)) != '4';
      }
    }
  }

  lemma {:induction false} LeadingDigitThreeDigits(n: nat)
    requires 100 <= n <= 999
    ensures LeadingDigit(n) == n / 100
  {
    assert LeadingDigit(n) == LeadingDigit(n / 10) == LeadingDigit(n / 100);
  }

  /** On HTTP status codes the derived status is `'fail'` exactly for the
      4xx client errors. */
  lemma StatusOfHttpCode(statusCode: int)
    requires 100 <= statusCode <= 999
    ensures StatusFor(statusCode) == "fail" <==> 400 <= statusCode <= 499
  {
    StatusByLeadingDigit(statusCode);
    LeadingDigitThreeDigits(statusCode);
  }

  /** The codes the backend raises: 400 and 404 fail, 500 is an error. */
  lemma StatusOfRaisedCodes()
    ensures StatusFor(400) == "fail" && StatusFor(404) == "fail" && StatusFor(500) == "error"
  {
    StatusOfHttpCode(400);
    StatusOfHttpCode(404);
    StatusOfHttpCode(500);
  }
}
