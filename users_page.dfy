/** The users page: the company-user registration form and the text it shows afterwards. */
module UsersPage {
  import opened Wrappers
  import opened Text
  import opened AuthTypes
  import opened BaseApi
  import opened AuthApi

  /** `position.trim() ? position.trim() : undefined` */
  function PositionField(position: string): (r: Option<string>)
    ensures r.None? <==> Trim(position) == ""
    ensures r.Some? ==> r.value == Trim(position)
  {
    if Trim(position) != "" then Some(Trim(position)) else None
  }

  /** The body `onRegister` sends: the fields as typed, with the position trimmed and omitted when blank. */
  function RegisterPayload(email: string, password: string, role: CompanyUserRole, position: string, language: string): (r: RegisterCompanyUserPayload)
    ensures r.email == email && r.password == password && r.role == role && r.language == language
    ensures r.position == PositionField(position)
  {
    RegisterCompanyUserPayload(email, password, role, PositionField(position), language)
  }

  /** A position that is nothing but whitespace is sent as no position at all. */
  lemma BlankPositionOmitted(position: string)
    ensures PositionField(position).None? <==> forall i :: 0 <= i < |position| ==> IsJsWhiteSpace(position[i])
  {
    TrimEmptyIff(position);
  }

  /** Re-entering the position that was sent sends it again unchanged. */
  lemma PositionFieldIdempotent(position: string)
    ensures PositionField(position).Some? ==> PositionField(PositionField(position).value) == PositionField(position)
  {
    TrimIdempotent(position);
  }

  /** `Created: id=…, email=…, role=…, companyId=…` */
  function CreatedText(data: RegisterCompanyUserResponseData): string {
    "Created: id=" + data.id + ", email=" + data.email + ", role=" + CompanyUserRoleName(data.role) + ", companyId=" + data.companyId
  }

  /**
   * A refused request as the page sees it: the serialised `err.data` when the
   * error carries one, and the serialised error otherwise.
   */
  datatype RegisterError = RegisterError(dataJson: Option<string>, errorJson: string)

  /** `Error: ${JSON.stringify(err?.data ?? e)}` */
  function ErrorText(e: RegisterError): (r: string)
    ensures StartsWith(r, "Error: ")
    ensures e.dataJson.Some? ==> r[|"Error: "|..] == e.dataJson.value
    ensures e.dataJson.None? ==> r[|"Error: "|..] == e.errorJson
  {
    "Error: " + (match e.dataJson case Some(d) => d case None => e.errorJson)
  }

  /** A success text and an error text are never confused. */
  lemma ResultTextsDiffer(data: RegisterCompanyUserResponseData, e: RegisterError)
    ensures CreatedText(data) != ErrorText(e)
  {
    assert CreatedText(data)[0] == 'C';
    assert ErrorText(e)[0] == 'E';
  }

  /** The page's state: the form's fields and the result line. */
  class RegisterForm {
    var email: string
    var password: string
    var role: CompanyUserRole
    var position: string
    var language: string
    var resultText: string

    /** The form's initial values. */
    constructor ()
      ensures email == "newuser@example.com" && password == "123456" && role == Recruiter
      ensures position == "" && language == "en" && resultText == ""
    {
      email := "newuser@example.com";
      password := "123456";
      role := Recruiter;
      position := "";
      language := "en";
      resultText := "";
    }

    /** The first half of `onRegister`: the result line is cleared and the request built from the fields. */
    method BeginRegister() returns (request: FetchArgs<RegisterCompanyUserPayload, ()>)
      modifies this
      ensures resultText == ""
      ensures request == RegisterCompanyUserQuery(RegisterPayload(email, password, role, position, language))
      ensures email == old(email) && password == old(password) && role == old(role)
      ensures position == old(position) && language == old(language)
    {
      resultText := "";
      request := RegisterCompanyUserQuery(RegisterPayload(email, password, role, position, language));
    }

    /** The second half: the result line reports the created user or the error; the fields stay. */
    method FinishRegister(outcome: Result<RegisterCompanyUserResponseData>, error: RegisterError)
      modifies this
      ensures outcome.Ok? ==> resultText == CreatedText(outcome.value)
      ensures outcome.Err? ==> resultText == ErrorText(error)
      ensures email == old(email) && password == old(password) && role == old(role)
      ensures position == old(position) && language == old(language)
    {
      if outcome.Ok? {
        resultText := CreatedText(outcome.value);
      } else {
        resultText := ErrorText(error);
      }
    }
  }
}
