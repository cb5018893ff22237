/** The health-seeker signup form (`GeneralUserSignupForm.jsx`): five text fields, the password
    confirmation check, the registration payload and the reset after success. */
module UserSignup {
  import opened Js
  import opened SignupCommon

  datatype FormData = FormData(
    firstName: string,
    lastName: string,
    email: string,
    password: string,
    confirmPassword: string)

  /** The `name` of an input. */
  datatype FieldName = FirstName | LastName | Email | Password | ConfirmPassword

  /** The body posted to `/user/register`. There is no confirmation field. */
  datatype SignupPayload = SignupPayload(
    firstName: string,
    lastName: string,
    email: string,
    password: string,
    accountType: string)

  const EmptyForm := FormData("", "", "", "", "")
  const AccountType := "HEALTHSEAKER"
  const MismatchText := "Passwords do not match"

  /** The text of one input. */
  function FieldValue(f: FormData, n: FieldName): string {
    match n
    case FirstName => f.firstName
    case LastName => f.lastName
    case Email => f.email
    case Password => f.password
    case ConfirmPassword => f.confirmPassword
  }

  /** `{ ...p, [name]: value }`: the named input takes the new text, and every other keeps its own. */
  function SetField(f: FormData, name: FieldName, value: string): (g: FormData)
    ensures forall n :: FieldValue(g, n) == if n == name then value else FieldValue(f, n)
  {
    match name
    case FirstName => f.(firstName := value)
    case LastName => f.(lastName := value)
    case Email => f.(email := value)
    case Password => f.(password := value)
    case ConfirmPassword => f.(confirmPassword := value)
  }

  /** Change events compose like writes to a record: the last write to an input wins, writes to
      different inputs commute, and writing an input's own text back changes nothing. */
  lemma SetFieldAlgebra(f: FormData, m: FieldName, n: FieldName, a: string, b: string)
    ensures SetField(SetField(f, n, a), n, b) == SetField(f, n, b)
    ensures m != n ==> SetField(SetField(f, m, a), n, b) == SetField(SetField(f, n, b), m, a)
    ensures SetField(f, n, FieldValue(f, n)) == f
  {
  }

  /** `handleOnSubmit`'s checks and payload: the raw password and its confirmation must match;
      names and email are sent trimmed, the password as typed. */
  function Validate(f: FormData): (r: Result<SignupPayload, string>)
    ensures r.Err? <==> f.password != f.confirmPassword
    ensures r.Err? ==> r.error == MismatchText
    ensures r.Ok? ==>
      && r.value.firstName == Trim(f.firstName) && r.value.lastName == Trim(f.lastName)
      && r.value.email == Trim(f.email) && r.value.password == f.password
      && r.value.accountType == AccountType
  {
    if f.password != f.confirmPassword then Err(MismatchText)
    else Ok(SignupPayload(Trim(f.firstName), Trim(f.lastName), Trim(f.email), f.password, AccountType))
  }

  /** Padding the names and the email with whitespace does not change what is sent. */
  lemma PaddingIgnored(f: FormData, ws: string)
    requires forall i :: 0 <= i < |ws| ==> IsWhitespace(ws[i])
    requires f.password == f.confirmPassword
    ensures Validate(f.(firstName := ws + f.firstName + ws, email := ws + f.email)) == Validate(f)
  {
    var g := f.(firstName := ws + f.firstName + ws, email := ws + f.email);
    TrimPadded(ws, f.firstName, ws);
    TrimPadded(ws, f.email, "");
    assert ws + f.email + "" == ws + f.email;
    SameTrimSameValidation(g, f);
  }

  /** Two forms that agree once trimmed are validated alike. */
  lemma SameTrimSameValidation(f: FormData, g: FormData)
    requires Trim(f.firstName) == Trim(g.firstName) && Trim(f.lastName) == Trim(g.lastName)
    requires Trim(f.email) == Trim(g.email)
    requires f.password == g.password && f.confirmPassword == g.confirmPassword
    ensures Validate(f) == Validate(g)
  {
  }

  class UserSignupForm {
    var formData: FormData
    var loading: bool

    constructor ()
      ensures formData == EmptyForm && !loading
    {
      formData := EmptyForm;
      loading := false;
    }

    /** `handleOnChange`. */
    method OnChange(name: FieldName, value: string)
      modifies this`formData
      ensures formData == SetField(old(formData), name, value)
    {
      formData := SetField(formData, name, value);
    }

    /** `handleOnSubmit` up to the request. A mismatch shows its toast and changes nothing;
        otherwise loading starts and the payload is sent. The button is disabled while loading. */
    method Submit() returns (outcome: Result<SignupPayload, string>)
      requires !loading
      modifies this`loading
      ensures outcome == Validate(formData)
      ensures outcome.Err? ==> !loading
      ensures outcome.Ok? ==> loading
    {
      outcome := Validate(formData);
      if outcome.Ok? {
        loading := true;
      }
    }

    /** The end of `handleOnSubmit`: success clears all five inputs, a failure keeps them; the
        toast says which, and loading ends either way. */
    method Finish(response: SignupResponse) returns (toast: Toast)
      requires loading
      modifies this
      ensures !loading
      ensures toast == ResponseToast(response)
      ensures formData == if response.Created? then EmptyForm else old(formData)
    {
      if response.Created? {
        formData := EmptyForm;
      }
      loading := false;
      toast := ResponseToast(response);
    }
  }
}
