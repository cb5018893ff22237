/** The doctor signup form (`DocotrSignupForm.jsx`): eight text fields, the payload with its
    trimmed texts and optional numeric fee, the fee check, and the reset after success. */
module DoctorSignup {
  import opened Js
  import opened SignupCommon

  datatype DoctorForm = DoctorForm(
    name: string,
    email: string,
    password: string,
    field: string,
    consultationFee: string,
    address: string,
    mobile: string,
    description: string)

  /** The `name` of an input. */
  datatype DoctorField = Name | Email | Password | Specialty | ConsultationFee | Address | Mobile | Description

  /** The body posted to `/docter/register`; an absent fee is a key JSON leaves out. */
  datatype DoctorPayload = DoctorPayload(
    name: string,
    email: string,
    password: string,
    field: string,
    consultationFee: Option<JsNumber>,
    address: string,
    mobile: string,
    description: string,
    accountType: string)

  const EmptyDoctorForm := DoctorForm("", "", "", "", "", "", "", "")
  const AccountType := "DOCTOR"
  const FeeNotNumberText := "Consultation fee must be a number."

  /** The text of one input. */
  function FieldValue(f: DoctorForm, n: DoctorField): string {
    match n
    case Name => f.name
    case Email => f.email
    case Password => f.password
    case Specialty => f.field
    case ConsultationFee => f.consultationFee
    case Address => f.address
    case Mobile => f.mobile
    case Description => f.description
  }

  /** `{ ...p, [name]: value }`: the named input takes the new text, and every other keeps its own. */
  function SetField(f: DoctorForm, name: DoctorField, value: string): (g: DoctorForm)
    ensures forall n :: FieldValue(g, n) == if n == name then value else FieldValue(f, n)
  {
    match name
    case Name => f.(name := value)
    case Email => f.(email := value)
    case Password => f.(password := value)
    case Specialty => f.(field := value)
    case ConsultationFee => f.(consultationFee := value)
    case Address => f.(address := value)
    case Mobile => f.(mobile := value)
    case Description => f.(description := value)
  }

  /** The payload and the fee check of `handleOnSubmit`. `feeNumber` is `Number(consultation_fee)`,
      looked at only when the fee input is not empty. */
  function Validate(f: DoctorForm, feeNumber: JsNumber): (r: Result<DoctorPayload, string>)
    ensures r.Err? <==> f.consultationFee != "" && feeNumber == NaN
    ensures r.Err? ==> r.error == FeeNotNumberText
    ensures r.Ok? ==>
      && r.value.name == Trim(f.name) && r.value.email == Trim(f.email)
      && r.value.address == Trim(f.address) && r.value.mobile == Trim(f.mobile)
      && r.value.description == Trim(f.description)
      && r.value.password == f.password && r.value.field == f.field
      && (r.value.consultationFee.None? <==> f.consultationFee == "")
      && (r.value.consultationFee.Some? ==> r.value.consultationFee == Some(feeNumber) && feeNumber != NaN)
      && r.value.accountType == AccountType
  {
    var fee := if f.consultationFee == "" then None else Some(feeNumber);
    if fee == Some(NaN) then Err(FeeNotNumberText)
    else
      Ok(DoctorPayload(Trim(f.name), Trim(f.email), f.password, f.field, fee,
                       Trim(f.address), Trim(f.mobile), Trim(f.description), AccountType))
  }

  /** Whitespace around the texts that are trimmed does not change the payload. */
  lemma PaddingIgnored(f: DoctorForm, feeNumber: JsNumber, ws: string)
    requires forall i :: 0 <= i < |ws| ==> IsWhitespace(ws[i])
    ensures Validate(f.(name := ws + f.name + ws, mobile := ws + f.mobile + ws), feeNumber) == Validate(f, feeNumber)
  {
    var g := f.(name := ws + f.name + ws, mobile := ws + f.mobile + ws);
    TrimPadded(ws, f.name, ws);
    TrimPadded(ws, f.mobile, ws);
    SameTrimSameValidation(g, f, feeNumber);
  }

  /** Two forms that agree once trimmed are validated alike. */
  lemma SameTrimSameValidation(f: DoctorForm, g: DoctorForm, feeNumber: JsNumber)
    requires Trim(f.name) == Trim(g.name) && Trim(f.email) == Trim(g.email)
    requires Trim(f.address) == Trim(g.address) && Trim(f.mobile) == Trim(g.mobile)
    requires Trim(f.description) == Trim(g.description)
    requires f.password == g.password && f.field == g.field && f.consultationFee == g.consultationFee
    ensures Validate(f, feeNumber) == Validate(g, feeNumber)
  {
  }

  class DoctorSignupForm {
    var formData: DoctorForm
    var loading: bool

    constructor ()
      ensures formData == EmptyDoctorForm && !loading
    {
      formData := EmptyDoctorForm;
      loading := false;
    }

    /** `handleOnChange`. */
    method OnChange(name: DoctorField, value: string)
      modifies this`formData
      ensures formData == SetField(old(formData), name, value)
    {
      formData := SetField(formData, name, value);
    }

    /** `handleOnSubmit` up to the request: nothing at all while a request runs; a fee that is
        not a number shows its toast; otherwise loading starts and the payload is sent. */
    method Submit(feeNumber: JsNumber) returns (outcome: Option<Result<DoctorPayload, string>>)
      modifies this`loading
      ensures old(loading) ==> outcome == None && loading
      ensures !old(loading) ==> outcome == Some(Validate(formData, feeNumber))
      ensures !old(loading) ==> (loading <==> outcome.value.Ok?)
    {
      if loading {
        return None;
      }
      var checked := Validate(formData, feeNumber);
      if checked.Ok? {
        loading := true;
      }
      return Some(checked);
    }

    /** The end of `handleOnSubmit`: success clears all eight inputs, a failure keeps them; the
        toast says which, and loading ends either way. */
    method Finish(response: SignupResponse) returns (toast: Toast)
      requires loading
      modifies this
      ensures !loading
      ensures toast == ResponseToast(response)
      ensures formData == if response.Created? then EmptyDoctorForm else old(formData)
    {
      if response.Created? {
        formData := EmptyDoctorForm;
      }
      loading := false;
      toast := ResponseToast(response);
    }
  }
}
