/** A doctor's profile card (`IndividualDoctorProfile.js`): the shortened description, the fee
    shown only when it is a number, and the guards and payload of "Book Appointment". */
module DoctorProfile {
  import opened Js

  /** The profile fields the card reads. `consultationFee` keeps its JSON type, since the card
      tests it with `typeof`. */
  datatype Profile = Profile(
    id: Option<string>,
    name: Option<string>,
    email: Option<string>,
    description: Option<string>,
    consultationFee: JsValue)

  /** The logged-in user fields the booking reads. */
  datatype User = User(id: Option<string>, firstName: Option<string>, email: Option<string>)

  /** The body posted to `/appointment`, with the backend's own key names in the comments. */
  datatype BookingPayload = BookingPayload(
    userId: string,              // user_id
    docterId: string,            // docter_id
    userName: Option<string>,    // user_name
    userEmail: Option<string>,   // user_email
    doctorName: Option<string>,  // doctor_name
    doctorEmail: Option<string>) // doctor_email

  /** Why a booking is refused before any request. */
  datatype BookingError = NotLoggedIn | ProfileNotLoaded

  const WordLimit: nat := 10

  /** The error toast for each refusal. */
  function RefusalText(e: BookingError): string {
    match e
    case NotLoggedIn => "Please log in to book an appointment."
    case ProfileNotLoaded => "Doctor profile not loaded yet."
  }

  /** The toast once the request has answered. */
  function BookingToast(succeeded: bool): string {
    if succeeded then "Appointment created! Check status on Dashboard."
    else "Failed to create appointment. Please try again."
  }

  /** `limitDescription`: nothing for a falsy description, the description itself up to ten
      space-separated words, otherwise the first ten words followed by "...". */
  function LimitDescription(d: Option<string>): (r: string)
    ensures !Truthy(d) ==> r == ""
    ensures Truthy(d) && |Split(d.value, ' ')| <= WordLimit ==> r == d.value
  {
    if !Truthy(d) then ""
    else
      var words := Split(d.value, ' ');
      if |words| > WordLimit then Join(words[..WordLimit], ' ') + "..." else d.value
  }

  /** A longer description is cut at the space that ends its tenth word: what is shown is the
      description up to that space, which holds exactly its first ten words, and then "...". */
  lemma LongDescriptionCut(s: string)
    requires |Split(s, ' ')| > WordLimit
    ensures var r := LimitDescription(Some(s));
      var k := |r| - 3;
      && 0 <= k < |s| && s[k] == ' '
      && r == s[..k] + "..."
      && Split(s[..k], ' ') == Split(s, ' ')[..WordLimit]
  {
    assert s != "" by {
      assert |Split("", ' ')| == 1;
    }
    SplitPrefix(s, WordLimit, ' ');
  }

  /** The shortened description of a long one opens with ten words and never more. */
  lemma LongDescriptionWordCount(s: string)
    requires |Split(s, ' ')| > WordLimit
    ensures var r := LimitDescription(Some(s));
      |r| >= 3 && |Split(r[..|r| - 3], ' ')| == WordLimit
  {
    LongDescriptionCut(s);
    var r := LimitDescription(Some(s));
    var k := |r| - 3;
    assert r[..k] == s[..k];
  }

  /** `fee`: the consultation fee when it is a JSON number (NaN included), otherwise nothing. */
  function Fee(p: Option<Profile>): (fee: Option<JsNumber>)
    ensures fee.Some? <==> p.Some? && p.value.consultationFee.Num?
    ensures fee.Some? ==> p.value.consultationFee == Num(fee.value)
  {
    if p.Some? && p.value.consultationFee.Num? then Some(p.value.consultationFee.n) else None
  }

  /** `bookAppointment` up to the request: the user is checked before the profile; the payload
      copies the ids, the user's first name and both emails, and the doctor's name. */
  function BookAppointment(user: Option<User>, profile: Option<Profile>): (r: Result<BookingPayload, BookingError>)
    ensures r == Err(NotLoggedIn) <==> !(user.Some? && Truthy(user.value.id))
    ensures r == Err(ProfileNotLoaded) <==>
      user.Some? && Truthy(user.value.id) && !(profile.Some? && Truthy(profile.value.id))
    ensures r.Ok? ==>
      var u := user.value;
      var p := profile.value;
      && Some(r.value.userId) == u.id && r.value.userId != ""
      && Some(r.value.docterId) == p.id && r.value.docterId != ""
      && r.value.userName == u.firstName && r.value.userEmail == u.email
      && r.value.doctorName == p.name && r.value.doctorEmail == p.email
  {
    if !(user.Some? && Truthy(user.value.id)) then Err(NotLoggedIn)
    else if !(profile.Some? && Truthy(profile.value.id)) then Err(ProfileNotLoaded)
    else
      var u := user.value;
      var p := profile.value;
      Ok(BookingPayload(u.id.value, p.id.value, u.firstName, u.email, p.name, p.email))
  }

  /** The `setLoading?.(…)` calls a booking makes. They happen only when the parent passed the
      optional `setLoading` callback (`hasSetLoading`), and then on and off around a request, the
      `finally` clearing the flag whatever the request's own outcome; a refused booking makes none. */
  function LoadingCalls(r: Result<BookingPayload, BookingError>, hasSetLoading: bool): (calls: seq<bool>)
    ensures calls != [] <==> hasSetLoading && r.Ok?
    ensures calls != [] ==> calls == [true, false]
  {
    if hasSetLoading && r.Ok? then [true, false] else []
  }
}
