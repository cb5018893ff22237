/** The doctor's appointment table (`DoctorAppointment.jsx`): the list request for the logged-in
    doctor, the Accept and Reject actions that only pending appointments allow, and the refetch
    after a deletion. */
module DoctorAppointments {
  import opened Js
  import opened Appointments

  /** A request the page sends: the list for a doctor id, or the deletion of one appointment. */
  datatype AppointmentRequest = ListForDoctor(doctorId: string) | DeleteAppointment(id: Option<string>)

  const FailureText := "Failed to load appointments"
  const LoadingText := "Loading\U{2026}"
  const DeletedText := "Appointment deleted successfully!"
  const DeleteFailedText := "Error deleting appointment"

  /** `isActionDisabled`: an appointment whose status is set and not "PENDING" allows no action. */
  predicate IsActionDisabled(a: Appointment) {
    Truthy(a.status) && a.status.value != "PENDING"
  }

  /** Pending appointments, and those without a status, can be acted on; any other status cannot. */
  lemma ActionsFollowStatus(a: Appointment)
    ensures a.status == Some("PENDING") || !Truthy(a.status) ==> !IsActionDisabled(a)
    ensures Truthy(a.status) && a.status != Some("PENDING") ==> IsActionDisabled(a)
  {
  }

  /** The placeholder row of this table. */
  function PlaceholderRow(loading: bool, err: string, user: Option<string>, count: nat): (row: Option<string>)
    ensures row.Some? <==> loading || err != "" || count == 0
    ensures loading ==> row == Some(LoadingText)
    ensures !loading && err == "" && count == 0 && !Truthy(user) ==> row == Some(LoadingUserText)
  {
    Placeholder(LoadingText, loading, err, Truthy(user), count)
  }

  class DoctorAppointmentPage {
    var appointments: seq<Appointment>
    var loading: bool
    var err: string
    var selectAppointment: Option<Appointment>
    var displayOverlay: bool
    /** Every request sent, oldest first. */
    var requests: seq<AppointmentRequest>

    /** The scheduling overlay only ever opens on an appointment that can still be acted on. */
    ghost predicate Valid()
      reads this
    {
      displayOverlay ==> selectAppointment.Some? && !IsActionDisabled(selectAppointment.value)
    }

    constructor ()
      ensures Valid()
      ensures appointments == [] && !loading && err == "" && selectAppointment == None && !displayOverlay
      ensures requests == []
    {
      appointments := [];
      loading := false;
      err := "";
      selectAppointment := None;
      displayOverlay := false;
      requests := [];
    }

    /** `getAppointment` up to the request: nothing without a user id; otherwise loading starts,
        the error is cleared and the list is requested for that id. */
    method GetAppointment(userId: Option<string>)
      requires Valid()
      modifies this
      ensures Valid()
      ensures !Truthy(userId) ==> loading == old(loading) && err == old(err) && requests == old(requests)
      ensures Truthy(userId) ==> loading && err == "" && requests == old(requests) + [ListForDoctor(userId.value)]
      ensures appointments == old(appointments) && selectAppointment == old(selectAppointment)
      ensures displayOverlay == old(displayOverlay)
    {
      if !Truthy(userId) {
        return;
      }
      loading := true;
      err := "";
      requests := requests + [ListForDoctor(userId.value)];
    }

    /** The end of `getAppointment`: the returned list (or none when falsy); nothing after a
        cancellation; the error, its toast and an empty list after a failure. Loading always ends. */
    method FinishGet(outcome: FetchOutcome) returns (toast: Option<string>)
      requires Valid()
      modifies this
      ensures Valid() && !loading
      ensures outcome.Fetched? ==> appointments == outcome.data.GetOr([]) && err == old(err) && toast == None
      ensures outcome.Cancelled? ==> appointments == old(appointments) && err == old(err) && toast == None
      ensures outcome.FetchFailed? ==> appointments == [] && err == FailureText && toast == Some(FailureText)
      ensures requests == old(requests) && selectAppointment == old(selectAppointment)
      ensures displayOverlay == old(displayOverlay)
    {
      toast := None;
      match outcome {
        case Fetched(data) =>
          appointments := data.GetOr([]);
        case Cancelled =>
        case FetchFailed =>
          err := FailureText;
          toast := Some(FailureText);
          appointments := [];
      }
      loading := false;
    }

    /** "Accept": opens the scheduling overlay on the appointment, unless the button is disabled. */
    method Accept(a: Appointment)
      requires Valid()
      modifies this
      ensures Valid()
      ensures IsActionDisabled(a) ==> selectAppointment == old(selectAppointment) && displayOverlay == old(displayOverlay)
      ensures !IsActionDisabled(a) ==> selectAppointment == Some(a) && displayOverlay
      ensures appointments == old(appointments) && loading == old(loading) && err == old(err)
      ensures requests == old(requests)
    {
      if !IsActionDisabled(a) {
        selectAppointment := Some(a);
        displayOverlay := true;
      }
    }

    /** "Reject": requests the deletion of the appointment, unless the button is disabled. */
    method Reject(a: Appointment)
      requires Valid()
      modifies this
      ensures Valid()
      ensures IsActionDisabled(a) ==> requests == old(requests)
      ensures !IsActionDisabled(a) ==> requests == old(requests) + [DeleteAppointment(a.id)]
      ensures appointments == old(appointments) && loading == old(loading) && err == old(err)
      ensures selectAppointment == old(selectAppointment) && displayOverlay == old(displayOverlay)
    {
      if !IsActionDisabled(a) {
        requests := requests + [DeleteAppointment(a.id)];
      }
    }

    /** The end of `deleteAppointment`: a deletion that succeeded is toasted and followed by a new
        list request, exactly as `getAppointment` starts one; a failed one only toasts. */
    method FinishDelete(deleted: bool, userId: Option<string>) returns (toast: string)
      requires Valid()
      modifies this
      ensures Valid()
      ensures toast == if deleted then DeletedText else DeleteFailedText
      ensures deleted && Truthy(userId) ==>
        loading && err == "" && requests == old(requests) + [ListForDoctor(userId.value)]
      ensures !deleted || !Truthy(userId) ==> loading == old(loading) && err == old(err) && requests == old(requests)
      ensures appointments == old(appointments) && selectAppointment == old(selectAppointment)
      ensures displayOverlay == old(displayOverlay)
    {
      if deleted {
        toast := DeletedText;
        GetAppointment(userId);
      } else {
        toast := DeleteFailedText;
      }
    }
  }

  /** Rejecting a pending appointment sends its deletion, and a successful deletion is followed by
      the list request for the same doctor, in that order. */
  method RejectThenRefetch(doctorId: string, a: Appointment)
    requires doctorId != "" && !IsActionDisabled(a)
  {
    var page := new DoctorAppointmentPage();
    page.Reject(a);
    var toast := page.FinishDelete(true, Some(doctorId));
    assert toast == DeletedText;
    assert page.requests == [DeleteAppointment(a.id), ListForDoctor(doctorId)];
    assert page.loading && PlaceholderRow(page.loading, page.err, Some(doctorId), |page.appointments|) == Some(LoadingText);
  }
}
