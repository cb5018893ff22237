/** The patient's appointment table (`UserAppointment.jsx`): the list request for the logged-in
    user and the Join button that needs a date. */
module UserAppointments {
  import opened Js
  import opened Appointments

  const FailureText := "Failed to load appointments."
  const LoadingText := "Loading appointments\U{2026}"

  /** `canJoin`: an appointment can be joined exactly when it has a date. */
  predicate CanJoin(a: Appointment) {
    Truthy(a.date)
  }

  /** Joining looks at the date alone: the status, id and time of an appointment never enable
      or disable its Join button, so a rejected appointment with a date can still be joined. */
  lemma JoinIgnoresStatus(a: Appointment, id: Option<string>, status: Option<string>, time: Option<string>)
    ensures CanJoin(a.(id := id, status := status, time := time)) == CanJoin(a)
    ensures CanJoin(a) <==> a.date.Some? && a.date.value != ""
  {
  }

  /** The placeholder row of this table. */
  function PlaceholderRow(loading: bool, err: string, user: Option<string>, count: nat): (row: Option<string>)
    ensures row.Some? <==> loading || err != "" || count == 0
    ensures loading ==> row == Some(LoadingText)
    ensures !loading && err == "" && count == 0 && !Truthy(user) ==> row == Some(LoadingUserText)
  {
    Placeholder(LoadingText, loading, err, Truthy(user), count)
  }

  class UserAppointmentPage {
    var appointments: seq<Appointment>
    var loading: bool
    var err: string
    /** The user ids the list was requested for, oldest first. */
    var requests: seq<string>

    constructor ()
      ensures appointments == [] && !loading && err == "" && requests == []
    {
      appointments := [];
      loading := false;
      err := "";
      requests := [];
    }

    /** `getAppointment` up to the request: nothing without a user id; otherwise loading starts,
        the error is cleared and the list is requested for that id. */
    method GetAppointment(userId: Option<string>)
      modifies this
      ensures !Truthy(userId) ==> loading == old(loading) && err == old(err) && requests == old(requests)
      ensures Truthy(userId) ==> loading && err == "" && requests == old(requests) + [userId.value]
      ensures appointments == old(appointments)
    {
      if !Truthy(userId) {
        return;
      }
      loading := true;
      err := "";
      requests := requests + [userId.value];
    }

    /** The end of `getAppointment`: the returned list (or none when falsy); nothing after a
        cancellation; the error and an empty list after a failure. Loading always ends. */
    method FinishGet(outcome: FetchOutcome)
      modifies this
      ensures !loading && requests == old(requests)
      ensures outcome.Fetched? ==> appointments == outcome.data.GetOr([]) && err == old(err)
      ensures outcome.Cancelled? ==> appointments == old(appointments) && err == old(err)
      ensures outcome.FetchFailed? ==> appointments == [] && err == FailureText
    {
      match outcome {
        case Fetched(data) =>
          appointments := data.GetOr([]);
        case Cancelled =>
        case FetchFailed =>
          err := FailureText;
          appointments := [];
      }
      loading := false;
    }
  }

  /** A failed load shows its error in the placeholder row, and a cancelled one shows no error. */
  method LoadScenarios(userId: string)
    requires userId != ""
  {
    var page := new UserAppointmentPage();
    page.GetAppointment(Some(userId));
    page.FinishGet(FetchFailed);
    assert PlaceholderRow(page.loading, page.err, Some(userId), |page.appointments|) == Some(FailureText);
    page.GetAppointment(Some(userId));
    page.FinishGet(Cancelled);
    assert page.err == "" && !page.loading;
    assert PlaceholderRow(page.loading, page.err, Some(userId), |page.appointments|) == Some(NoAppointmentsText);
  }
}
