/** What the two appointment tables share: the appointment record they list, how a list request
    ends, and the message of the placeholder row. */
module Appointments {
  import opened Js

  /** The appointment fields the tables read. */
  datatype Appointment = Appointment(
    id: Option<string>,
    status: Option<string>,
    date: Option<string>,
    time: Option<string>)

  /** How a list request ends: the response data (absent when falsy), a cancellation by the
      effect's abort, or any other failure. */
  datatype FetchOutcome = Fetched(data: Option<seq<Appointment>>) | Cancelled | FetchFailed

  const NoAppointmentsText := "No appointments yet."
  const LoadingUserText := "Loading user\U{2026}"

  /** The placeholder row under the table: present while loading, after an error or with an
      empty list; its text is the loading text, else the error, else a message that depends on
      whether a user is known. */
  function Placeholder(loadingText: string, loading: bool, err: string, userPresent: bool, count: nat): (row: Option<string>)
    ensures row.Some? <==> loading || err != "" || count == 0
    ensures loading ==> row == Some(loadingText)
    ensures !loading && err != "" ==> row == Some(err)
    ensures !loading && err == "" && count == 0 ==>
      row == Some(if userPresent then NoAppointmentsText else LoadingUserText)
  {
    if !(loading || err != "" || count == 0) then None
    else if loading then Some(loadingText)
    else if err != "" then Some(err)
    else if userPresent then Some(NoAppointmentsText)
    else Some(LoadingUserText)
  }
}
