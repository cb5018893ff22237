# Health AI client and chat backend, modelled in Dafny

Health AI is a medical web application. Its React client lets a patient (a "health seeker")
or a doctor sign up, upload a CSV file and have a synthetic dataset generated from it,
describe a dataset by its fields and have it generated, upload a medical image or a report
scan and read (or download as a PDF) the text the server extracts, browse doctors and book
appointments, list appointments, and chat with the other party in a consultation room.
A Flask-SocketIO backend keeps the chat rooms and relays the messages.

The model covers the logic of those client components and the three Socket.IO handlers of
the backend:

- `js.dfy` (`Js`): the JavaScript semantics the components rely on.
  - Truthiness of possibly missing strings, and `||` and `??` on them.
  - `trim`, `startsWith`, and `split`/`join` on one character.
  - `parseInt(s, 10)`.
  - Numbers as the client sees them: NaN, the infinities and finite values.
  - Plain objects as ordered key/value lists.
- `api.dfy` (`Api`): building REST URLs from the configured base.
- The chat.
  - `chat_protocol.dfy`: the payloads on the wire.
  - `chat_client.dfy`: the `DoctorChat` view as a class whose fields are the view's state plus the sequence of every event it has emitted.
  - `chat_server.dfy`: the backend handlers as a class holding a room-to-sessions map and the sequence of every emission.
- One module per form or page, each a class over the component's state, with one method per handler:
  - `upload_file.dfy`, `dynamic_form.dfy`, `report_uploader.dfy`, `image_form.dfy`;
  - `doctor_profile.dfy`;
  - `doctor_appointments.dfy` and `user_appointments.dfy`, whose shared parts are in `appointments.dfy`;
  - `doctor_signup.dfy` and `user_signup.dfy`, whose shared parts are in `signup_common.dfy`.

Each handler is split at its `await`:

- one method runs up to the request and returns the request it sends;
- a second method takes the way the request ended as a parameter (an outcome datatype) and applies the rest of the handler.

The clock, the object URLs of `URL.createObjectURL` and the text wrapping of jsPDF are parameters as well.

The proved properties fall into six groups.

- **Chat, client side.** While the chat view is mounted, its socket belongs to exactly one room: the room of the selected profile. After unmounting it belongs to none. This is the class invariant of `DoctorChat`. It holds because every switch of profile emits `leave_room` for the old room before `join_room` for the new one.
- **Chat, server side.** Its `message` handler only ever receives chat payloads, never system notices. A sender that has joined the room gets its own message back.
- **Text handling.**
  - `trim` is idempotent, and whitespace padding does not change it.
  - `split` and `join` are inverse to each other.
  - `parseInt` reads back the decimal spelling of a number, and of its negation.
  - The shortened profile description is a prefix of the original, cut at the space that ends the tenth word.
- **Request payloads.**
  - The signup payloads hold exactly the trimmed texts.
  - The dataset request holds only complete, trimmed, non-empty pairs, each taken from a row of the form.
  - Resubmitting what was sent sends the same request again.
- **The PDF download.** The pagination loop draws every line exactly once, in order, at the left margin and between the margins. A new page starts exactly when the next line would cross the bottom margin.
- **State after each handler.** Each handler's method states the component's whole new state: what is shown, what is cleared, and the toast or alert that appears.

Two behaviours of the code that a reader might not expect are modelled as written:

- The chat sends the compose text untrimmed; the blank check is the only trimming.
- The chat transcript is never cleared when the selected profile changes, so messages from the previous room stay in view.
- The doctor list (`DoctorsProfilePage.js:89`) renders each profile card with neither a `user` nor a `setLoading`, so every booking made from it is refused with "Please log in to book an appointment." (`DoctorProfile.BookAppointment` with no user) and no loading call is made (`DoctorProfile.LoadingCalls` without the callback).

Both signup buttons, like the other submit buttons, are disabled while loading (`GeneralUserSignupForm.jsx:128`, `DocotrSignupForm.jsx:189`). A method that models such a handler therefore requires that nothing is loading. The doctor form also checks `loading` itself, and its method models that check.

## Model

| member | source | states |
|---|---|---|
| Js.Or | my-app/src/DoctorChat.js:27 | `a \|\| b` is the first string when it is truthy and the second otherwise |
| Js.OrDefault | my-app/src/components/Auth/GeneralUserSignupForm.jsx:59-62 | `a \|\| "text"` is the string when it is truthy and the default otherwise |
| Js.Keys | my-app/src/components/UploadFile.jsx:50 | `Object.keys` gives one key per property, in property order |
| Js.Get | my-app/src/components/UploadFile.jsx:51 | a key the object lacks reads as `undefined`; a key that is present reads as the value of its first property with that key |
| Js.TrimStart | my-app/src/components/Auth/GeneralUserSignupForm.jsx:32-34 | the result is a suffix of the input; everything removed is whitespace; the result does not start with whitespace |
| Js.TrimEnd | my-app/src/components/Auth/GeneralUserSignupForm.jsx:32-34 | the result is a prefix of the input; everything removed is whitespace; the result does not end with whitespace |
| Js.Trim | my-app/src/components/Auth/GeneralUserSignupForm.jsx:32-34 | the trimmed text is a contiguous piece of the input with only whitespace around it, and neither starts nor ends with whitespace |
| Js.BlankIffAllWhitespace | my-app/src/DoctorChat.js:75 | `!s.trim()` holds exactly when every character is whitespace (both directions) |
| Js.TrimIdempotent | my-app/src/DynamicForm.js:47-48 | trimming twice gives the same text as trimming once |
| Js.TrimStartPadded | my-app/src/components/Auth/GeneralUserSignupForm.jsx:32-34 | leading whitespace does not change the text with leading whitespace removed |
| Js.TrimStartAppend | my-app/src/components/Auth/GeneralUserSignupForm.jsx:32-34 | removing leading whitespace leaves what follows the first non-whitespace character as it is |
| Js.TrimEndPadded | my-app/src/components/Auth/GeneralUserSignupForm.jsx:32-34 | trailing whitespace does not change the text with trailing whitespace removed |
| Js.TrimPadded | my-app/src/components/Auth/GeneralUserSignupForm.jsx:32-34 | whitespace added on either side does not change the trimmed text |
| Js.TrimmedNonBlank | my-app/src/DynamicForm.js:28-30 | a text that is not blank trims to a non-empty text that is itself not blank |
| Js.Split | my-app/src/IndividualDoctorProfile.js:13 | `split(" ")` gives at least one part, and no part contains the separator |
| Js.JoinSplit | my-app/src/IndividualDoctorProfile.js:13-14 | joining the parts of a split gives back the original text |
| Js.SplitAtSeparator | my-app/src/IndividualDoctorProfile.js:13 | a separator-free prefix followed by the separator becomes the first part |
| Js.SplitJoin | my-app/src/IndividualDoctorProfile.js:13-14 | splitting a join of separator-free parts gives back those parts |
| Js.SplitWithoutSeparator | my-app/src/IndividualDoctorProfile.js:13 | a text without the separator splits into itself alone |
| Js.JoinConcat | my-app/src/IndividualDoctorProfile.js:14 | joining the first n parts, then the separator, then the rest, equals joining all the parts |
| Js.SplitPrefix | my-app/src/IndividualDoctorProfile.js:13-14 | joining the first n parts gives a proper prefix of the text that is followed by a separator and splits into exactly those n parts |
| Js.Join | my-app/src/IndividualDoctorProfile.js:14 | `join(" ")`; its behaviour is stated by `Js.JoinSplit`, `Js.SplitJoin` and `Js.JoinConcat` (join and split are inverse; joining splits at any part boundary) |
| Js.DigitPrefix | my-app/src/components/UploadFile.jsx:97 | the longest prefix made of decimal digits; the character after it, if any, is not a digit |
| Js.Unsigned | my-app/src/components/UploadFile.jsx:97 | one leading `+` or `-` is dropped and nothing else |
| Js.DecimalString | my-app/src/components/UploadFile.jsx:97 | the decimal spelling of a count typed into the box is non-empty and made only of digits |
| Js.DecimalValue | my-app/src/components/UploadFile.jsx:97 | the digits of a number's decimal spelling have that number as their value |
| Js.DigitPrefixOfDigits | my-app/src/components/UploadFile.jsx:97 | an all-digit text is its own digit prefix |
| Js.ParseIntDecimal | my-app/src/components/UploadFile.jsx:97 | `parseInt` reads a number's decimal spelling as that number, and the spelling after `-` as its negation |
| Js.ParseIntDigits | my-app/src/components/UploadFile.jsx:97 | a non-empty digit string is read as its value |
| Js.ParseIntNegated | my-app/src/components/UploadFile.jsx:97 | a digit string after `-` is read as the negation of its value |
| Js.ParseIntFrom | my-app/src/components/UploadFile.jsx:97 | without leading whitespace, parsing starts at the sign |
| Js.ParseSignedMinus | my-app/src/components/UploadFile.jsx:97 | a leading minus gives the negated value of the digits after it |
| Js.TrimStartFrom | my-app/src/components/UploadFile.jsx:97 | a text that starts with a non-whitespace character loses nothing to the whitespace skip |
| Js.ParseIntIgnoresSurroundings | my-app/src/components/UploadFile.jsx:97 | leading whitespace, and anything after the digits that is not a digit, do not change the value read |
| Js.ParseIntUnsigned | my-app/src/components/UploadFile.jsx:97 | with no sign after the whitespace, the value read is that of the leading digits |
| Js.TrimStartSkipsTo | my-app/src/components/UploadFile.jsx:97 | whitespace before a digit string is skipped up to the first digit |
| Js.TrimStartSkips | my-app/src/components/UploadFile.jsx:97 | whitespace before a non-whitespace character is skipped exactly up to it |
| Js.DigitPrefixStops | my-app/src/components/UploadFile.jsx:97 | the digit prefix ends where the first non-digit after the digits stands |
| Js.ParseInt | my-app/src/components/UploadFile.jsx:97 | `Number.parseInt(s, 10)`: leading whitespace skipped, then `Js.ParseSigned`; its behaviour is stated by `Js.ParseIntDecimal`, `Js.ParseIntIgnoresSurroundings` and `Js.ParseIntUnsigned` |
| Js.ParseSigned | my-app/src/components/UploadFile.jsx:97 | an optional sign, then the leading digits, and NaN when there are none; stated by `Js.ParseSignedMinus`, `Js.ParseIntFrom` and `Js.ParseIntUnsigned` |
| Api.RawBase | my-app/src/api.js:2 | a missing or empty environment variable gives an empty base; a set one gives its trimmed text |
| Api.ApiBase | my-app/src/api.js:3 | the base is a prefix of the raw text; everything removed is `/`; the base does not end with `/` |
| Api.LeadingSlash | my-app/src/api.js:5 | the path starts with `/`, and is either the input or the input with one `/` put in front |
| Api.ApiUrl | my-app/src/api.js:4-7 | the URL starts with the whole base and continues with the path led by exactly the slash `LeadingSlash` gives it, so it is always longer than the base |
| Api.ApiUrlShape | my-app/src/api.js:4-7 | the URL is the base followed by the path, with one `/` added exactly when the path lacks it |
| Api.SlashOptional | my-app/src/api.js:5 | `apiUrl("x")` and `apiUrl("/x")` are the same URL |
| Api.EmptyBase | my-app/src/api.js:6 | with no base configured, the URL is the path with its leading slash |
| Api.DefaultPath | my-app/src/api.js:4-6 | `apiUrl()` is the base followed by `/` |
| Api.TrailingSlashesIgnored | my-app/src/api.js:3-6 | a slash added to the end of the configured base changes no URL |
| Api.SingleSlashJoin | my-app/src/api.js:3-6 | a configured base and a path that does not start with `//` are joined by exactly one slash |
| Appointments.Placeholder | my-app/src/components/DoctorPortal/DoctorAppointment.jsx:107-118 | the placeholder row appears exactly while loading, after an error, or with an empty list. Its text is the loading text, else the error, else "No appointments yet." or "Loading user…" depending on whether there is a user. UserAppointment.jsx:86-97 renders the same row |
| ChatClient.Classify | my-app/src/DoctorChat.js:161-163 | a message is rendered as 'sent' exactly when its sender equals the current user |
| ChatClient.NetJoinsAppend | my-app/src/DoctorChat.js:49-72 | the net joins of a room over two runs of events add up |
| ChatClient.RoomSwitchBalance | my-app/src/DoctorChat.js:50-71 | one effect cleanup followed by the next effect start leaves the old room and joins the new one (net −1/+1; 0 when both are the same room) |
| ChatClient.CurrentUser | my-app/src/DoctorChat.js:27 | the session's first name when it is truthy, and its `name` otherwise |
| ChatClient.RoomOf | my-app/src/DoctorChat.js:51 | there is a room exactly when a profile is selected and its id is truthy, and the room is that non-empty id |
| ChatClient.JoinEmits | my-app/src/DoctorChat.js:51-56 | the effect's start raises membership of the selected room by one and of every other room by nothing |
| ChatClient.LeaveEmits | my-app/src/DoctorChat.js:65-70 | the effect's cleanup lowers membership of the selected room by one and of every other room by nothing |
| ChatClient.Compose | my-app/src/DoctorChat.js:76-82 | the chat record of `sendMessage`; what it causes is stated by `ChatClient.SideIsByName` and `ChatClient.DoctorChat.Send` |
| ChatClient.SideIsByName | my-app/src/DoctorChat.js:161-163 | a message composed in any session is shown as sent in another exactly when the two display names agree, so two users with the same name see each other's messages as their own |
| ChatClient.DoctorChat.constructor | my-app/src/DoctorChat.js:16-56 | mounting starts with an empty transcript and compose box and the video hidden, and emits `join_room` for the routed profile's room when it has an id |
| ChatClient.DoctorChat.Select | my-app/src/DoctorChat.js:49-72 | choosing a different profile (line 103) emits `leave_room` for the old room and then `join_room` for the new one; the transcript and compose box are kept; the one-room invariant holds |
| ChatClient.DoctorChat.Type | my-app/src/DoctorChat.js:173 | typing sets the compose text and nothing else |
| ChatClient.DoctorChat.Send | my-app/src/DoctorChat.js:74-91 | blank text does nothing. Otherwise one untrimmed record (room id, sender, sender email, text, time) is emitted and also appended to the transcript, and the box is cleared |
| ChatClient.DoctorChat.Receive | my-app/src/DoctorChat.js:59-61 | an inbound message is appended as it is, whatever its room, while mounted; nothing else changes |
| ChatClient.DoctorChat.ToggleVideo | my-app/src/DoctorChat.js:147 | the click flips whether the video call is shown, and nothing else |
| ChatClient.DoctorChat.Unmount | my-app/src/DoctorChat.js:63-71 | the last cleanup emits `leave_room` for the current room; afterwards the view is in no room |
| ChatServer.InboxAppend | backend/app.py:98-102 | what a session receives over two runs of emissions is what it receives over each, in order |
| ChatServer.InboxOnlyChat | backend/app.py:80-102 | with `joinRoom`/`leftRoom` used for notices and `message` for chat, a `message` handler only ever receives forwarded chat payloads |
| ChatServer.NameOrGuest | backend/app.py:83 | `data.get("name", "Guest")`: a name that is sent is used as it is, even when empty; only a missing one becomes "Guest" |
| ChatServer.SocketServer.constructor | backend/app.py:79 | the server starts with no rooms and no emissions |
| ChatServer.SocketServer.HandleJoinRoom | backend/app.py:80-87 | without a room name nothing happens. Otherwise the session is added to the room, and "<name> joined." from "System" (name defaulting to "Guest") goes on `joinRoom` to every member, the joiner included. Other rooms are unchanged |
| ChatServer.SocketServer.HandleLeaveRoom | backend/app.py:89-96 | without a room name nothing happens. Otherwise the session is removed first, and "<name> left." goes on `leftRoom` to the members that remain, so never back to the leaver |
| ChatServer.SocketServer.HandleSendMessage | backend/app.py:98-102 | with a room name, the payload is forwarded unchanged on `message` to exactly the room's current members; membership is untouched |
| ChatServer.SocketServer.Emit | backend/app.py:102 | an emission is recorded in order and reaches the `message` handler of exactly the sessions it is addressed to |
| DoctorAppointments.ActionsFollowStatus | my-app/src/components/DoctorPortal/DoctorAppointment.jsx:57 | an appointment that is pending or has no status can be acted on; any other status disables Accept and Reject |
| DoctorAppointments.IsActionDisabled | my-app/src/components/DoctorPortal/DoctorAppointment.jsx:57 | `isActionDisabled`; its partner is the page invariant `DoctorAppointmentPage.Valid` (the overlay only ever shows an appointment that is not disabled), which the constructor establishes and `Accept`, `Reject`, `GetAppointment`, `FinishGet` and `FinishDelete` preserve |
| DoctorAppointments.PlaceholderRow | my-app/src/components/DoctorPortal/DoctorAppointment.jsx:107-118 | the row appears exactly while loading, after an error, or with an empty list; while loading it reads "Loading…"; with nothing wrong, no rows and no user it reads "Loading user…" |
| DoctorAppointments.DoctorAppointmentPage.constructor | my-app/src/components/DoctorPortal/DoctorAppointment.jsx:10-14 | the page starts with no appointments, no selection, the overlay closed, not loading, no error and no request |
| DoctorAppointments.DoctorAppointmentPage.GetAppointment | my-app/src/components/DoctorPortal/DoctorAppointment.jsx:18-27 | without a user id nothing happens. Otherwise loading starts, the error is cleared and the list is requested for that id |
| DoctorAppointments.DoctorAppointmentPage.FinishGet | my-app/src/components/DoctorPortal/DoctorAppointment.jsx:28-37 | on success the list is the response data, or empty when that is falsy. A cancellation changes nothing. Any other failure sets the error, shows its toast and empties the list. Loading ends in every case |
| DoctorAppointments.DoctorAppointmentPage.Accept | my-app/src/components/DoctorPortal/DoctorAppointment.jsx:89-95 | an enabled Accept selects the appointment and opens the overlay; a disabled one does nothing; the overlay only ever shows an actionable appointment |
| DoctorAppointments.DoctorAppointmentPage.Reject | my-app/src/components/DoctorPortal/DoctorAppointment.jsx:96-102 | an enabled Reject requests the deletion of that appointment id; a disabled one sends nothing |
| DoctorAppointments.DoctorAppointmentPage.FinishDelete | my-app/src/components/DoctorPortal/DoctorAppointment.jsx:40-49 | a successful deletion shows its toast and starts a new list request exactly as `getAppointment` does; a failed one only shows its error toast |
| DoctorProfile.LimitDescription | my-app/src/IndividualDoctorProfile.js:11-15 | a falsy description becomes ""; one of at most ten space-separated words is shown whole |
| DoctorProfile.LongDescriptionCut | my-app/src/IndividualDoctorProfile.js:13-14 | a longer description is cut at the space that ends its tenth word: what is shown is the original up to that space, which holds exactly its first ten words, then "..." |
| DoctorProfile.LongDescriptionWordCount | my-app/src/IndividualDoctorProfile.js:14 | the shortened text, without its "...", has exactly ten words |
| DoctorProfile.Fee | my-app/src/IndividualDoctorProfile.js:41-44 | a fee is shown exactly when the profile's fee is a JSON number, and it is that number |
| DoctorProfile.BookAppointment | my-app/src/IndividualDoctorProfile.js:17-30 | without a logged-in user the booking is refused as "not logged in", whatever the profile. With a user but no loaded profile it is refused as "profile not loaded". Otherwise the payload carries both ids, the user's first name and email, and the doctor's name and email |
| DoctorProfile.LoadingCalls | my-app/src/IndividualDoctorProfile.js:21-38 | the loading flag is touched exactly when the optional `setLoading` callback was passed and the booking is sent, and then it is set on once and off once, in that order; a refused booking, or a component given no callback, makes no call |
| DoctorSignup.SetField | my-app/src/components/Auth/DocotrSignupForm.jsx:32-35 | the named input takes the new text and every other input keeps its own |
| DoctorSignup.Validate | my-app/src/components/Auth/DocotrSignupForm.jsx:41-60 | on any form contents, `handleOnSubmit` refuses exactly when a fee was typed and is not a number. Otherwise name, email, address, mobile and description are sent trimmed, and the password and specialty as typed. The fee is absent exactly when its box is empty, and is otherwise the number (never NaN). The account type is "DOCTOR" |
| DoctorSignup.PaddingIgnored | my-app/src/components/Auth/DocotrSignupForm.jsx:43-52 | whitespace around the name and the mobile number does not change the outcome |
| DoctorSignup.SameTrimSameValidation | my-app/src/components/Auth/DocotrSignupForm.jsx:42-55 | two forms whose trimmed texts agree, and whose untrimmed password, specialty and fee text agree, are validated alike |
| DoctorSignup.DoctorSignupForm.constructor | my-app/src/components/Auth/DocotrSignupForm.jsx:7-17 | all eight inputs start empty and nothing is loading |
| DoctorSignup.DoctorSignupForm.OnChange | my-app/src/components/Auth/DocotrSignupForm.jsx:32-35 | a change event updates exactly the named input |
| DoctorSignup.DoctorSignupForm.Submit | my-app/src/components/Auth/DocotrSignupForm.jsx:37-63 | nothing at all happens while a request runs. Otherwise the submission is validated, and loading starts exactly when the payload is sent |
| DoctorSignup.DoctorSignupForm.Finish | my-app/src/components/Auth/DocotrSignupForm.jsx:64-91 | success clears all inputs and shows the success toast; a failure keeps them and shows the chosen error text; loading ends |
| DynamicForm.CompleteEntries | my-app/src/DynamicForm.js:28-30 | the rows kept are exactly the rows whose name and description are both non-blank |
| DynamicForm.CompleteEntriesAppend | my-app/src/DynamicForm.js:28-30 | the filter works row by row and keeps the order: the complete rows of two lists are those of the first followed by those of the second |
| DynamicForm.TrimmedFields | my-app/src/DynamicForm.js:47 | one trimmed name per row, in row order |
| DynamicForm.TrimmedDescriptions | my-app/src/DynamicForm.js:48 | one trimmed description per row, in row order |
| DynamicForm.Pairs | my-app/src/DynamicForm.js:45-49 | the rows rebuilt from a request pair its i-th name with its i-th description |
| DynamicForm.ValidateSubmission | my-app/src/DynamicForm.js:26-49 | the size is checked first, so a size that is not a finite number above zero is refused whatever the rows. Then no complete row means a refusal for the rows. Otherwise the request carries the size and the trimmed names and descriptions of the complete rows |
| DynamicForm.NoCompleteFieldIffNoneComplete | my-app/src/DynamicForm.js:28-39 | with a valid size, the submission is refused for its rows exactly when no row is complete (both directions) |
| DynamicForm.RequestEntriesNonBlank | my-app/src/DynamicForm.js:28-48 | every name and description sent is non-empty and already trimmed, and they come together from one row of the form |
| DynamicForm.CompleteEntriesKeepsAll | my-app/src/DynamicForm.js:28-30 | rows that are all complete are all kept, in order |
| DynamicForm.ResubmitSameRequest | my-app/src/DynamicForm.js:27-49 | filling the form with exactly what was sent and submitting again sends the same request |
| DynamicForm.TrimmedPairs | my-app/src/DynamicForm.js:47-48 | trimming rows whose texts are already trimmed gives back those texts |
| DynamicForm.DatasetForm.constructor | my-app/src/DynamicForm.js:6-11 | the form starts with one empty row, an empty size, no dataset and nothing to download |
| DynamicForm.DatasetForm.AddMore | my-app/src/DynamicForm.js:13-15 | "Add More" appends one empty row |
| DynamicForm.DatasetForm.SetSize | my-app/src/DynamicForm.js:105 | the size box holds the typed text |
| DynamicForm.DatasetForm.InputChange | my-app/src/DynamicForm.js:17-21 | only the edited input of the edited row changes |
| DynamicForm.DatasetForm.Submit | my-app/src/DynamicForm.js:23-49 | a refused submission changes nothing but its alert; an accepted one starts loading, hides the download and sends the validated request |
| DynamicForm.DatasetForm.Finish | my-app/src/DynamicForm.js:51-81 | a returned dataset is kept and offered for download; any failure alerts and leaves the download hidden; loading ends; the download button is shown exactly when a URL is held |
| DynamicForm.DatasetForm.DownloadFile | my-app/src/DynamicForm.js:84-92 | the held URL is followed, and nothing happens without one |
| ImageForm.CheckImage | my-app/src/DiesesFormImage.js:23-32 | a file is refused as "not an image" exactly when its type lacks `image/`; an image is refused as "too large" exactly when it exceeds 10 MiB; otherwise it is accepted |
| ImageForm.SizeBoundary | my-app/src/DiesesFormImage.js:29 | an image of exactly 10 485 760 bytes is accepted and one byte more is refused |
| ImageForm.TypeCheckedFirst | my-app/src/DiesesFormImage.js:24-32 | a large non-image is refused for its type |
| ImageForm.ImageReportForm.constructor | my-app/src/DiesesFormImage.js:8-12 | nothing selected, no preview, no report and no error |
| ImageForm.ImageReportForm.FileChange | my-app/src/DiesesFormImage.js:14-36 | everything is cleared first. A refused file leaves only its error, and an accepted one is selected with its preview. Only accepted files are ever selected, and a preview exists only for a selection |
| ImageForm.ImageReportForm.Submit | my-app/src/DiesesFormImage.js:38-49 | without a selection only the error "Please upload an image first." is set; otherwise the selected file is sent, loading starts and the error is cleared |
| ImageForm.ImageReportForm.Finish | my-app/src/DiesesFormImage.js:50-64 | the report, or "No report returned." when it is missing; or the server's message, else the fixed error; loading ends |
| ReportUploader.DownloadText | my-app/src/components/ReportUploader.jsx:57 | the document text is never empty, and is the formatted text when there is one |
| ReportUploader.DrawnAppend | my-app/src/components/ReportUploader.jsx:64-71 | the texts drawn by two runs of calls are those of each, in order |
| ReportUploader.EveryLineDrawnOnce | my-app/src/components/ReportUploader.jsx:64-71 | the loop draws every line exactly once, in order |
| ReportUploader.DrawnAtMargin | my-app/src/components/ReportUploader.jsx:69 | every line is drawn at the left margin, 40 points |
| ReportUploader.LinesInsideMargins | my-app/src/components/ReportUploader.jsx:60-71 | on a page at least 96 points high, every line lies between the top margin and the bottom margin |
| ReportUploader.LayoutHead | my-app/src/components/ReportUploader.jsx:65-69 | a line that would cross the bottom margin starts a new page (and only then); one that fits is drawn at the cursor |
| ReportUploader.NewPageStartsAtTop | my-app/src/components/ReportUploader.jsx:65-69 | a new page is always followed at once by a line at the top margin |
| ReportUploader.PageBreaks | my-app/src/components/ReportUploader.jsx:64-71 | after a line, a new page follows exactly when one more line would cross the bottom margin (both directions) |
| ReportUploader.LinesAdvance | my-app/src/components/ReportUploader.jsx:69-70 | two lines on the same page are one line height (16 points) apart |
| ReportUploader.LayoutStep | my-app/src/components/ReportUploader.jsx:64-71 | one iteration of the loop is one step of the layout: an optional new page, then the line at the top of the page or at the cursor |
| ReportUploader.Paginate | my-app/src/components/ReportUploader.jsx:60-71 | the `forEach` loop produces exactly the layout whose properties are proved above |
| ReportUploader.ReportPage.constructor | my-app/src/components/ReportUploader.jsx:9-12 | nothing selected, loading off, both texts empty |
| ReportUploader.ReportPage.FileChange | my-app/src/components/ReportUploader.jsx:14-19 | the new selection, or none when the picker is emptied; both texts cleared |
| ReportUploader.ReportPage.Submit | my-app/src/components/ReportUploader.jsx:21-31 | without a file only the alert; otherwise the file is sent and loading starts |
| ReportUploader.ReportPage.Finish | my-app/src/components/ReportUploader.jsx:38-49 | the response is the extracted text (or "" when missing), or the fixed error text. A non-empty response is copied into the formatted text by the effect, so a response is always mirrored. Loading ends |
| ReportUploader.ReportPage.Download | my-app/src/components/ReportUploader.jsx:51-74 | the PDF is the layout of the wrapped formatted text, or of "No content" |
| SignupCommon.FailureText | my-app/src/components/Auth/GeneralUserSignupForm.jsx:59-62 | the server's message when it is truthy, else the error's own message when it is truthy, else the default text; never empty |
| SignupCommon.ResponseToast | my-app/src/components/Auth/GeneralUserSignupForm.jsx:44-63 | a success toast with "Account created successfully!" exactly on creation, otherwise an error toast with the failure text |
| UploadFile.OrEmpty | my-app/src/components/UploadFile.jsx:51 | `v ?? ""` is never undefined or null, keeps any other value, and replaces those two with "" |
| UploadFile.PreviewRow | my-app/src/components/UploadFile.jsx:51 | one cell per header, in header order: the row's value under that header, or "" |
| UploadFile.PreviewRows | my-app/src/components/UploadFile.jsx:51 | one preview row per row, in order |
| UploadFile.PreviewShape | my-app/src/components/UploadFile.jsx:50-51 | the preview holds the first min(15, n) rows, each with exactly one cell per header holding that row's value or "" |
| UploadFile.NonEmptyRows | my-app/src/components/UploadFile.jsx:77 | the rows kept are exactly those with at least one key |
| UploadFile.NonEmptyRowsAppend | my-app/src/components/UploadFile.jsx:77 | the filter works row by row and keeps the order |
| UploadFile.NonEmptyRowsKeepsAll | my-app/src/components/UploadFile.jsx:77 | rows that all have keys are all kept |
| UploadFile.Sample | my-app/src/components/UploadFile.jsx:97-98 | the sample is a prefix of the rows: min(n, rows) of them for a positive n, and all of them otherwise |
| UploadFile.SampleOfTypedCount | my-app/src/components/UploadFile.jsx:97-98 | typing a positive count k selects the first min(k, rows) rows |
| UploadFile.SampleOfNonPositiveCount | my-app/src/components/UploadFile.jsx:97-98 | typing zero or a negative count selects all rows |
| UploadFile.SampleOfEmptyCount | my-app/src/components/UploadFile.jsx:96-98 | an empty row-limit box selects all rows |
| UploadFile.UploadPage.constructor | my-app/src/components/UploadFile.jsx:13-28 | nothing parsed, no download, and the initial section, which shows neither table nor charts |
| UploadFile.UploadPage.HandleCsvParsing | my-app/src/components/UploadFile.jsx:36-56 | missing or empty data clears the table and shows the section of its kind. Chart data only switches to the charts. Table data shows its headers and a 15-row preview |
| UploadFile.UploadPage.Navigate | my-app/src/components/UploadFile.jsx:30-34 | the input button shows the sample as a table, the output button shows the generated rows as a table, and the chart button shows the generated rows as charts (line 204) |
| UploadFile.UploadPage.SetRowsToProcess | my-app/src/components/UploadFile.jsx:171 | the row-limit box holds the typed text |
| UploadFile.UploadPage.OnParseComplete | my-app/src/components/UploadFile.jsx:76-89 | the parsed rows are those with keys, and the preview is built from them, or cleared when none remain |
| UploadFile.UploadPage.HandleSubmit | my-app/src/components/UploadFile.jsx:93-103 | nothing without parsed rows. Otherwise the sample is stored, loading starts and the download is cleared. Once the input visualisation has been fetched (lines 107-110), the generation request carries the sample with its length as the size |
| UploadFile.UploadPage.FinishGeneration | my-app/src/components/UploadFile.jsx:105-136 | once generation answers, the output table is `dataset \|\| []`. The download and the charts section follow only when every step succeeded. Loading ends |
| UploadFile.UploadPage.DownloadFile | my-app/src/components/UploadFile.jsx:139-147 | the link is followed exactly when a CSV URL is held |
| UserAppointments.UserAppointmentPage.constructor | my-app/src/components/DoctorPortal/UserAppointment.jsx:8-10 | no appointments, not loading, no error, no request |
| UserAppointments.UserAppointmentPage.GetAppointment | my-app/src/components/DoctorPortal/UserAppointment.jsx:12-21 | without a user id nothing happens. Otherwise loading starts, the error is cleared and the list is requested for that id |
| UserAppointments.UserAppointmentPage.FinishGet | my-app/src/components/DoctorPortal/UserAppointment.jsx:22-30 | on success the list is the response data, or empty when that is falsy. A cancellation changes nothing. Any other failure sets the error and empties the list. Loading ends |
| UserAppointments.CanJoin | my-app/src/components/DoctorPortal/UserAppointment.jsx:40 | `canJoin`; stated by `UserAppointments.JoinIgnoresStatus` |
| UserAppointments.JoinIgnoresStatus | my-app/src/components/DoctorPortal/UserAppointment.jsx:40 | Join is enabled exactly when the date is a non-empty text, and the id, status and time never change that, so a rejected appointment with a date can be joined |
| UserAppointments.PlaceholderRow | my-app/src/components/DoctorPortal/UserAppointment.jsx:86-97 | the row appears exactly while loading, after an error, or with an empty list; while loading it reads "Loading appointments…"; with nothing wrong, no rows and no user it reads "Loading user…" |
| UserSignup.SetField | my-app/src/components/Auth/GeneralUserSignupForm.jsx:18-21 | the named input takes the new text and every other input keeps its own |
| UserSignup.SetFieldAlgebra | my-app/src/components/Auth/GeneralUserSignupForm.jsx:18-21 | change events behave as record writes: the last write to an input wins, writes to different inputs commute, and writing an input's own text back changes nothing |
| UserSignup.Validate | my-app/src/components/Auth/GeneralUserSignupForm.jsx:25-37 | on any form contents, `handleOnSubmit` refuses exactly when the untrimmed password and confirmation differ. Otherwise the names and email are sent trimmed, the password as typed, no confirmation field, and the account type "HEALTHSEAKER" |
| UserSignup.PaddingIgnored | my-app/src/components/Auth/GeneralUserSignupForm.jsx:31-35 | whitespace around the first name and before the email does not change what is sent |
| UserSignup.SameTrimSameValidation | my-app/src/components/Auth/GeneralUserSignupForm.jsx:25-37 | two forms whose trimmed names and email and whose passwords agree are validated alike |
| UserSignup.UserSignupForm.constructor | my-app/src/components/Auth/GeneralUserSignupForm.jsx:7-14 | all five inputs start empty and nothing is loading |
| UserSignup.UserSignupForm.OnChange | my-app/src/components/Auth/GeneralUserSignupForm.jsx:18-21 | a change event updates exactly the named input |
| UserSignup.UserSignupForm.Submit | my-app/src/components/Auth/GeneralUserSignupForm.jsx:23-40 | a mismatch only shows its toast; otherwise loading starts and the validated payload is sent |
| UserSignup.UserSignupForm.Finish | my-app/src/components/Auth/GeneralUserSignupForm.jsx:41-66 | success clears all inputs and shows the success toast; a failure keeps them and shows the chosen error text; loading ends |

The methods `ChatClient.SwitchBackScenario`, `ChatServer.SenderIsEchoed`, `DoctorAppointments.RejectThenRefetch` and `UserAppointments.LoadScenarios` drive the classes through short sequences of events and assert what the views show afterwards:

- selecting A, then B, then A again gives leave/join pairs in order, and the transcript is kept;
- a sender gets its own message back from the server;
- a rejection is followed by the refetch;
- a failed load shows its error and a cancelled load shows none.

## Left out

- HTML form checks. Every input of both signup forms is `required` (for example `GeneralUserSignupForm.jsx:75`, `DocotrSignupForm.jsx:100`) and the consultation fee box is `type="number"` (`DocotrSignupForm.jsx:148`), so a browser refuses to submit empty inputs or a non-numeric fee before `handleOnSubmit` runs. These checks are not modelled: `UserSignup.Validate` and `DoctorSignup.Validate` state what `handleOnSubmit` does with any form contents, including contents the browser would not submit.
- ChatServer.NameOrGuest: the name on the wire is `Option<string>`, so a JSON `null` name is treated like a missing key. The server would then send "None joined." (`app.py:83`, Python's `None` formatted into the notice), while the model sends "Guest joined."; JSON `null` is not modelled for the `name` field.
- The Socket.IO transport: connection, reconnection, delivery order across sockets and the server's session ids. The server methods take the session id as a parameter, and an emission's recipients are the room's members at that moment.
- The `VideoCall` component: only whether it is shown is modelled.
- Profile lists fetched for the chat view (`DoctorChat.js:30-47`), the cookie lookup, and the display of names and images. The profiles are given to `Select`, and the session to the constructor, so the session is fixed for the view's lifetime. The source also reruns the room effect when `currentUser` changes (`DoctorChat.js:72`), leaving and rejoining the same room under the new name and re-classifying the transcript; the model does not capture a session that changes while the view is mounted.
- HTTP, toasts, alerts, the console, cookies and `AbortController`. Each request is an out-parameter or a recorded request, and each way a request can end is an outcome datatype given to the method that finishes the handler.
  - An abort is the `Cancelled` outcome.
  - The second, unsignalled `getAppointment()` after a deletion is modelled as starting the same request.
- `Papa.parse`/`Papa.unparse`, `Blob` and `URL.createObjectURL`. The parsed rows and the object URLs are parameters.
- The visualisation requests of the upload page, `inputImageVisualisation` and `outputImageVisualisation` (`UploadFile.jsx:25-26`, `58-67`, `107-108`, `120-121`). Their failures are part of the `ChartsFailed` and `RequestFailed` outcomes.
- jsPDF itself.
  - `splitTextToSize` is the `wrap` parameter of `Download`.
  - The page height is the integer `pageHeight` parameter, and the page width is left out.
  - `save` is left out.
  - The markdown rendering of the report is left out.
- The origin computed for the socket URL (`api.js:9-18`): parsing URLs is not modelled.
- `Number(...)` on a string is not computed. The client's number is given as a `JsNumber` parameter, and only its NaN/infinite/finite classification and value are used.
- Js.ParseInt: does not model digits whose value exceeds the range of a double. The source then reads Infinity, or a rounded number, where the model keeps the exact integer.
- React scheduling: batching of state updates and effect timing. Each handler's updates are applied in order, and an effect is applied at the end of the handler or the method whose state change triggers it.
- React's comparison of effect dependencies by object identity. `Select` compares profiles by value, so re-clicking a different object with the same contents emits nothing in the model. The source does emit a leave/join pair in that case.
- The `user?._id` effect of the appointment pages. It is modelled as the caller invoking `GetAppointment` with the new id.
- The `AppointmentScheduler` overlay's own contents and its closing (`DoctorAppointment.jsx:61-67`).
- The `ReportUploader` effect runs only when `responseData` changes value. The model copies every non-empty response, which gives the same formatted text whenever the effect runs.
- Server routes other than the Socket.IO handlers (`app.py:1-77`), such as model and file serving: they are outside the chat core.
- The login form, drug-generation pages, sample dataset page and doctor list page: they are fetch-and-render glue outside this model.
- `DynamicForm.DatasetForm.InputChange`: the source mutates the row object shared with the previous state array. The model replaces the row by value instead.
