# Clinic backend (fisioterapia-RH) in Dafny

This project models the logic of a small physiotherapy clinic backend. That logic sits behind its HTTP and SQL layers:

- **Planner.** Calendar items of three kinds: event, manual appointment and block.
  - Every item has a trimmed, non-empty title and a start strictly before its end.
  - Items can be created, partially updated and deleted.
  - Items can be listed by an inclusive-overlap range query, sorted by start.
- **Appointments.**
  - An appointment is requested, confirmed (from any status) and marked as paid.
  - Each of these appends one record to an append-only audit log.
  - Appointments can be listed, newest first, filtered by status and user.
- **The appointment's free text.**
  - `pack_fields` and `unpack_fields` are a JSON envelope with a plain-text fallback.
  - `to_dict` reads the same column by splitting it into lines.
  - The two readings disagree on a packed column. `AppointmentModel.ToDictMisreadsPackedColumn` states how.
- **Accounts.**
  - Registration checks its inputs and normalises the e-mail address (stripped and lower-cased).
  - The password is stored as a hash. Login keeps its error order, and the hash is never returned.
- **Access tokens.**
  - The claims (`sub`, `email`, `role`, `iat`, `exp`), the lifetime taken from the environment, and the whole-second truncation.
  - The PyJWT library is reduced to the laws the backend relies on.
- **Request guards.**
  - `auth_required` parses the bearer header, decodes the token, records the claims in `g` and checks them.
  - `admin_required` checks the role.
- **Patients.** A patient can be added, and patients can be listed by owner, newest first.
- **Route checks.** The appointment and planner blueprints:
  - decide, with their `parse_dt` and their required-field checks, whether the service is reached at all;
  - turn service errors into HTTP answers.

## How the model is built

**Tables**
- Each table is a class holding a sequence of rows:
  - `PlannerService.PlannerStore`
  - `AppointmentsService.AppointmentBook` (with its event log)
  - `AuthService.UserStore`
  - `PatientsService.PatientTable`
- A counter stands in for the random UUIDs of the source.
- Each class keeps a `Valid` invariant: unique ids, and the rules its rows satisfy.
- The methods that change a table state the whole new table in terms of the old one.
- The pure functions beside the methods state each operation's checks and results.
- The query shapes (`WHERE`, `ORDER BY`, lookup by key) are written once, in `Tables`.

**Times and JSON**
- Times are integers in seconds. The token issue time is the exception: it is in microseconds, so that the truncation by `int()` can be stated.
- JSON values are a datatype with Python's truthiness.

**Libraries, as parameters**
- `json`, werkzeug's password hashing, PyJWT and `datetime.fromisoformat` are parameters: function values inside datatypes, or plain function parameters.
- Each library datatype carries a predicate stating what the backend relies on:
  - `Json.Lawful`: dumped values load back, and dumps are one line.
  - `AuthService.Sound` / `AuthService.Exact`: a hash accepts its own password, and only it.
  - `JwtService.Lawful`: a token decodes to its claims until `exp`, fails under another key, and has no surrounding whitespace.

**Where the code and its description differ, the model follows the code.**
- The emptiness checks of `register` look at the raw inputs. So a name and an address made only of whitespace are accepted and stored empty (`AuthService.BlankInputsRegister`).
- Confirming an appointment does not check that the scheduled start precedes the end (`AppointmentsRoutes.ConfirmAcceptsReversedRange`).
- `mark_paid` logs "unpaid" to "paid" even for an appointment that is already paid.

## Model

| member | source | states |
|---|---|---|
| `Json.Or` | app/utils/appointments_fields.py:19 | Python's `v or d`: the value when truthy, the default otherwise |
| `Json.DumpsNonEmpty` | app/utils/appointments_fields.py:12-16 | a lawful `json.dumps` never yields the empty text, so a packed column is never taken for an empty one |
| `Text.Strip` | app/services/auth_service.py:13-14 | `str.strip()` leaves neither end as whitespace |
| `Text.StripLeft` | app/services/auth_service.py:13 | `lstrip` returns a suffix and starts with a non-space |
| `Text.StripRight` | app/services/auth_service.py:13 | `rstrip` returns a prefix and ends with a non-space |
| `Text.StripLeftDropsSpace` | app/services/auth_service.py:13 | `lstrip` removes only whitespace |
| `Text.StripRightDropsSpace` | app/services/auth_service.py:13 | `rstrip` removes only whitespace |
| `Text.StripEmptyIff` | app/services/planner_service.py:28-30 | a stripped text is empty exactly when the text is all whitespace |
| `Text.StripTrimmed` | app/services/planner_service.py:28 | a text with no surrounding whitespace is not changed by `strip()` |
| `Text.StripIdempotent` | app/services/planner_service.py:66 | stripping twice is stripping once |
| `Text.Lower` | app/services/auth_service.py:13 | `lower()` keeps the length, turns each upper-case letter into its lower-case form (32 code points up), changes nothing else and keeps whitespace where it was |
| `Text.LowerIdempotent` | app/services/auth_service.py:48 | lower-casing twice is lower-casing once |
| `Text.LowerChar` | app/services/auth_service.py:48 | an upper-case letter becomes its lower-case form, any other character is kept, and whitespace stays whitespace |
| `Text.Split` | app/models/appointment.py:37-39 | `split("\n")` gives at least one part and no part holds the separator |
| `Text.JoinSplit` | app/models/appointment.py:37-39 | joining the parts of a split with the separator gives the text back |
| `Text.SplitJoin` | app/models/appointment.py:37-39 | splitting a join of separator-free parts gives the parts back |
| `Text.JoinAppend` | app/models/appointment.py:37-39 | joining a concatenation is joining each half around one separator |
| `Text.SplitAround` | app/models/appointment.py:37-39 | splitting around a separator is splitting each side |
| `Text.SplitCount` | app/models/appointment.py:38-39 | a text splits into one more part than it has separators |
| `Text.AfterFirst` | app/utils/auth_required.py:15 | `split(sep, 1)[1]` exists exactly when the separator occurs, and is the suffix after its first occurrence |
| `Text.AfterFirstAt` | app/utils/auth_required.py:15 | the split happens at the first separator |
| `Text.ReplaceAll` | app/routes/planner_routes.py:12 | `replace(c, rep)` leaves no `c` when `rep` has none, and grows by the length difference once per occurrence |
| `Text.ReplaceAbsent` | app/routes/planner_routes.py:12 | `replace` leaves a text without the pattern unchanged |
| `Text.ReplaceAppend` | app/routes/planner_routes.py:12 | `replace` works piecewise over a concatenation |
| `Tables.SortedCons` | app/services/planner_service.py:20 | a row no later than the head of a sorted table may go in front |
| `Tables.Insert` | app/services/planner_service.py:20 | inserting into a sorted table keeps it sorted and adds exactly that row |
| `Tables.SortBy` | app/services/planner_service.py:20 | `ORDER BY` gives a sorted permutation of the rows |
| `Tables.Filter` | app/services/planner_service.py:15-18 | a `WHERE` filter keeps exactly the matching rows, each as often as it occurs |
| `Tables.IndexOf` | app/services/planner_service.py:58 | the lookup by key finds the first row carrying the key, and fails exactly when none does |
| `Tables.IndexOfUnique` | app/services/planner_service.py:95 | with unique keys, a row is found under its own key |
| `Tables.IndexOfFound` | app/services/appointments_service.py:36 | a key some row carries is found |
| `Tables.FilterAll` | app/services/patients_service.py:19-23 | a filter every row passes keeps the whole table |
| `Tables.AppendUnique` | app/services/auth_service.py:25-36 | adding a row under an unused key keeps keys unique |
| `AppointmentFields.PackObject` | app/utils/appointments_fields.py:4-9 | the packed object has exactly the keys description, comment, considerations and `_v` = 1, and a missing or empty description becomes "" |
| `AppointmentFields.PackFields` | app/utils/appointments_fields.py:3-9 | with a lawful JSON library the packed text is one non-empty line that parses back to the packed object |
| `AppointmentFields.UnpackFields` | app/utils/appointments_fields.py:11-26 | the unpacked description is always a string or a truthy value |
| `AppointmentFields.RoundTrip` | app/utils/appointments_fields.py:3-26 | unpacking what was packed gives description `d or ""`, the comment and the considerations back |
| `AppointmentFields.PackedIsVersioned` | app/utils/appointments_fields.py:4-9 | a packed column parses to an object tagged `_v` = 1 |
| `AppointmentFields.EmptyColumn` | app/utils/appointments_fields.py:12-13 | a missing or empty column unpacks to description "", comment and considerations None |
| `AppointmentFields.LegacyFallback` | app/utils/appointments_fields.py:15-26 | text that is not JSON, JSON that is not an object, and an object without `description` all unpack to the whole text as comment |
| `AppointmentFields.NullDescriptionNormalised` | app/utils/appointments_fields.py:19 | a null or empty stored description is read as "" |
| `AppointmentModel.NewAppointment` | app/models/appointment.py:17-31 | a new row is "requested", unpaid, unscheduled, with both timestamps set to the insertion time and the given fields kept |
| `AppointmentModel.Lines` | app/models/appointment.py:37 | a non-empty column has at least one line |
| `AppointmentModel.ToDict` | app/models/appointment.py:33-52 | `to_dict` copies ids, status, payment and every datetime unchanged, and the nested user is present exactly with a user and carries only the full name |
| `AppointmentModel.DescriptionIsFirstLine` | app/models/appointment.py:37 | the description is the text before the first newline ("" for an empty column) |
| `AppointmentModel.OptionalLinesPresence` | app/models/appointment.py:38-39 | comment is present exactly when the column has a newline, considerations exactly when it has two |
| `AppointmentModel.ThreeLinesRoundTrip` | app/models/appointment.py:37-39 | three newline-free texts joined by newlines are read back as the three fields |
| `AppointmentModel.TwoLinesRoundTrip` | app/models/appointment.py:37-39 | two newline-free texts joined by one newline are read back as description and comment, with no considerations |
| `AppointmentModel.LaterLinesIgnored` | app/models/appointment.py:39 | lines after the third never reach the dictionary |
| `AppointmentModel.SingleLine` | app/models/appointment.py:37 | text without a newline is a single line |
| `AppointmentModel.ToDictMisreadsPackedColumn` | app/models/appointment.py:37-39 | on a column written by `pack_fields`, `to_dict` returns the whole JSON text as description and no comment, while `unpack_fields` recovers the comment |
| `AppointmentsService.CreatedEvent` | app/services/appointments_service.py:23-29 | the request's event is a "created" record about that appointment at that time, with no old or new value |
| `AppointmentsService.ConfirmedEvent` | app/services/appointments_service.py:44-52 | the confirmation's event is a "status_changed" record from the previous status to "confirmed" |
| `AppointmentsService.PaymentMarkedEvent` | app/services/appointments_service.py:65-73 | the payment's event is a "payment_marked" record from "unpaid" to "paid" |
| `AppointmentsService.ListAppointments` | app/services/appointments_service.py:79-88 | exactly the rows matching each given (truthy) filter, newest first |
| `AppointmentsService.LedgerAdd` | app/services/appointments_service.py:9-32 | a consistent row under the next id, logged by an event about it, keeps ids unique, rows consistent and every event pointing at a stored appointment |
| `AppointmentsService.LedgerReplace` | app/services/appointments_service.py:35-76 | rewriting a row in place under its own id, with an event about it, keeps the same invariant |
| `AppointmentsService.AppointmentBook.constructor` | app/services/appointments_service.py:6 | an empty table and log satisfy the invariant |
| `AppointmentsService.AppointmentBook.RequestAppointment` | app/services/appointments_service.py:9-32 | appends one requested appointment and exactly one "created" event carrying its id, and keeps the invariant |
| `AppointmentsService.AppointmentBook.AdminConfirm` | app/services/appointments_service.py:35-55 | from any status: status "confirmed", the given bounds, `updated_at`, one status_changed event from the old status to "confirmed"; unknown id changes nothing |
| `AppointmentsService.AppointmentBook.MarkPaid` | app/services/appointments_service.py:58-76 | sets paid and its time, and always logs "unpaid" to "paid"; unknown id changes nothing |
| `PlannerService.CheckKind` | app/services/planner_service.py:24-26 | a kind passes exactly when it is one of the three names; an unhashable value raises instead of a `ValueError` |
| `PlannerService.CheckTitle` | app/services/planner_service.py:28-30 | a title passes exactly when it is a string with a non-whitespace character, and is stored stripped |
| `PlannerService.NewItem` | app/services/planner_service.py:23-54 | an accepted payload gives a well-formed item under the given id, both timestamps set to the insertion time |
| `PlannerService.NewItemFields` | app/services/planner_service.py:32-54 | the accepted item carries the kind (default "event"), the stripped title, the times and the copied fields of the payload |
| `PlannerService.NewItemAcceptsIff` | app/services/planner_service.py:24-38 | `create_item` stores exactly the payloads passing all four checks |
| `PlannerService.NewItemErrorOrder` | app/services/planner_service.py:24-38 | kind, then title, then presence of both times, then their order decides the error |
| `PlannerService.Patch` | app/services/planner_service.py:57-91 | an unknown kind is refused first, then a failing title with its own error; the merged times are checked; an accepted update keeps id and creation fields and well-formedness |
| `PlannerService.PatchAcceptsIff` | app/services/planner_service.py:59-87 | an update is applied exactly when its present kind and title pass and the merged start and end are times with the start first |
| `PlannerService.PatchTimeErrors` | app/services/planner_service.py:78-87 | with kind and title accepted, a time set to None makes the comparison raise and an end not after the start is refused with its message |
| `PlannerService.PatchFields` | app/services/planner_service.py:60-89 | only the keys present change: each given field takes the new value (title stripped, times merged), every other keeps the stored one |
| `PlannerService.ApplyPatch` | app/services/planner_service.py:60-89 | the field-by-field assignments compute exactly the update rule |
| `PlannerService.PatchNothing` | app/services/planner_service.py:60-89 | an update without recognised keys touches only `updated_at` |
| `PlannerService.PatchOneEnd` | app/services/planner_service.py:80-87 | moving one end is checked against the stored other end |
| `PlannerService.ListItems` | app/services/planner_service.py:11-20 | exactly the items overlapping the range (both ends inclusive) of the given kind, sorted by start |
| `PlannerService.StoredAppend` | app/services/planner_service.py:23-54 | adding a well-formed item under the next id keeps ids unique and below the counter |
| `PlannerService.PlannerStore.constructor` | app/services/planner_service.py:8 | an empty table satisfies the invariant |
| `PlannerService.PlannerStore.CreateItem` | app/services/planner_service.py:23-54 | adds exactly the item the checks produce, or nothing |
| `PlannerService.PlannerStore.UpdateItem` | app/services/planner_service.py:57-91 | unknown id is not-found; otherwise the row is replaced by its update, or nothing changes on an error |
| `PlannerService.PlannerStore.DeleteItem` | app/services/planner_service.py:94-97 | removes exactly the row with that id; unknown id is not-found and changes nothing |
| `AuthService.Public` | app/services/auth_service.py:72-74 | the returned user has every column but the hash |
| `AuthService.NormalizeEmail` | app/services/auth_service.py:13 | a normalised address is the stripped address with every character lower-cased: no surrounding whitespace and no upper-case letter |
| `AuthService.NormalizeIdempotent` | app/services/auth_service.py:48 | normalising twice is normalising once |
| `AuthService.FindByEmail` | app/services/auth_service.py:53-61 | the lookup finds the first row with exactly that address, and nothing exactly when no row has it |
| `AuthService.NewUser` | app/services/auth_service.py:29-36 | a registered row has role "user", is active, and stores the stripped name, normalised address and hash |
| `AuthService.Authenticate` | app/services/auth_service.py:44-76 | empty input first; an unknown address gives "Credenciales inválidas"; an inactive account gives "Usuario inactivo" whatever the password; a wrong password for an active account gives "Credenciales inválidas"; success exactly for an active row whose hash accepts the password, returning the public row |
| `AuthService.LoginIgnoresEmailForm` | app/services/auth_service.py:48 | login depends on the address only up to whitespace and case |
| `AuthService.LoginAfterInsert` | app/services/auth_service.py:9-76 | after registration the password logs in, and (with an exact hash) no other does |
| `AuthService.GetUserById` | app/services/auth_service.py:79-93 | the public row with that id, or None exactly when there is none |
| `AuthService.Registration` | app/services/auth_service.py:9-41 | `register` fails only with one of its three messages or the database's refusal of a value wider than 120 characters, and succeeds with the next id under an address no row has, with name and address fitting their columns |
| `AuthService.RegistrationOutcome` | app/services/auth_service.py:9-41 | required fields on raw values, then length 6, then an unused address, then the 120-character columns decide the error; success exactly when all pass, giving the row `NewUser` builds under the next id with the hash of the password |
| `AuthService.RegistrationLogsIn` | app/services/auth_service.py:9-76 | after a successful registration the password logs in, and with an exact hash no other does |
| `AuthService.AccountsAppend` | app/services/auth_service.py:25-36 | adding a row under an unused address and the next id keeps addresses and ids unique |
| `AuthService.UserStore.constructor` | app/services/auth_service.py:7 | an empty table satisfies the invariant |
| `AuthService.UserStore.Register` | app/services/auth_service.py:9-41 | returns the registration's error (including a name or address too wide for its column) with nothing changed, or adds exactly the registered row and returns it without the hash; the new account can then log in |
| `AuthService.BlankInputsRegister` | app/services/auth_service.py:10-14 | whitespace-only name and address pass the emptiness check and are stored empty |
| `JwtService.LoadConfig` | app/services/jwt_service.py:5-7 | the secret, algorithm and lifetime come from the environment or their defaults; an unparsable lifetime fails |
| `JwtService.DefaultConfig` | app/services/jwt_service.py:5-7 | unconfigured: "dev-secret", HS256, 480 minutes |
| `JwtService.TruncDiv` | app/services/jwt_service.py:16-17 | `int()` of a quotient truncates toward zero |
| `JwtService.DivShift` | app/services/jwt_service.py:16-17 | adding whole seconds adds to the truncated seconds |
| `JwtService.Claims` | app/services/jwt_service.py:11-18 | the claims carry exactly `sub`, `email`, `role`, `iat`, `exp`, the first three equal to the arguments |
| `JwtService.ExpiryWindow` | app/services/jwt_service.py:16-17 | `exp - iat` is 60 times the lifetime in minutes, `iat` being the whole second of issue |
| `JwtService.TokenLifetime` | app/services/jwt_service.py:19-23 | a fresh token decodes to its claims until `exp` and as expired from then on |
| `JwtService.CreateAccessToken` | app/services/jwt_service.py:10-19 | a token issued by a lawful library has no surrounding whitespace |
| `JwtService.DecodeToken` | app/services/jwt_service.py:22-23 | a token signed with the configured secret and algorithm decodes to its claims, as invalid before `iat` and as expired from `exp`; one signed with another secret is invalid |
| `JwtService.ForeignSecretRejected` | app/services/jwt_service.py:22-23 | a token signed with another secret is invalid |
| `AuthRequired.BearerToken` | app/utils/auth_required.py:12-15 | a token is read exactly from a header starting with "Bearer " |
| `AuthRequired.BearerTokenSpec` | app/utils/auth_required.py:12-15 | a token exists exactly for a header starting with "Bearer ", and is the rest stripped |
| `AuthRequired.BearerRoundTrip` | app/utils/auth_required.py:15 | a token without surrounding whitespace is read back from its header |
| `AuthRequired.Verify` | app/utils/auth_required.py:11-21 | a missing bearer prefix, an expired token and an invalid one are each 401; otherwise the decoded claims |
| `AuthRequired.Admission` | app/utils/auth_required.py:8-32 | every refusal is 401; the call proceeds exactly for a decodable token whose `sub` and `role` are truthy |
| `AuthRequired.FreshTokenAdmitted` | app/utils/auth_required.py:11-32 | a fresh token of a user with an id and role, read from its bearer header, is admitted until it expires |
| `AuthRequired.ExpiredTokenRefused` | app/utils/auth_required.py:16-19 | the same token is answered 401 "Token expirado" from its expiry on |
| `AuthRequired.AdmissionOfBearer` | app/utils/auth_required.py:15-32 | a bearer header is answered by what decoding its token gives |
| `AuthRequired.RequestGlobals.constructor` | app/utils/auth_required.py:2 | a request starts with no attribute set on `g` |
| `AuthRequired.RequestGlobals.Record` | app/utils/auth_required.py:24-27 | sets `jwt` to the payload and `user_id`, `email`, `role` to its claims |
| `AuthRequired.AuthRequired` | app/utils/auth_required.py:10-32 | reaches the verdict of `Admission`, and records `jwt`, `user_id`, `email`, `role` from any decoded payload, before the claims check |
| `AuthRequired.EffectiveRole` | app/utils/auth_required.py:39 | `g.role` when truthy, else the role in `g.jwt`, else None |
| `AuthRequired.AdminRequired` | app/utils/auth_required.py:36-43 | proceeds exactly for the role "admin", otherwise 403 |
| `AuthRequired.AdminAfterAdmission` | app/utils/auth_required.py:39-41 | after `auth_required` admitted a payload, admin passes exactly when its role is "admin" |
| `PatientsService.NewPatient` | app/services/patients_service.py:6-16 | a missing `full_name` key fails, a null one fails at commit, otherwise the optional fields default to None |
| `PatientsService.ListPatients` | app/services/patients_service.py:19-23 | with an owner (0 included) only that owner's patients, without one all of them, newest first |
| `PatientsService.PatientTable.constructor` | app/services/patients_service.py:4 | an empty table satisfies the invariant |
| `PatientsService.PatientTable.CreatePatient` | app/services/patients_service.py:6-16 | adds exactly one row, or nothing on failure |
| `AppointmentsRoutes.ParseDt` | app/routes/appointments_routes.py:9-12 | a falsy value is no time; a string is parsed unchanged |
| `AppointmentsRoutes.RequestGuard` | app/routes/appointments_routes.py:32-36 | a missing or falsy `user_id` is 400, then a missing or falsy description is 400 |
| `AppointmentsRoutes.ConfirmGuard` | app/routes/appointments_routes.py:49-53 | a bound whose parse raises is 500; a missing or falsy bound is 400; it proceeds exactly when both bounds parse to times |
| `AppointmentsRoutes.ConfirmAcceptsReversedRange` | app/routes/appointments_routes.py:49-59 | an end before the start is accepted |
| `AppointmentsRoutes.PostAppointment` | app/routes/appointments_routes.py:28-42 | a refused request never reaches the service; a requested time whose parse raises or a `user_id` the column cannot take is 500 with nothing stored; an accepted one stores one appointment and one event and answers 201 |
| `AppointmentsRoutes.ConfirmAppointment` | app/routes/appointments_routes.py:45-61 | a refused request never reaches the service; an unknown id is 404; a valid range for an existing id is always applied and answered 200 with the confirmed row and its event |
| `AppointmentsRoutes.ListReply` | app/routes/appointments_routes.py:15-25 | the query parameters go straight to the service: without `user_id` nothing restricts the owner; with one, a failed conversion is 500 and otherwise the rows of that user are listed |
| `AppointmentsRoutes.ListIsUnrestricted` | app/routes/appointments_routes.py:17-23 | with no parameters every appointment is listed |
| `PlannerRoutes.IsoInput` | app/routes/planner_routes.py:12 | the text parsed holds no "Z" and is five characters longer per "Z" |
| `PlannerRoutes.ZuluSuffix` | app/routes/planner_routes.py:11-12 | a trailing "Z" is read as "+00:00" |
| `PlannerRoutes.ParseDt` | app/routes/planner_routes.py:8-12 | a falsy value is no time; a string is parsed after the rewrite |
| `PlannerRoutes.ListReply` | app/routes/planner_routes.py:15-24 | a bound that fails to parse is 500; a missing or empty bound is 400 "from and to are required (ISO)"; otherwise the service's listing |
| `PlannerRoutes.ErrorRefusal` | app/routes/planner_routes.py:36-37 | a `ValueError` becomes 400 with its message, not-found 404, anything else 500 |
| `PlannerRoutes.CreatePayload` | app/routes/planner_routes.py:30-31 | both times are always re-parsed, missing ones becoming None |
| `PlannerRoutes.CreateWithoutStart` | app/routes/planner_routes.py:30-34 | a create without `start_at` is refused, with 400 when kind and title are fine |
| `PlannerRoutes.UpdatePayload` | app/routes/planner_routes.py:43-46 | a time is re-parsed only when its key is present |
| `PlannerRoutes.UpdateKeepsAbsentTimes` | app/routes/planner_routes.py:43-49 | an update without times keeps the stored ones |
| `PlannerRoutes.CreatePlannerItem` | app/routes/planner_routes.py:26-37 | answers 201 with the stored item or the refusal of the checks, and nothing is stored on a refusal |
| `PlannerRoutes.UpdatePlannerItem` | app/routes/planner_routes.py:39-52 | answers 200 with the updated row, 404 for an unknown id, or the refusal, with nothing changed |
| `PlannerRoutes.DeletePlannerItem` | app/routes/planner_routes.py:54-57 | answers `{"ok": true}` after removing exactly that row, 404 for an unknown id |

## Left out

**Structural and text-level choices**
- Free text of a request: `request_appointment` passes `description`, `comment` and `considerations` as separate keyword arguments, but the `Appointment` row has one `comment` column. The lifecycle and the route take the text as the column stores it (`columnText`), so how the three texts end up in the column is not modelled.
- `AppointmentsRoutes.PostAppointment`, `AppointmentsService.AppointmentBook.RequestAppointment`: model the intended request (one stored row, one event, 201). As written, `request_appointment` passes `description=` and `considerations=` to the `Appointment` constructor, which has no such columns. SQLAlchemy's declarative constructor raises `TypeError` for unknown keyword arguments, so every request that passes the route's checks answers 500 and stores nothing.
- Random UUIDs are a counter. `datetime.utcnow()` is one clock reading per call (`now`). `isoformat` of datetimes is not modelled: times stay integers.
- Floating point: `timestamp()` is exact microseconds here, so the float rounding before `int()` is not modelled.
- `lower()` covers the ASCII and Latin-1 letters only. Other Unicode case mappings are not modelled.
- Request bodies that are not JSON objects are not modelled: a list or null body makes `payload.get` raise before any check.

**Library and database behaviour abstracted or ignored**
- SQL conversions are parameters, not modelled:
  - how the UUID columns convert a given `user_id` (`userIdOf`);
  - how a non-string value would be stored in a text column.
- Database concurrency, transactions beyond a single commit, and last-write-wins are not modelled. Two concurrent registrations of one address could both pass the uniqueness check.
- `AuthService.LoginAfterInsert`: the rejection of other passwords holds only for a hash without collisions (`Exact`). Real salted hashes can collide, though with negligible probability.
- `JwtService.Lawful`: PyJWT's leeway, `nbf`, audience and issuer checks are not modelled. Only `exp`, `iat` and the signature key are.

**Database type checks not modelled**
- `PlannerService.PlannerStore.CreateItem`, `PlannerService.PlannerStore.UpdateItem`: `created_by` and `appointment_id` are UUID foreign keys. A value that is not a UUID, or names no row, fails at commit (500, nothing stored). The model stores any value.
- `PatientsService.PatientTable.CreatePatient`: `owner_user_id` is a BigInteger column and `birth_date` a Date column. A value of another type fails at commit. The model stores any JSON value.
- `PatientsService.ListPatients`: compares the raw owner value, not the value the BigInteger column would hold after conversion.
- `PlannerService.PlannerStore.CreateItem`, `PlannerService.PlannerStore.UpdateItem`: comparing a naive with a timezone-aware datetime raises `TypeError` in Python. Times are plain integers here, so that crash is not modelled.

**Omitted source code**
- The mark-paid route and the auth routes are HTTP wiring only.
- The duplicate `admin_required` at app/services/jwt_service.py:25-32 is not modelled. It uses `wraps`, `g` and `jsonify` without importing them, and nothing uses it.
- The chatbot (TF-IDF over scikit-learn, floating point), e-mail (SMTP), site texts (a single SQL read and overwrite), availability and time-off are not modelled.
- Application setup (app/__init__.py, app/db.py, run.py) is not modelled. app/__init__.py mounts only the patients and appointments blueprints. models/__init__.py does not export `PlannerItem`, which the planner service imports.
