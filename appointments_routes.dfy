/** The appointments blueprint: its `parse_dt`, the checks that decide whether a request
    reaches the service, and the list handler's pass-through of its query parameters. */
module AppointmentsRoutes {
  import opened Common
  import opened Json
  import opened AppointmentModel
  import AppointmentsService
  import Tables

  const MsgUserRequired := "user_id is required"
  const MsgDescriptionRequired := "description is required"
  const MsgScheduleRequired := "scheduled_start and scheduled_end are required"

  /** `parse_dt(value)`: a falsy value is no time; a string goes to `fromIso`
      (`datetime.fromisoformat`, None where it raises) unchanged; anything else raises. */
  function ParseDt(v: Value, fromIso: string -> Option<Time>): (r: Parsed)
    ensures !Truthy(v) ==> r == NoValue
    ensures r.At? <==> Truthy(v) && v.Str? && fromIso(v.s).Some?
    ensures r.At? ==> fromIso(v.s) == Some(r.time)
  {
    if !Truthy(v) then NoValue
    else match v
      case Str(s) => if fromIso(s).Some? then At(fromIso(s).value) else Raises
      case _ => Raises
  }

  /** The time a parse gave, None for no value. */
  function TimeOf(p: Parsed): Option<Time>
    requires !p.Raises?
  {
    if p.At? then Some(p.time) else None
  }

  /** `request_appointment`'s two field checks, in order: a missing or falsy `user_id`,
      then a missing or falsy `description`, each answered 400. */
  function RequestGuard(payload: map<string, Value>): (r: Option<Refusal>)
    ensures r.None? <==> Truthy(Get(payload, "user_id")) && Truthy(Get(payload, "description"))
    ensures !Truthy(Get(payload, "user_id")) ==> r == Some(Refusal(400, Some(MsgUserRequired)))
    ensures Truthy(Get(payload, "user_id")) && !Truthy(Get(payload, "description"))
            ==> r == Some(Refusal(400, Some(MsgDescriptionRequired)))
  {
    if "user_id" !in payload || !Truthy(payload["user_id"]) then Some(Refusal(400, Some(MsgUserRequired)))
    else if !Truthy(Get(payload, "description")) then Some(Refusal(400, Some(MsgDescriptionRequired)))
    else None
  }

  /** `confirm_appointment`'s checks: both bounds are parsed (an exception is a 500), and
      both must be present; nothing compares them. */
  function ConfirmGuard(payload: map<string, Value>, fromIso: string -> Option<Time>)
    : (r: Result<(Time, Time), Refusal>)
    ensures r.Ok? <==> ParseDt(Get(payload, "scheduled_start"), fromIso).At?
                       && ParseDt(Get(payload, "scheduled_end"), fromIso).At?
    ensures r.Ok? ==> && ParseDt(Get(payload, "scheduled_start"), fromIso) == At(r.value.0)
                      && ParseDt(Get(payload, "scheduled_end"), fromIso) == At(r.value.1)
    ensures r.Err? ==> r.error.status in {400, 500}
    ensures ParseDt(Get(payload, "scheduled_start"), fromIso).Raises?
            || ParseDt(Get(payload, "scheduled_end"), fromIso).Raises?
            ==> r == Err(Refusal(500, None))
    ensures (!Truthy(Get(payload, "scheduled_start")) || !Truthy(Get(payload, "scheduled_end")))
            && !ParseDt(Get(payload, "scheduled_start"), fromIso).Raises?
            && !ParseDt(Get(payload, "scheduled_end"), fromIso).Raises?
            ==> r == Err(Refusal(400, Some(MsgScheduleRequired)))
  {
    var s := ParseDt(Get(payload, "scheduled_start"), fromIso);
    if s.Raises? then Err(Refusal(500, None))
    else
      var e := ParseDt(Get(payload, "scheduled_end"), fromIso);
      if e.Raises? then Err(Refusal(500, None))
      else if s.NoValue? || e.NoValue? then Err(Refusal(400, Some(MsgScheduleRequired)))
      else Ok((s.time, e.time))
  }

  /** A confirmation whose end precedes its start passes the route's checks. */
  lemma ConfirmAcceptsReversedRange(payload: map<string, Value>, fromIso: string -> Option<Time>,
                                    start: string, end: string, ts: Time, te: Time)
    requires Get(payload, "scheduled_start") == Str(start) && Get(payload, "scheduled_end") == Str(end)
    requires start != "" && end != ""
    requires fromIso(start) == Some(ts) && fromIso(end) == Some(te) && te < ts
    ensures ConfirmGuard(payload, fromIso) == Ok((ts, te))
  {
  }

  /** `POST /`: the checks, then the two requested times are parsed, then the service
      stores the appointment. `userIdOf` stands for the column's conversion of the given
      `user_id` (None where the insert fails) and `columnText` for the free text as the
      single `comment` column holds it. */
  method PostAppointment(book: AppointmentsService.AppointmentBook, payload: map<string, Value>,
                         fromIso: string -> Option<Time>, userIdOf: Value -> Option<nat>,
                         columnText: Option<string>, now: Time)
    returns (reply: Reply<Appointment>)
    requires book.Valid()
    modifies book
    ensures book.Valid()
    ensures RequestGuard(payload).Some? ==> reply == Failure(RequestGuard(payload).value)
    ensures reply.Success? <==>
              && RequestGuard(payload).None?
              && !ParseDt(Get(payload, "requested_start"), fromIso).Raises?
              && !ParseDt(Get(payload, "requested_end"), fromIso).Raises?
              && userIdOf(payload["user_id"]).Some?
    ensures reply.Success? ==>
              && reply.status == 201
              && reply.body == NewAppointment(old(book.nextId), userIdOf(payload["user_id"]).value, columnText,
                                               TimeOf(ParseDt(Get(payload, "requested_start"), fromIso)),
                                               TimeOf(ParseDt(Get(payload, "requested_end"), fromIso)), now)
              && book.appointments == old(book.appointments) + [reply.body]
              && book.events == old(book.events) + [AppointmentsService.CreatedEvent(reply.body.id, now)]
    ensures RequestGuard(payload).None?
            && (|| ParseDt(Get(payload, "requested_start"), fromIso).Raises?
                || ParseDt(Get(payload, "requested_end"), fromIso).Raises?
                || userIdOf(payload["user_id"]).None?)
            ==> reply == Failure(Refusal(500, None))
    ensures reply.Failure? ==> unchanged(book)
  {
    var guard := RequestGuard(payload);
    if guard.Some? {
      return Failure(guard.value);
    }
    var start := ParseDt(Get(payload, "requested_start"), fromIso);
    var end := ParseDt(Get(payload, "requested_end"), fromIso);
    if start.Raises? || end.Raises? {
      return Failure(Refusal(500, None));
    }
    var userId := userIdOf(payload["user_id"]);
    if userId.None? {
      return Failure(Refusal(500, None));
    }
    var appt := book.RequestAppointment(userId.value, columnText, TimeOf(start), TimeOf(end), now);
    reply := Success(201, appt);
  }

  /** `POST /<id>/confirm`: the checks, then the service; an unknown id is the framework's
      404. */
  method ConfirmAppointment(book: AppointmentsService.AppointmentBook, id: nat, payload: map<string, Value>,
                            fromIso: string -> Option<Time>, now: Time)
    returns (reply: Reply<Appointment>)
    requires book.Valid()
    modifies book
    ensures book.Valid()
    ensures ConfirmGuard(payload, fromIso).Err? ==> reply == Failure(ConfirmGuard(payload, fromIso).error)
    ensures ConfirmGuard(payload, fromIso).Ok? && Tables.IndexOf(old(book.appointments), id, AppointmentsService.IdOf).None?
            ==> reply == Failure(Refusal(404, None))
    ensures ConfirmGuard(payload, fromIso).Ok? && Tables.IndexOf(old(book.appointments), id, AppointmentsService.IdOf).Some?
            ==> reply.Success?
    ensures reply.Failure? ==> unchanged(book)
    ensures reply.Success? ==>
              var i := Tables.IndexOf(old(book.appointments), id, AppointmentsService.IdOf).value;
              var (s, e) := ConfirmGuard(payload, fromIso).value;
              && reply.status == 200
              && reply.body == old(book.appointments)[i].(status := Confirmed, scheduledStart := Some(s),
                                                          scheduledEnd := Some(e), updatedAt := now)
              && book.appointments == old(book.appointments)[i := reply.body]
              && book.events == old(book.events)
                                + [AppointmentsService.ConfirmedEvent(id, old(book.appointments)[i].status, now)]
  {
    var guard := ConfirmGuard(payload, fromIso);
    if guard.Err? {
      return Failure(guard.error);
    }
    var (start, end) := guard.value;
    var r := book.AdminConfirm(id, start, end, now);
    if r.Err? {
      return Failure(Refusal(404, None));
    }
    reply := Success(200, r.value);
  }

  /** `GET /`: the `status` and `user_id` query parameters go to the service as they are;
      an empty one filters nothing, and no owner restriction is added. `userIdOf` stands for
      the conversion of the parameter to a user id (None where the query fails). */
  function ListReply(rows: seq<Appointment>, args: map<string, string>, userIdOf: string -> Option<nat>)
    : (r: Reply<seq<Appointment>>)
    ensures ("user_id" !in args || args["user_id"] == "") ==>
              r == Success(200, AppointmentsService.ListAppointments(rows, ArgOf(args, "status"), None))
    ensures "user_id" in args && args["user_id"] != "" ==>
              r == match userIdOf(args["user_id"])
                   case None => Failure(Refusal(500, None))
                   case Some(u) => Success(200, AppointmentsService.ListAppointments(rows, ArgOf(args, "status"), Some(u)))
    ensures r.Success? ==> r.status == 200
  {
    var status := ArgOf(args, "status");
    if "user_id" !in args || args["user_id"] == "" then
      Success(200, AppointmentsService.ListAppointments(rows, status, None))
    else match userIdOf(args["user_id"])
      case None => Failure(Refusal(500, None))
      case Some(u) => Success(200, AppointmentsService.ListAppointments(rows, status, Some(u)))
  }

  /** `request.args.get(name)`. */
  function ArgOf(args: map<string, string>, name: string): Option<string> {
    if name in args then Some(args[name]) else None
  }

  /** Without a `user_id` parameter every user's appointments are listed. */
  lemma ListIsUnrestricted(rows: seq<Appointment>, args: map<string, string>, userIdOf: string -> Option<nat>,
                           a: Appointment)
    requires "user_id" !in args && "status" !in args
    requires a in rows
    ensures ListReply(rows, args, userIdOf).Success? && a in ListReply(rows, args, userIdOf).body
  {
    var r := ListReply(rows, args, userIdOf).body;
    assert multiset(r)[a] == multiset(rows)[a];
  }
}
