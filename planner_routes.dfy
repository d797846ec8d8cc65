/** The planner blueprint: its `parse_dt`, which accepts a trailing "Z", the range check of
    the list handler, the payload rewriting of the create and update handlers, and how the
    service's errors become answers. */
module PlannerRoutes {
  import opened Common
  import opened Json
  import Text
  import Tables
  import opened PlannerService

  const MsgRangeRequired := "from and to are required (ISO)"
  const UtcOffset := "+00:00"

  /** The text handed to `datetime.fromisoformat`: every "Z" replaced by "+00:00". */
  function IsoInput(s: string): (r: string)
    ensures 'Z' !in r
    ensures |r| == |s| + 5 * Text.Count(s, 'Z')
  {
    Text.ReplaceAll(s, 'Z', UtcOffset)
  }

  /** A UTC time written with a trailing "Z" is read as the same time with offset +00:00,
      and text without "Z" is passed on unchanged. */
  lemma ZuluSuffix(s: string)
    requires 'Z' !in s
    ensures IsoInput(s + "Z") == s + UtcOffset
    ensures IsoInput(s) == s
  {
    Text.ReplaceAppend(s, "Z", 'Z', UtcOffset);
    Text.ReplaceAbsent(s, 'Z', UtcOffset);
    assert Text.ReplaceAll("Z", 'Z', UtcOffset) == UtcOffset + Text.ReplaceAll("", 'Z', UtcOffset);
  }

  /** `parse_dt(value)`: a falsy value is no time; a string is rewritten and parsed by
      `fromIso` (`datetime.fromisoformat`, None where it raises); anything else raises. */
  function ParseDt(v: Value, fromIso: string -> Option<Time>): (r: Parsed)
    ensures !Truthy(v) ==> r == NoValue
    ensures r.At? <==> Truthy(v) && v.Str? && fromIso(IsoInput(v.s)).Some?
    ensures r.At? ==> fromIso(IsoInput(v.s)) == Some(r.time)
  {
    if !Truthy(v) then NoValue
    else match v
      case Str(s) => if fromIso(IsoInput(s)).Some? then At(fromIso(IsoInput(s)).value) else Raises
      case _ => Raises
  }

  /** The time a parse gave, None for no value. */
  function TimeOf(p: Parsed): Option<Time>
    requires !p.Raises?
  {
    if p.At? then Some(p.time) else None
  }

  /** `request.args.get(name)`, as the JSON value `parse_dt` receives. */
  function ArgOf(args: map<string, string>, name: string): Value {
    if name in args then Str(args[name]) else Null
  }

  /** `request.args.get("kind")`. */
  function KindArg(args: map<string, string>): Option<string> {
    if "kind" in args then Some(args["kind"]) else None
  }

  /** `GET /`: both bounds are parsed (an exception is a 500) and both are required. */
  function ListReply(items: seq<PlannerItem>, args: map<string, string>, fromIso: string -> Option<Time>)
    : (r: Reply<seq<PlannerItem>>)
    ensures r.Success? <==> ParseDt(ArgOf(args, "from"), fromIso).At? && ParseDt(ArgOf(args, "to"), fromIso).At?
    ensures r.Success? ==> r == Success(200, ListItems(items, ParseDt(ArgOf(args, "from"), fromIso).time,
                                                      ParseDt(ArgOf(args, "to"), fromIso).time, KindArg(args)))
    ensures ParseDt(ArgOf(args, "from"), fromIso).Raises? || ParseDt(ArgOf(args, "to"), fromIso).Raises?
            ==> r == Failure(Refusal(500, None))
    ensures (ParseDt(ArgOf(args, "from"), fromIso).NoValue? || ParseDt(ArgOf(args, "to"), fromIso).NoValue?)
            && !ParseDt(ArgOf(args, "from"), fromIso).Raises? && !ParseDt(ArgOf(args, "to"), fromIso).Raises?
            ==> r == Failure(Refusal(400, Some(MsgRangeRequired)))
  {
    var f := ParseDt(ArgOf(args, "from"), fromIso);
    if f.Raises? then Failure(Refusal(500, None))
    else
      var t := ParseDt(ArgOf(args, "to"), fromIso);
      if t.Raises? then Failure(Refusal(500, None))
      else if f.NoValue? || t.NoValue? then Failure(Refusal(400, Some(MsgRangeRequired)))
      else Success(200, ListItems(items, f.time, t.time, KindArg(args)))
  }

  /** The answer for an exception from the service: a `ValueError` is a 400 carrying its
      message, `get_or_404` a 404, anything else a 500. */
  function ErrorRefusal(e: PlannerError): (r: Refusal)
    ensures IsValueError(e) ==> r == Refusal(400, Some(Message(e)))
    ensures e == NotFound ==> r == Refusal(404, None)
    ensures e == Crash ==> r == Refusal(500, None)
  {
    if IsValueError(e) then Refusal(400, Some(Message(e)))
    else if e == NotFound then Refusal(404, None)
    else Refusal(500, None)
  }

  /** `POST /`'s rewriting: both times are always re-parsed, so a missing one becomes None.
      A parse exception happens outside the `try` and is a 500. */
  function CreatePayload(body: map<string, Value>, fromIso: string -> Option<Time>): (r: Result<ItemPayload, Refusal>)
    ensures r.Err? <==> ParseDt(Get(body, "start_at"), fromIso).Raises? || ParseDt(Get(body, "end_at"), fromIso).Raises?
    ensures r.Err? ==> r.error == Refusal(500, None)
    ensures r.Ok? ==> && r.value.fields == body
                      && r.value.startAt == Given(TimeOf(ParseDt(Get(body, "start_at"), fromIso)))
                      && r.value.endAt == Given(TimeOf(ParseDt(Get(body, "end_at"), fromIso)))
  {
    var s := ParseDt(Get(body, "start_at"), fromIso);
    if s.Raises? then Err(Refusal(500, None))
    else
      var e := ParseDt(Get(body, "end_at"), fromIso);
      if e.Raises? then Err(Refusal(500, None))
      else Ok(ItemPayload(body, Given(TimeOf(s)), Given(TimeOf(e))))
  }

  /** A create request without `start_at` reaches the service with None and is refused;
      with a valid kind and title the refusal is the 400 "start_at and end_at are required". */
  lemma CreateWithoutStart(body: map<string, Value>, fromIso: string -> Option<Time>, id: nat, now: Time)
    requires "start_at" !in body
    requires CreatePayload(body, fromIso).Ok?
    ensures NewItem(CreatePayload(body, fromIso).value, id, now).Err?
    ensures var p := CreatePayload(body, fromIso).value;
            CheckKind(KindOf(p)).Ok? && CheckTitle(Get(p.fields, "title")).Ok? ==>
              ErrorRefusal(NewItem(p, id, now).error) == Refusal(400, Some("start_at and end_at are required"))
  {
    NewItemErrorOrder(CreatePayload(body, fromIso).value, id, now);
  }

  /** `PUT /<id>`'s rewriting: a time is re-parsed only when its key is present, so an
      absent key keeps the stored value. */
  function UpdatePayload(body: map<string, Value>, fromIso: string -> Option<Time>): (r: Result<ItemPayload, Refusal>)
    ensures r.Err? <==> ("start_at" in body && ParseDt(body["start_at"], fromIso).Raises?)
                        || ("end_at" in body && ParseDt(body["end_at"], fromIso).Raises?)
    ensures r.Err? ==> r.error == Refusal(500, None)
    ensures r.Ok? ==> r.value.fields == body
    ensures r.Ok? ==> if "start_at" in body then r.value.startAt == Given(TimeOf(ParseDt(body["start_at"], fromIso)))
                      else r.value.startAt == Absent
    ensures r.Ok? ==> if "end_at" in body then r.value.endAt == Given(TimeOf(ParseDt(body["end_at"], fromIso)))
                      else r.value.endAt == Absent
  {
    var s := if "start_at" in body then Given(ParseDt(body["start_at"], fromIso)) else Absent;
    if s.Given? && s.value.Raises? then Err(Refusal(500, None))
    else
      var e := if "end_at" in body then Given(ParseDt(body["end_at"], fromIso)) else Absent;
      if e.Given? && e.value.Raises? then Err(Refusal(500, None))
      else Ok(ItemPayload(body, if s.Given? then Given(TimeOf(s.value)) else Absent,
                          if e.Given? then Given(TimeOf(e.value)) else Absent))
  }

  /** An update that leaves out both times keeps the stored ones. */
  lemma UpdateKeepsAbsentTimes(before: PlannerItem, body: map<string, Value>, fromIso: string -> Option<Time>,
                               now: Time)
    requires "start_at" !in body && "end_at" !in body
    ensures UpdatePayload(body, fromIso).Ok?
    ensures var r := Patch(before, UpdatePayload(body, fromIso).value, now);
            r.Ok? ==> r.value.startAt == before.startAt && r.value.endAt == before.endAt
  {
  }

  /** `POST /`: rewrite, then `create_item`; a `ValueError` is answered 400. */
  method CreatePlannerItem(store: PlannerStore, body: map<string, Value>, fromIso: string -> Option<Time>, now: Time)
    returns (reply: Reply<PlannerItem>)
    requires store.Valid()
    modifies store
    ensures store.Valid()
    ensures CreatePayload(body, fromIso).Err? ==> reply == Failure(CreatePayload(body, fromIso).error) && unchanged(store)
    ensures CreatePayload(body, fromIso).Ok? ==>
              var r := NewItem(CreatePayload(body, fromIso).value, old(store.nextId), now);
              && (r.Ok? ==> reply == Success(201, r.value) && store.items == old(store.items) + [r.value])
              && (r.Err? ==> reply == Failure(ErrorRefusal(r.error)) && unchanged(store))
  {
    var payload := CreatePayload(body, fromIso);
    if payload.Err? {
      return Failure(payload.error);
    }
    var r := store.CreateItem(payload.value, now);
    if r.Ok? {
      reply := Success(201, r.value);
    } else {
      reply := Failure(ErrorRefusal(r.error));
    }
  }

  /** `PUT /<id>`: rewrite, then `update_item`; unknown ids are a 404. */
  method UpdatePlannerItem(store: PlannerStore, id: nat, body: map<string, Value>,
                           fromIso: string -> Option<Time>, now: Time)
    returns (reply: Reply<PlannerItem>)
    requires store.Valid()
    modifies store
    ensures store.Valid()
    ensures UpdatePayload(body, fromIso).Err? ==> reply == Failure(UpdatePayload(body, fromIso).error) && unchanged(store)
    ensures UpdatePayload(body, fromIso).Ok? && Tables.IndexOf(old(store.items), id, IdOf).None? ==>
              reply == Failure(Refusal(404, None)) && unchanged(store)
    ensures UpdatePayload(body, fromIso).Ok? && Tables.IndexOf(old(store.items), id, IdOf).Some? ==>
              var i := Tables.IndexOf(old(store.items), id, IdOf).value;
              var r := Patch(old(store.items)[i], UpdatePayload(body, fromIso).value, now);
              && (r.Ok? ==> reply == Success(200, r.value) && store.items == old(store.items)[i := r.value])
              && (r.Err? ==> reply == Failure(ErrorRefusal(r.error)) && unchanged(store))
  {
    var payload := UpdatePayload(body, fromIso);
    if payload.Err? {
      return Failure(payload.error);
    }
    var r := store.UpdateItem(id, payload.value, now);
    if r.Ok? {
      reply := Success(200, r.value);
    } else {
      reply := Failure(ErrorRefusal(r.error));
    }
  }

  /** `DELETE /<id>`: answers `{"ok": true}` once the row is gone. */
  method DeletePlannerItem(store: PlannerStore, id: nat) returns (reply: Reply<bool>)
    requires store.Valid()
    modifies store
    ensures store.Valid()
    ensures reply.Success? <==> Tables.IndexOf(old(store.items), id, IdOf).Some?
    ensures reply.Success? ==> reply == Success(200, true)
    ensures reply.Failure? ==> reply == Failure(Refusal(404, None)) && unchanged(store)
    ensures forall x :: x in store.items <==> x in old(store.items) && x.id != id
  {
    var r := store.DeleteItem(id);
    if r.Ok? {
      reply := Success(200, true);
    } else {
      reply := Failure(Refusal(404, None));
    }
  }
}
