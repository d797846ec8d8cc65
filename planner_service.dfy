/** The planner: calendar items of three kinds, each with a trimmed non-empty title and a
    start strictly before its end. Creation and partial update check those rules before
    anything is committed; listing is an inclusive-overlap range query sorted by start. */
module PlannerService {
  import opened Common
  import opened Json
  import Text
  import Tables

  const AllowedKinds: set<string> := {"event", "manual_appointment", "block"}
  const DefaultKind := "event"

  /** One row of the planner_items table. Columns the service copies from the payload
      without looking at them keep the JSON value they were given. */
  datatype PlannerItem = PlannerItem(
    id: nat,
    kind: string,
    title: string,
    note: Value,
    startAt: Time,
    endAt: Time,
    allDay: bool,
    location: Value,
    createdBy: Value,
    appointmentId: Value,
    createdAt: Time,
    updatedAt: Time)

  /** The rules every stored item satisfies. */
  predicate WellFormed(it: PlannerItem) {
    && it.kind in AllowedKinds
    && it.title != ""
    && Text.Trimmed(it.title)
    && it.startAt < it.endAt
  }

  /** The dictionary the service receives: the request's JSON object, with `start_at` and
      `end_at` replaced by the route's parsed datetimes where it rewrote them. */
  datatype ItemPayload = ItemPayload(fields: map<string, Value>, startAt: Key<Option<Time>>,
                                     endAt: Key<Option<Time>>)

  /** The four `ValueError`s, `get_or_404`'s not-found, and any other exception: the
      `TypeError` of an unhashable kind or of comparing a missing time, and the
      `AttributeError` of stripping a title that is not a string. */
  datatype PlannerError =
    | InvalidKind
    | TitleRequired
    | TimesRequired
    | EndNotAfterStart
    | NotFound
    | Crash

  predicate IsValueError(e: PlannerError) {
    e.InvalidKind? || e.TitleRequired? || e.TimesRequired? || e.EndNotAfterStart?
  }

  /** The text of each `ValueError`. */
  function Message(e: PlannerError): string
    requires IsValueError(e)
  {
    match e
    case InvalidKind => "Invalid kind"
    case TitleRequired => "title is required"
    case TimesRequired => "start_at and end_at are required"
    case EndNotAfterStart => "end_at must be greater than start_at"
  }

  /** `kind not in ALLOWED_KINDS`: only the three kind names pass. */
  function CheckKind(v: Value): (r: Result<string, PlannerError>)
    ensures r.Ok? <==> v.Str? && v.s in AllowedKinds
    ensures r.Ok? ==> v == Str(r.value)
    ensures r.Err? ==> r.error == (if v.Arr? || v.Obj? then Crash else InvalidKind)
  {
    match v
    case Str(k) => if k in AllowedKinds then Ok(k) else Err(InvalidKind)
    case Arr(_) => Err(Crash)
    case Obj(_) => Err(Crash)
    case _ => Err(InvalidKind)
  }

  /** `(title or "").strip()`, rejected when empty: a title passes exactly when it is a
      string with some non-whitespace character, and is stored stripped. */
  function CheckTitle(v: Value): (r: Result<string, PlannerError>)
    ensures r.Ok? <==> v.Str? && !Text.AllSpace(v.s)
    ensures r.Ok? ==> r.value == Text.Strip(v.s) && r.value != "" && Text.Trimmed(r.value)
    ensures r.Err? ==> r.error == (if Truthy(v) && !v.Str? then Crash else TitleRequired)
  {
    if !Truthy(v) then Err(TitleRequired)
    else match v
      case Str(s) =>
        Text.StripEmptyIff(s);
        var t := Text.Strip(s);
        if t == "" then Err(TitleRequired) else Ok(t)
      case _ => Err(Crash)
  }

  /** `payload.get("kind", "event")`. */
  function KindOf(p: ItemPayload): Value {
    if "kind" in p.fields then p.fields["kind"] else Str(DefaultKind)
  }

  /** `payload.get(...)` on a rewritten time. */
  function TimeOf(k: Key<Option<Time>>): Option<Time> {
    if k.Given? then k.value else None
  }

  /** Whether `create_item`'s payload gets past every check. */
  predicate Acceptable(p: ItemPayload) {
    && CheckKind(KindOf(p)).Ok?
    && CheckTitle(Get(p.fields, "title")).Ok?
    && TimeOf(p.startAt).Some? && TimeOf(p.endAt).Some?
    && TimeOf(p.startAt).value < TimeOf(p.endAt).value
  }

  /** `create_item`'s checks, in order, and the row it builds: a well-formed item carrying
      the payload's kind (by default "event"), stripped title and times. */
  function NewItem(p: ItemPayload, id: nat, now: Time): (r: Result<PlannerItem, PlannerError>)
    ensures r.Ok? ==> WellFormed(r.value)
    ensures r.Ok? ==> r.value.id == id && r.value.createdAt == now && r.value.updatedAt == now
  {
    var kind := CheckKind(KindOf(p));
    if kind.Err? then Err(kind.error)
    else
      var title := CheckTitle(Get(p.fields, "title"));
      if title.Err? then Err(title.error)
      else
        var start, end := TimeOf(p.startAt), TimeOf(p.endAt);
        if start.None? || end.None? then Err(TimesRequired)
        else if end.value <= start.value then Err(EndNotAfterStart)
        else Ok(PlannerItem(id, kind.value, title.value, Get(p.fields, "note"), start.value, end.value,
                            Truthy(Get(p.fields, "all_day")), Get(p.fields, "location"),
                            Get(p.fields, "created_by"), Get(p.fields, "appointment_id"), now, now))
  }

  /** A created row carries the payload's kind (by default "event"), stripped title, times,
      `all_day` flag and the columns copied as given. */
  lemma NewItemFields(p: ItemPayload, id: nat, now: Time)
    requires NewItem(p, id, now).Ok?
    ensures var it := NewItem(p, id, now).value;
            && KindOf(p) == Str(it.kind)
            && Get(p.fields, "title").Str? && it.title == Text.Strip(Get(p.fields, "title").s)
            && TimeOf(p.startAt) == Some(it.startAt) && TimeOf(p.endAt) == Some(it.endAt)
            && it.allDay == Truthy(Get(p.fields, "all_day"))
            && it.note == Get(p.fields, "note") && it.location == Get(p.fields, "location")
            && it.createdBy == Get(p.fields, "created_by")
            && it.appointmentId == Get(p.fields, "appointment_id")
  {
  }

  /** A payload is stored exactly when it passes every check. */
  lemma NewItemAcceptsIff(p: ItemPayload, id: nat, now: Time)
    ensures NewItem(p, id, now).Ok? <==> Acceptable(p)
  {
    var kind, title := CheckKind(KindOf(p)), CheckTitle(Get(p.fields, "title"));
    if kind.Err? {
      assert NewItem(p, id, now) == Err(kind.error);
    } else if title.Err? {
      assert NewItem(p, id, now) == Err(title.error);
    } else {
      var start, end := TimeOf(p.startAt), TimeOf(p.endAt);
      assert NewItem(p, id, now).Ok? <==> start.Some? && end.Some? && start.value < end.value;
    }
  }

  /** The checks run in order: kind, then title, then presence of both times, then their
      order; the first that fails decides the error. */
  lemma NewItemErrorOrder(p: ItemPayload, id: nat, now: Time)
    ensures CheckKind(KindOf(p)).Err? ==> NewItem(p, id, now) == Err(CheckKind(KindOf(p)).error)
    ensures CheckKind(KindOf(p)).Ok? && CheckTitle(Get(p.fields, "title")).Err?
            ==> NewItem(p, id, now) == Err(CheckTitle(Get(p.fields, "title")).error)
    ensures NewItem(p, id, now) == Err(TimesRequired) <==>
            && CheckKind(KindOf(p)).Ok? && CheckTitle(Get(p.fields, "title")).Ok?
            && (TimeOf(p.startAt).None? || TimeOf(p.endAt).None?)
    ensures NewItem(p, id, now) == Err(EndNotAfterStart) <==>
            && CheckKind(KindOf(p)).Ok? && CheckTitle(Get(p.fields, "title")).Ok?
            && TimeOf(p.startAt).Some? && TimeOf(p.endAt).Some?
            && TimeOf(p.endAt).value <= TimeOf(p.startAt).value
  {
  }

  /** The start `update_item` compares: the parsed one when the key is present, the stored
      one otherwise. */
  function MergedStart(before: PlannerItem, p: ItemPayload): Option<Time> {
    if p.startAt.Given? then p.startAt.value else Some(before.startAt)
  }

  /** The end `update_item` compares, merged the same way. */
  function MergedEnd(before: PlannerItem, p: ItemPayload): Option<Time> {
    if p.endAt.Given? then p.endAt.value else Some(before.endAt)
  }

  /** `update_item`'s checks and assignments on an existing row: only the keys present in the
      payload change, and the merged start and end must still be ordered. */
  function Patch(before: PlannerItem, p: ItemPayload, now: Time): (r: Result<PlannerItem, PlannerError>)
    ensures "kind" in p.fields && CheckKind(p.fields["kind"]).Err? ==> r == Err(CheckKind(p.fields["kind"]).error)
    ensures !("kind" in p.fields && CheckKind(p.fields["kind"]).Err?)
            && "title" in p.fields && CheckTitle(p.fields["title"]).Err?
            ==> r == Err(CheckTitle(p.fields["title"]).error)
    ensures r.Ok? ==> && r.value.id == before.id && r.value.createdAt == before.createdAt
                      && r.value.createdBy == before.createdBy && r.value.appointmentId == before.appointmentId
                      && r.value.updatedAt == now
    ensures WellFormed(before) && r.Ok? ==> WellFormed(r.value)
    ensures r.Ok? ==> r.value.startAt < r.value.endAt
    ensures r.Err? ==> r.error != NotFound
  {
    if "kind" in p.fields && CheckKind(p.fields["kind"]).Err? then Err(CheckKind(p.fields["kind"]).error)
    else if "title" in p.fields && CheckTitle(p.fields["title"]).Err? then Err(CheckTitle(p.fields["title"]).error)
    else
      var kind := if "kind" in p.fields then CheckKind(p.fields["kind"]).value else before.kind;
      var title := if "title" in p.fields then CheckTitle(p.fields["title"]).value else before.title;
      var note := if "note" in p.fields then p.fields["note"] else before.note;
      var location := if "location" in p.fields then p.fields["location"] else before.location;
      var allDay := if "all_day" in p.fields then Truthy(p.fields["all_day"]) else before.allDay;
      var start := if p.startAt.Given? then p.startAt.value else Some(before.startAt);
      var end := if p.endAt.Given? then p.endAt.value else Some(before.endAt);
      if start.None? || end.None? then Err(Crash)
      else if end.value <= start.value then Err(EndNotAfterStart)
      else Ok(PlannerItem(before.id, kind, title, note, start.value, end.value, allDay, location,
                          before.createdBy, before.appointmentId, before.createdAt, now))
  }

  /** An update is applied exactly when the kind and title it carries pass their checks and
      the merged start and end are both times, the start strictly first. */
  lemma PatchAcceptsIff(before: PlannerItem, p: ItemPayload, now: Time)
    ensures Patch(before, p, now).Ok? <==>
              && !("kind" in p.fields && CheckKind(p.fields["kind"]).Err?)
              && !("title" in p.fields && CheckTitle(p.fields["title"]).Err?)
              && MergedStart(before, p).Some? && MergedEnd(before, p).Some?
              && MergedStart(before, p).value < MergedEnd(before, p).value
  {
  }

  /** With kind and title accepted, a time set to None makes the comparison raise, and an
      end not after the start is refused with its message. */
  lemma PatchTimeErrors(before: PlannerItem, p: ItemPayload, now: Time)
    requires !("kind" in p.fields && CheckKind(p.fields["kind"]).Err?)
    requires !("title" in p.fields && CheckTitle(p.fields["title"]).Err?)
    ensures MergedStart(before, p).None? || MergedEnd(before, p).None? ==> Patch(before, p, now) == Err(Crash)
    ensures && MergedStart(before, p).Some? && MergedEnd(before, p).Some?
            && MergedEnd(before, p).value <= MergedStart(before, p).value
            ==> Patch(before, p, now) == Err(EndNotAfterStart)
  {
  }

  /** Only the keys present in the payload change their column: the kind and title as
      checked, the copied columns as given, the times as parsed. */
  lemma PatchFields(before: PlannerItem, p: ItemPayload, now: Time)
    requires Patch(before, p, now).Ok?
    ensures var it := Patch(before, p, now).value;
            && (if "kind" in p.fields then p.fields["kind"] == Str(it.kind) else it.kind == before.kind)
            && (if "title" in p.fields then p.fields["title"].Str? && it.title == Text.Strip(p.fields["title"].s)
                else it.title == before.title)
            && it.note == (if "note" in p.fields then p.fields["note"] else before.note)
            && it.location == (if "location" in p.fields then p.fields["location"] else before.location)
            && it.allDay == (if "all_day" in p.fields then Truthy(p.fields["all_day"]) else before.allDay)
            && (if p.startAt.Given? then p.startAt.value == Some(it.startAt) else it.startAt == before.startAt)
            && (if p.endAt.Given? then p.endAt.value == Some(it.endAt) else it.endAt == before.endAt)
  {
  }

  /** The body of `update_item` on the row it loaded: each check, then each assignment for a
      key present in the payload, one after the other; the row is returned only if the merged
      times are still ordered. */
  method ApplyPatch(before: PlannerItem, p: ItemPayload, now: Time) returns (r: Result<PlannerItem, PlannerError>)
    ensures r == Patch(before, p, now)
  {
    var kind, title, note, location, allDay := before.kind, before.title, before.note, before.location, before.allDay;
    if "kind" in p.fields {
      var k := CheckKind(p.fields["kind"]);
      if k.Err? {
        return Err(k.error);
      }
      kind := k.value;
    }
    if "title" in p.fields {
      var t := CheckTitle(p.fields["title"]);
      if t.Err? {
        return Err(t.error);
      }
      title := t.value;
    }
    if "note" in p.fields {
      note := p.fields["note"];
    }
    if "location" in p.fields {
      location := p.fields["location"];
    }
    if "all_day" in p.fields {
      allDay := Truthy(p.fields["all_day"]);
    }
    var start: Option<Time> := Some(before.startAt);
    var end: Option<Time> := Some(before.endAt);
    if p.startAt.Given? {
      start := p.startAt.value;
    }
    if p.endAt.Given? {
      end := p.endAt.value;
    }
    if start.None? || end.None? {
      return Err(Crash);
    }
    if end.value <= start.value {
      return Err(EndNotAfterStart);
    }
    r := Ok(PlannerItem(before.id, kind, title, note, start.value, end.value, allDay, location,
                        before.createdBy, before.appointmentId, before.createdAt, now));
  }

  /** An update with no recognised keys keeps a well-formed row and only touches `updated_at`. */
  lemma PatchNothing(before: PlannerItem, fields: map<string, Value>, now: Time)
    requires WellFormed(before)
    requires forall k :: k in fields ==> k !in {"kind", "title", "note", "location", "all_day"}
    ensures Patch(before, ItemPayload(fields, Absent, Absent), now) == Ok(before.(updatedAt := now))
  {
  }

  /** Moving only one end of a row is checked against the other, stored end. */
  lemma PatchOneEnd(before: PlannerItem, t: Time, now: Time)
    requires WellFormed(before)
    ensures Patch(before, ItemPayload(map[], Given(Some(t)), Absent), now).Ok? <==> t < before.endAt
    ensures Patch(before, ItemPayload(map[], Absent, Given(Some(t))), now).Ok? <==> before.startAt < t
  {
  }

  /** `list_items`' WHERE clause: the item's interval meets [from, to], both ends
      inclusive, and the kind matches when a non-empty kind is given. */
  predicate InRange(it: PlannerItem, from: Time, to: Time, kind: Option<string>) {
    && it.startAt <= to
    && it.endAt >= from
    && (kind.Some? && kind.value != "" ==> it.kind == kind.value)
  }

  /** `list_items(date_from, date_to, kind)`: exactly the items in range, by start time. */
  function ListItems(items: seq<PlannerItem>, from: Time, to: Time, kind: Option<string>)
    : (r: seq<PlannerItem>)
    ensures forall x :: multiset(r)[x] == if InRange(x, from, to, kind) then multiset(items)[x] else 0
    ensures forall i, j :: 0 <= i < j < |r| ==> r[i].startAt <= r[j].startAt
  {
    var key := (it: PlannerItem) => it.startAt;
    var r := Tables.SortBy(Tables.Filter(items, (it: PlannerItem) => InRange(it, from, to, kind)), key);
    assert forall i, j :: 0 <= i < j < |r| ==> key(r[i]) <= key(r[j]);
    r
  }

  function IdOf(it: PlannerItem): nat { it.id }

  /** What the table keeps: unique ids below the counter, and only well-formed rows. */
  predicate Stored(items: seq<PlannerItem>, nextId: nat) {
    && Tables.UniqueKeys(items, IdOf)
    && (forall it :: it in items ==> WellFormed(it) && it.id < nextId)
  }

  /** Adding a well-formed row under the next id keeps the table's invariant. */
  lemma StoredAppend(items: seq<PlannerItem>, nextId: nat, item: PlannerItem)
    requires Stored(items, nextId) && WellFormed(item) && item.id == nextId
    ensures Stored(items + [item], nextId + 1)
  {
    forall j | 0 <= j < |items| ensures IdOf(items[j]) != IdOf(item) {
      assert items[j] in items;
    }
    Tables.AppendUnique(items, item, IdOf);
  }

  /** The planner_items table. Ids come from a counter (the source draws random UUIDs). */
  class PlannerStore {
    var items: seq<PlannerItem>
    var nextId: nat

    ghost predicate Valid()
      reads this
    {
      Stored(items, nextId)
    }

    constructor ()
      ensures Valid() && items == [] && nextId == 0
    {
      items, nextId := [], 0;
    }

    /** `create_item`: a payload that passes the checks is added as one new row; any other
        leaves the table as it was. */
    method CreateItem(p: ItemPayload, now: Time) returns (r: Result<PlannerItem, PlannerError>)
      requires Valid()
      modifies this
      ensures Valid()
      ensures r == NewItem(p, old(nextId), now)
      ensures r.Ok? ==> items == old(items) + [r.value] && nextId == old(nextId) + 1
      ensures r.Err? ==> unchanged(this)
    {
      r := NewItem(p, nextId, now);
      if r.Ok? {
        StoredAppend(items, nextId, r.value);
        items := items + [r.value];
        nextId := nextId + 1;
      }
    }

    /** `update_item`: the row is looked up, patched, and written back only when every check
        passed. */
    method UpdateItem(id: nat, p: ItemPayload, now: Time) returns (r: Result<PlannerItem, PlannerError>)
      requires Valid()
      modifies this
      ensures Valid() && nextId == old(nextId)
      ensures Tables.IndexOf(old(items), id, IdOf).None? ==> r == Err(NotFound)
      ensures Tables.IndexOf(old(items), id, IdOf).Some? ==>
                r == Patch(old(items)[Tables.IndexOf(old(items), id, IdOf).value], p, now)
      ensures r.Ok? ==> items == old(items)[Tables.IndexOf(old(items), id, IdOf).value := r.value]
      ensures r.Err? ==> unchanged(this)
    {
      var found := Tables.IndexOf(items, id, IdOf);
      if found.None? {
        return Err(NotFound);
      }
      var i := found.value;
      r := ApplyPatch(items[i], p, now);
      if r.Ok? {
        items := items[i := r.value];
        forall x | x in items ensures WellFormed(x) && x.id < nextId {
          var k :| 0 <= k < |items| && items[k] == x;
          if k != i {
            assert x == old(items)[k];
          } else {
            assert old(items)[i] in old(items);
          }
        }
      }
    }

    /** `delete_item`: removes exactly the row with that id. */
    method DeleteItem(id: nat) returns (r: Result<(), PlannerError>)
      requires Valid()
      modifies this
      ensures Valid() && nextId == old(nextId)
      ensures r.Err? <==> Tables.IndexOf(old(items), id, IdOf).None?
      ensures r.Err? ==> r.error == NotFound && unchanged(this)
      ensures r.Ok? ==> var i := Tables.IndexOf(old(items), id, IdOf).value;
                        items == old(items)[..i] + old(items)[i + 1..]
      ensures forall x :: x in items <==> x in old(items) && x.id != id
    {
      var found := Tables.IndexOf(items, id, IdOf);
      if found.None? {
        return Err(NotFound);
      }
      var i := found.value;
      items := items[..i] + items[i + 1..];
      r := Ok(());
    }
  }
}
