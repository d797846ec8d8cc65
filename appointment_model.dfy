/** The appointment row: its columns, the defaults a new row gets, and the
    serialisation `to_dict` that the routes return as JSON. */
module AppointmentModel {
  import opened Common
  import opened Json
  import Text
  import AppointmentFields

  const Requested := "requested"
  const Confirmed := "confirmed"

  /** One row of the appointments table. `comment` is the single free-text column. */
  datatype Appointment = Appointment(
    id: nat,
    userId: nat,
    comment: Option<string>,
    requestedStart: Option<Time>,
    requestedEnd: Option<Time>,
    scheduledStart: Option<Time>,
    scheduledEnd: Option<Time>,
    status: string,
    isPaid: bool,
    paidAt: Option<Time>,
    createdAt: Time,
    updatedAt: Time)

  /** A freshly inserted row: the column defaults (status "requested", unpaid) and
      both timestamps set to the insertion time. */
  function NewAppointment(id: nat, userId: nat, comment: Option<string>,
                          requestedStart: Option<Time>, requestedEnd: Option<Time>, now: Time)
    : (a: Appointment)
    ensures a.status == Requested && !a.isPaid && a.paidAt.None?
    ensures a.scheduledStart.None? && a.scheduledEnd.None?
    ensures a.id == id && a.userId == userId && a.comment == comment
    ensures a.requestedStart == requestedStart && a.requestedEnd == requestedEnd
    ensures a.createdAt == now && a.updatedAt == now
  {
    Appointment(id, userId, comment, requestedStart, requestedEnd, None, None,
                Requested, false, None, now, now)
  }

  /** The nested user of the serialised appointment: only the full name. */
  datatype UserRef = UserRef(fullName: string)

  /** The dictionary `to_dict` builds. Datetimes stay as times (`isoformat` is not modelled). */
  datatype AppointmentDict = AppointmentDict(
    id: nat,
    userId: nat,
    description: Value,
    comment: Value,
    considerations: Value,
    requestedStart: Option<Time>,
    requestedEnd: Option<Time>,
    scheduledStart: Option<Time>,
    scheduledEnd: Option<Time>,
    status: string,
    isPaid: bool,
    paidAt: Option<Time>,
    createdAt: Option<Time>,
    updatedAt: Option<Time>,
    user: Option<UserRef>)

  /** The newline-separated lines of a non-empty comment column; none for an empty one. */
  function Lines(comment: Option<string>): (ls: seq<string>)
    ensures comment.Some? && comment.value != "" ==> |ls| >= 1
  {
    if comment.None? || comment.value == "" then [] else Text.Split(comment.value, '\n')
  }

  /** `Appointment.to_dict()`, given the full name of the related user when there is one.
      The three text fields are the first three lines of `comment`. */
  function ToDict(a: Appointment, userFullName: Option<string>): (d: AppointmentDict)
    ensures d.id == a.id && d.userId == a.userId
    ensures d.status == a.status && d.isPaid == a.isPaid
    ensures d.requestedStart == a.requestedStart && d.requestedEnd == a.requestedEnd
    ensures d.scheduledStart == a.scheduledStart && d.scheduledEnd == a.scheduledEnd
    ensures d.paidAt == a.paidAt
    ensures d.createdAt == Some(a.createdAt) && d.updatedAt == Some(a.updatedAt)
    ensures d.user.Some? <==> userFullName.Some?
    ensures d.user.Some? ==> d.user.value.fullName == userFullName.value
  {
    var ls := Lines(a.comment);
    AppointmentDict(
      a.id, a.userId,
      if |ls| > 0 then Str(ls[0]) else Str(""),
      if |ls| > 1 then Str(ls[1]) else Null,
      if |ls| > 2 then Str(ls[2]) else Null,
      a.requestedStart, a.requestedEnd, a.scheduledStart, a.scheduledEnd,
      a.status, a.isPaid, a.paidAt, Some(a.createdAt), Some(a.updatedAt),
      if userFullName.Some? then Some(UserRef(userFullName.value)) else None)
  }

  /** The description is the text before the first newline: it holds no newline and is
      either the whole comment or followed in it by a newline. An empty comment gives "". */
  lemma DescriptionIsFirstLine(a: Appointment, u: Option<string>)
    ensures var d := ToDict(a, u).description;
            d.Str? && '\n' !in d.s
            && (a.comment.None? ==> d.s == "")
            && (a.comment.Some? ==> (d.s == a.comment.value || Text.StartsWith(a.comment.value, d.s + "\n")))
  {
    if a.comment.Some? && a.comment.value != "" {
      var c := a.comment.value;
      var ls := Text.Split(c, '\n');
      Text.JoinSplit(c, '\n');
      if |ls| > 1 {
        assert c == ls[0] + ['\n'] + Text.Join(ls[1..], '\n');
        assert c[..|ls[0] + "\n"|] == ls[0] + "\n";
      }
    }
  }

  /** The comment field is present exactly when the column holds at least one newline, and
      the considerations field exactly when it holds at least two. */
  lemma OptionalLinesPresence(a: Appointment, u: Option<string>)
    requires a.comment.Some?
    ensures ToDict(a, u).comment.Str? <==> Text.Count(a.comment.value, '\n') >= 1
    ensures ToDict(a, u).considerations.Str? <==> Text.Count(a.comment.value, '\n') >= 2
  {
    Text.SplitCount(a.comment.value, '\n');
  }

  /** Newline-joining three newline-free texts and serialising reads them back. */
  lemma ThreeLinesRoundTrip(a: Appointment, u: Option<string>, d: string, c: string, x: string)
    requires '\n' !in d && '\n' !in c && '\n' !in x
    requires a.comment == Some(d + "\n" + c + "\n" + x)
    ensures ToDict(a, u).description == Str(d)
    ensures ToDict(a, u).comment == Str(c)
    ensures ToDict(a, u).considerations == Str(x)
  {
    var parts := [d, c, x];
    assert parts[1..] == [c, x] && parts[1..][1..] == [x];
    assert Text.Join([x], '\n') == x;
    assert Text.Join([c, x], '\n') == c + ['\n'] + x;
    assert Text.Join(parts, '\n') == d + ['\n'] + (c + ['\n'] + x);
    assert Text.Join(parts, '\n') == d + "\n" + c + "\n" + x;
    Text.SplitJoin(parts, '\n');
  }

  /** Two newline-free texts joined by one newline are read back as description and
      comment, with no considerations. */
  lemma {:induction false} TwoLinesRoundTrip(a: Appointment, u: Option<string>, d: string, c: string)
    requires '\n' !in d && '\n' !in c
    requires a.comment == Some(d + "\n" + c)
    ensures ToDict(a, u).description == Str(d)
    ensures ToDict(a, u).comment == Str(c)
    ensures ToDict(a, u).considerations == Null
  {
    var parts := [d, c];
    assert parts[1..] == [c];
    assert Text.Join([c], '\n') == c;
    assert Text.Join(parts, '\n') == d + "\n" + c;
    Text.SplitJoin(parts, '\n');
  }

  /** Lines after the third never reach the dictionary. */
  lemma LaterLinesIgnored(a: Appointment, u: Option<string>, rest: string)
    requires a.comment.Some? && Text.Count(a.comment.value, '\n') >= 2
    ensures ToDict(a.(comment := Some(a.comment.value + "\n" + rest)), u) == ToDict(a, u)
  {
    var c := a.comment.value;
    Text.SplitCount(c, '\n');
    Text.SplitAround(c, rest, '\n');
    var ls, ls' := Text.Split(c, '\n'), Text.Split(c + "\n" + rest, '\n');
    assert ls' == ls + Text.Split(rest, '\n');
    assert ls'[0] == ls[0] && ls'[1] == ls[1] && ls'[2] == ls[2];
  }

  /** Text without a newline is one line. */
  lemma SingleLine(s: string)
    requires '\n' !in s
    ensures Text.Split(s, '\n') == [s]
  {
    Text.SplitJoin([s], '\n');
  }

  /** The two readings of the column disagree: `to_dict` splits it on newlines and does not
      call `unpack_fields`, so a column written by `pack_fields` (one line of JSON) comes out
      whole as the description with no comment, whereas `unpack_fields` recovers the comment. */
  lemma ToDictMisreadsPackedColumn(codec: Codec, a: Appointment, u: Option<string>,
                                   d: Option<string>, c: string, x: Option<string>)
    requires Lawful(codec)
    requires a.comment == Some(AppointmentFields.PackFields(codec, d, Some(c), x))
    ensures ToDict(a, u).description == Str(a.comment.value)
    ensures ToDict(a, u).comment == Null
    ensures AppointmentFields.UnpackFields(codec, a.comment).comment == Str(c)
  {
    var t := a.comment.value;
    DumpsNonEmpty(codec, Obj(AppointmentFields.PackObject(d, Some(c), x)));
    SingleLine(t);
    AppointmentFields.RoundTrip(codec, d, Some(c), x);
  }
}
