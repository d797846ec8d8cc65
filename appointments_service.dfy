/** The appointment lifecycle: requesting, confirming and marking as paid, each of which
    appends one record to the append-only audit log, and the filtered listing. */
module AppointmentsService {
  import opened Common
  import opened AppointmentModel
  import Tables

  /** One row of the appointment_events table. */
  datatype Event = Event(
    appointmentId: nat,
    eventType: string,
    oldValue: Option<string>,
    newValue: Option<string>,
    note: Option<string>,
    createdAt: Time)

  /** The event logged when an appointment is requested. */
  function CreatedEvent(id: nat, now: Time): (e: Event)
    ensures e.appointmentId == id && e.createdAt == now && e.eventType == "created"
    ensures e.oldValue.None? && e.newValue.None?
  {
    Event(id, "created", None, None, Some("Appointment requested by patient"), now)
  }

  /** The event logged when an appointment is confirmed from status `previous`. */
  function ConfirmedEvent(id: nat, previous: string, now: Time): (e: Event)
    ensures e.appointmentId == id && e.createdAt == now && e.eventType == "status_changed"
    ensures e.oldValue == Some(previous) && e.newValue == Some(Confirmed)
  {
    Event(id, "status_changed", Some(previous), Some(Confirmed), Some("Confirmed by therapist/admin"), now)
  }

  /** The event logged when an appointment is marked as paid. */
  function PaymentMarkedEvent(id: nat, now: Time): (e: Event)
    ensures e.appointmentId == id && e.createdAt == now && e.eventType == "payment_marked"
    ensures e.oldValue == Some("unpaid") && e.newValue == Some("paid")
  {
    Event(id, "payment_marked", Some("unpaid"), Some("paid"),
          Some("Marked as paid manually by therapist/admin"), now)
  }

  /** `get_or_404` on an unknown id. */
  datatype ServiceError = NotFound

  function IdOf(a: Appointment): nat { a.id }

  /** What every row written by this service satisfies: the scheduled bounds are set
      exactly on confirmed rows, and the payment time exactly on paid ones. */
  predicate Consistent(a: Appointment) {
    && (a.scheduledStart.Some? <==> a.status == Confirmed)
    && (a.scheduledEnd.Some? <==> a.status == Confirmed)
    && (a.paidAt.Some? <==> a.isPaid)
  }

  /** `list_appointments`' WHERE clause: each filter applies only when it is given. */
  predicate Selected(a: Appointment, status: Option<string>, userId: Option<nat>) {
    && (status.Some? && status.value != "" ==> a.status == status.value)
    && (userId.Some? ==> a.userId == userId.value)
  }

  /** `list_appointments(status, user_id)`: the selected rows, newest first. */
  function ListAppointments(rows: seq<Appointment>, status: Option<string>, userId: Option<nat>)
    : (r: seq<Appointment>)
    ensures forall a :: multiset(r)[a] == if Selected(a, status, userId) then multiset(rows)[a] else 0
    ensures forall i, j :: 0 <= i < j < |r| ==> r[i].createdAt >= r[j].createdAt
  {
    var key := (a: Appointment) => -a.createdAt;
    var r := Tables.SortBy(Tables.Filter(rows, (a: Appointment) => Selected(a, status, userId)), key);
    assert forall i, j :: 0 <= i < j < |r| ==> key(r[i]) <= key(r[j]);
    r
  }

  /** What the table and its log keep: unique ids below the counter, consistent rows, and
      every event about an existing appointment. */
  predicate Ledger(appointments: seq<Appointment>, events: seq<Event>, nextId: nat) {
    && Tables.UniqueKeys(appointments, IdOf)
    && (forall i :: 0 <= i < |appointments| ==> appointments[i].id < nextId)
    && (forall i :: 0 <= i < |appointments| ==> Consistent(appointments[i]))
    && (forall k :: 0 <= k < |events| ==> Tables.IndexOf(appointments, events[k].appointmentId, IdOf).Some?)
  }

  /** A consistent row under the next id, logged by an event about it, keeps the invariant. */
  lemma LedgerAdd(appointments: seq<Appointment>, events: seq<Event>, nextId: nat, a: Appointment, e: Event)
    requires Ledger(appointments, events, nextId)
    requires a.id == nextId && Consistent(a) && e.appointmentId == a.id
    ensures Ledger(appointments + [a], events + [e], nextId + 1)
  {
    var s, log := appointments + [a], events + [e];
    forall j | 0 <= j < |appointments| ensures IdOf(appointments[j]) != IdOf(a) { }
    Tables.AppendUnique(appointments, a, IdOf);
    forall k | 0 <= k < |log| ensures Tables.IndexOf(s, log[k].appointmentId, IdOf).Some? {
      if k < |events| {
        var j := Tables.IndexOf(appointments, events[k].appointmentId, IdOf).value;
        Tables.IndexOfFound(s, j, log[k].appointmentId, IdOf);
      } else {
        Tables.IndexOfFound(s, |appointments|, log[k].appointmentId, IdOf);
      }
    }
  }

  /** Rewriting a row in place, keeping its id and consistency, and logging an event about
      it keeps the invariant. */
  lemma LedgerReplace(appointments: seq<Appointment>, events: seq<Event>, nextId: nat, i: nat,
                      a: Appointment, e: Event)
    requires Ledger(appointments, events, nextId)
    requires i < |appointments| && a.id == appointments[i].id && Consistent(a) && e.appointmentId == a.id
    ensures Ledger(appointments[i := a], events + [e], nextId)
  {
    var s, log := appointments[i := a], events + [e];
    forall k | 0 <= k < |log| ensures Tables.IndexOf(s, log[k].appointmentId, IdOf).Some? {
      if k < |events| {
        var j := Tables.IndexOf(appointments, events[k].appointmentId, IdOf).value;
        Tables.IndexOfFound(s, j, log[k].appointmentId, IdOf);
      } else {
        Tables.IndexOfFound(s, i, log[k].appointmentId, IdOf);
      }
    }
  }

  /** The appointments table and its audit log. Ids come from a counter (the source draws
      random UUIDs); the log is only ever extended. */
  class AppointmentBook {
    var appointments: seq<Appointment>
    var events: seq<Event>
    var nextId: nat

    ghost predicate Valid()
      reads this
    {
      Ledger(appointments, events, nextId)
    }

    constructor ()
      ensures Valid() && appointments == [] && events == [] && nextId == 0
    {
      appointments, events, nextId := [], [], 0;
    }

    /** `request_appointment`: inserts a requested appointment and logs its creation in the
        same commit. The free text is taken as the column value it ends up as. */
    method RequestAppointment(userId: nat, comment: Option<string>,
                              requestedStart: Option<Time>, requestedEnd: Option<Time>, now: Time)
      returns (appt: Appointment)
      requires Valid()
      modifies this
      ensures Valid()
      ensures appt == NewAppointment(old(nextId), userId, comment, requestedStart, requestedEnd, now)
      ensures appointments == old(appointments) + [appt]
      ensures events == old(events) + [CreatedEvent(appt.id, now)]
      ensures nextId == old(nextId) + 1
    {
      appt := NewAppointment(nextId, userId, comment, requestedStart, requestedEnd, now);
      LedgerAdd(appointments, events, nextId, appt, CreatedEvent(appt.id, now));
      appointments := appointments + [appt];
      nextId := nextId + 1;
      events := events + [CreatedEvent(appt.id, now)];
    }

    /** `admin_confirm`: from whatever status the row had, sets it to confirmed with the given
        bounds, and logs the previous and the new status. */
    method AdminConfirm(id: nat, scheduledStart: Time, scheduledEnd: Time, now: Time)
      returns (r: Result<Appointment, ServiceError>)
      requires Valid()
      modifies this
      ensures Valid() && nextId == old(nextId)
      ensures r.Err? <==> Tables.IndexOf(old(appointments), id, IdOf).None?
      ensures r.Err? ==> r.error == NotFound && unchanged(this)
      ensures r.Ok? ==>
        var i := Tables.IndexOf(old(appointments), id, IdOf).value;
        && r.value == old(appointments)[i].(status := Confirmed, scheduledStart := Some(scheduledStart),
                                            scheduledEnd := Some(scheduledEnd), updatedAt := now)
        && appointments == old(appointments)[i := r.value]
        && events == old(events) + [ConfirmedEvent(id, old(appointments)[i].status, now)]
    {
      var found := Tables.IndexOf(appointments, id, IdOf);
      if found.None? {
        return Err(NotFound);
      }
      var i := found.value;
      var appt := appointments[i];
      var oldStatus := appt.status;
      appt := appt.(status := Confirmed);
      appt := appt.(scheduledStart := Some(scheduledStart));
      appt := appt.(scheduledEnd := Some(scheduledEnd));
      appt := appt.(updatedAt := now);
      LedgerReplace(appointments, events, nextId, i, appt, ConfirmedEvent(appt.id, oldStatus, now));
      appointments := appointments[i := appt];
      events := events + [ConfirmedEvent(appt.id, oldStatus, now)];
      r := Ok(appt);
    }

    /** `mark_paid`: sets the paid flag and time, and always logs "unpaid" to "paid", even
        for a row that was already paid. */
    method MarkPaid(id: nat, now: Time) returns (r: Result<Appointment, ServiceError>)
      requires Valid()
      modifies this
      ensures Valid() && nextId == old(nextId)
      ensures r.Err? <==> Tables.IndexOf(old(appointments), id, IdOf).None?
      ensures r.Err? ==> r.error == NotFound && unchanged(this)
      ensures r.Ok? ==>
        var i := Tables.IndexOf(old(appointments), id, IdOf).value;
        && r.value == old(appointments)[i].(isPaid := true, paidAt := Some(now), updatedAt := now)
        && appointments == old(appointments)[i := r.value]
        && events == old(events) + [PaymentMarkedEvent(id, now)]
    {
      var found := Tables.IndexOf(appointments, id, IdOf);
      if found.None? {
        return Err(NotFound);
      }
      var i := found.value;
      var appt := appointments[i];
      appt := appt.(isPaid := true);
      appt := appt.(paidAt := Some(now));
      appt := appt.(updatedAt := now);
      LedgerReplace(appointments, events, nextId, i, appt, PaymentMarkedEvent(appt.id, now));
      appointments := appointments[i := appt];
      events := events + [PaymentMarkedEvent(appt.id, now)];
      r := Ok(appt);
    }
  }
}
