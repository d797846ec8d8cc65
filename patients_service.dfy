/** The patients table: adding a patient and listing patients, optionally of one owner,
    newest first. */
module PatientsService {
  import opened Common
  import opened Json
  import Tables

  /** One row of the patients table. Columns copied from the payload keep the JSON value
      they were given. */
  datatype Patient = Patient(
    id: nat,
    ownerUserId: Value,
    fullName: Value,
    relationToBooker: Value,
    birthDate: Value,
    notes: Value,
    createdAt: Time)

  /** `payload["full_name"]` on a payload without the key raises `KeyError`; a null name
      is refused by the NOT NULL column when the session commits. */
  datatype PatientError = MissingFullName | NullFullName

  /** The row `create_patient` builds: every optional column is `payload.get(...)`, so a
      missing key is stored as null. */
  function NewPatient(payload: map<string, Value>, id: nat, now: Time): (r: Result<Patient, PatientError>)
    ensures r.Err? <==> "full_name" !in payload || payload["full_name"] == Null
    ensures r.Err? ==> r.error == if "full_name" !in payload then MissingFullName else NullFullName
    ensures r.Ok? ==> && r.value.id == id && r.value.createdAt == now
                      && r.value.fullName == payload["full_name"]
                      && r.value.ownerUserId == Get(payload, "owner_user_id")
                      && r.value.relationToBooker == Get(payload, "relation_to_booker")
                      && r.value.birthDate == Get(payload, "birth_date")
                      && r.value.notes == Get(payload, "notes")
  {
    if "full_name" !in payload then Err(MissingFullName)
    else if payload["full_name"] == Null then Err(NullFullName)
    else Ok(Patient(id, Get(payload, "owner_user_id"), payload["full_name"],
                    Get(payload, "relation_to_booker"), Get(payload, "birth_date"),
                    Get(payload, "notes"), now))
  }

  /** `list_patients`' filter: applied whenever an owner is given (`is not None`), so owner
      0 filters too. */
  predicate OwnedBy(p: Patient, owner: Option<int>) {
    owner.Some? ==> p.ownerUserId == Num(owner.value)
  }

  /** `list_patients(owner_user_id)`: the owner's patients (all patients when no owner is
      given), newest first. */
  function ListPatients(rows: seq<Patient>, owner: Option<int>): (r: seq<Patient>)
    ensures forall p :: multiset(r)[p] == if OwnedBy(p, owner) then multiset(rows)[p] else 0
    ensures owner.None? ==> multiset(r) == multiset(rows)
    ensures forall i, j :: 0 <= i < j < |r| ==> r[i].createdAt >= r[j].createdAt
  {
    var key := (p: Patient) => -p.createdAt;
    var owned := (p: Patient) => OwnedBy(p, owner);
    var r := Tables.SortBy(Tables.Filter(rows, owned), key);
    assert forall i, j :: 0 <= i < j < |r| ==> key(r[i]) <= key(r[j]);
    if owner.None? then
      Tables.FilterAll(rows, owned);
      r
    else r
  }

  function IdOf(p: Patient): nat { p.id }

  /** The patients table. Ids come from a counter (the source draws random UUIDs). */
  class PatientTable {
    var patients: seq<Patient>
    var nextId: nat

    ghost predicate Valid()
      reads this
    {
      && Tables.UniqueKeys(patients, IdOf)
      && (forall p :: p in patients ==> p.id < nextId)
    }

    constructor ()
      ensures Valid() && patients == [] && nextId == 0
    {
      patients, nextId := [], 0;
    }

    /** `create_patient(payload)`: adds exactly one row, or nothing when the name is missing
        or null. */
    method CreatePatient(payload: map<string, Value>, now: Time) returns (r: Result<Patient, PatientError>)
      requires Valid()
      modifies this
      ensures Valid()
      ensures r == NewPatient(payload, old(nextId), now)
      ensures r.Ok? ==> patients == old(patients) + [r.value] && nextId == old(nextId) + 1
      ensures r.Err? ==> patients == old(patients) && nextId == old(nextId)
    {
      r := NewPatient(payload, nextId, now);
      if r.Ok? {
        forall j | 0 <= j < |patients| ensures IdOf(patients[j]) != r.value.id {
          assert patients[j] in patients;
        }
        Tables.AppendUnique(patients, r.value, IdOf);
        patients := patients + [r.value];
        nextId := nextId + 1;
      }
    }
  }
}
