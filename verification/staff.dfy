/**
 * The staff roster: the Staff schema (server/models/Staff.js) and its
 * handlers (server/controllers/staffController.js). Creation validates;
 * updates do not.
 */
module StaffRoster {
  import opened Common
  import opened Queries

  datatype Staff = Staff(id: Id, name: string, position: string, shift: string, contact: string, createdAt: Time)

  datatype StaffBody = StaffBody(name: Option<string>, position: Option<string>, shift: Option<string>, contact: Option<string>)

  /** Four required strings; a required string refuses "". */
  predicate ValidStaff(s: Staff) {
    s.name != "" && s.position != "" && s.shift != "" && s.contact != ""
  }

  predicate BodyComplete(b: StaffBody) {
    Truthy(b.name) && Truthy(b.position) && Truthy(b.shift) && Truthy(b.contact)
  }

  /** `new Staff(req.body)` and its validation; `createdAt` is the creation time. */
  function Construct(b: StaffBody, id: Id, now: Time): (r: Result<Staff>)
    ensures r.Ok? <==> BodyComplete(b)
    ensures r.Ok? ==> ValidStaff(r.value) && r.value.id == id && r.value.createdAt == now
    ensures r.Ok? ==> r.value.name == b.name.value && r.value.position == b.position.value
    ensures r.Ok? ==> r.value.shift == b.shift.value && r.value.contact == b.contact.value
  {
    if !BodyComplete(b) then Err("Staff validation failed")
    else Ok(Staff(id, b.name.value, b.position.value, b.shift.value, b.contact.value, now))
  }

  /** `findByIdAndUpdate(id, body)` without validators: every supplied field is written as given. */
  function Apply(s: Staff, b: StaffBody): (r: Staff)
    ensures r.id == s.id && r.createdAt == s.createdAt
    ensures SetPath(b.name, s.name, r.name)
    ensures SetPath(b.position, s.position, r.position)
    ensures SetPath(b.shift, s.shift, r.shift)
    ensures SetPath(b.contact, s.contact, r.contact)
  {
    s.(name := SetValue(b.name, s.name), position := SetValue(b.position, s.position),
       shift := SetValue(b.shift, s.shift), contact := SetValue(b.contact, s.contact))
  }

  /** Because the update skips validation, it can blank a field that creation requires. */
  lemma UpdateCanBreakSchema(s: Staff)
    ensures !ValidStaff(Apply(s, StaffBody(Some(""), None, None, None)))
  {
  }

  predicate IdFree(rs: seq<Staff>, id: Id) {
    forall i :: 0 <= i < |rs| ==> rs[i].id != id
  }

  function IndexOfId(rs: seq<Staff>, id: Id): (r: Option<nat>)
    ensures r.Some? ==> r.value < |rs| && rs[r.value].id == id
    ensures r.None? <==> IdFree(rs, id)
  {
    Find(rs, (s: Staff) => s.id == id)
  }

  class Roster {
    var staff: seq<Staff>

    ghost predicate Valid()
      reads this
    {
      UniqueBy(staff, (s: Staff) => s.id)
    }

    constructor ()
      ensures Valid() && staff == []
    {
      staff := [];
    }

    /** `createStaff`: 400 when validation fails, else the new record is appended. */
    method Create(body: StaffBody, id: Id, now: Time) returns (status: Status)
      requires Valid() && IdFree(staff, id)
      modifies this
      ensures Valid()
      ensures status in {201, 400}
      ensures status == 201 <==> BodyComplete(body)
      ensures status == 201 ==> staff == old(staff) + [Construct(body, id, now).value]
      ensures status == 400 ==> staff == old(staff)
    {
      var built := Construct(body, id, now);
      if built.Err? {
        return 400;
      }
      staff := staff + [built.value];
      status := 201;
    }

    /** `getAllStaff`: every record, in store order. */
    function ListAll(): (r: seq<Staff>)
      reads this
      ensures |r| == |staff| && forall i :: 0 <= i < |r| ==> r[i] == staff[i]
    {
      staff
    }

    /** `updateStaff`: a malformed id is 400 (the catch), an unknown one 404, else the fields are written. */
    method Update(id: Id, body: StaffBody) returns (status: Status)
      requires Valid()
      modifies this
      ensures Valid()
      ensures status in {200, 400, 404}
      ensures status == 400 <==> !IsObjectId(id)
      ensures status == 404 <==> IsObjectId(id) && IdFree(old(staff), id)
      ensures status == 200 ==> var i := IndexOfId(old(staff), id).value; staff == old(staff)[i := Apply(old(staff)[i], body)]
      ensures status != 200 ==> staff == old(staff)
    {
      if !IsObjectId(id) {
        return 400;
      }
      var found := IndexOfId(staff, id);
      if found.None? {
        return 404;
      }
      var i := found.value;
      staff := staff[i := Apply(staff[i], body)];
      status := 200;
    }

    /** `deleteStaff`: 400 / 404 as above, else only that record goes. */
    method Delete(id: Id) returns (status: Status)
      requires Valid()
      modifies this
      ensures Valid()
      ensures status in {200, 400, 404}
      ensures status == 400 <==> !IsObjectId(id)
      ensures status == 404 <==> IsObjectId(id) && IdFree(old(staff), id)
      ensures status == 200 ==> var i := IndexOfId(old(staff), id).value; staff == old(staff)[..i] + old(staff)[i + 1..]
      ensures status != 200 ==> staff == old(staff)
    {
      if !IsObjectId(id) {
        return 400;
      }
      var found := IndexOfId(staff, id);
      if found.None? {
        return 404;
      }
      var i := found.value;
      staff := staff[..i] + staff[i + 1..];
      status := 200;
    }
  }
}
