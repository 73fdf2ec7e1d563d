/**
 * The train schedule registry: the Schedule schema
 * (server/models/Schedule.js), its handlers
 * (server/controllers/scheduleController.js) and the get-by-id route
 * (server/routes/scheduleRoutes.js). The registry is its own collection:
 * deleting a schedule touches no booking that refers to it.
 */
module Schedules {
  import opened Common
  import opened Queries

  /** A stored schedule with the `timestamps` fields. `price` has no lower bound. */
  datatype Schedule = Schedule(
    id: Id,
    trainName: string,
    from: string,
    to: string,
    departureTime: string,
    arrivalTime: string,
    price: int,
    createdAt: Time,
    updatedAt: Time)

  /** A request body; any field may be absent. */
  datatype ScheduleBody = ScheduleBody(
    trainName: Option<string>,
    from: Option<string>,
    to: Option<string>,
    departureTime: Option<string>,
    arrivalTime: Option<string>,
    price: Option<int>)

  /** A required string field refuses a missing value and the empty string. */
  predicate ValidSchedule(s: Schedule) {
    s.trainName != "" && s.from != "" && s.to != "" && s.departureTime != "" && s.arrivalTime != ""
  }

  predicate BodyComplete(body: ScheduleBody) {
    && Truthy(body.trainName) && Truthy(body.from) && Truthy(body.to)
    && Truthy(body.departureTime) && Truthy(body.arrivalTime) && body.price.Some?
  }

  /** `new Schedule(body)` and its validation; both timestamps are the creation time. */
  function Construct(body: ScheduleBody, id: Id, now: Time): (r: Result<Schedule>)
    ensures r.Ok? <==> BodyComplete(body)
    ensures r.Ok? ==> ValidSchedule(r.value) && r.value.id == id && r.value.createdAt == now == r.value.updatedAt
    ensures r.Ok? ==> r.value.trainName == body.trainName.value && r.value.from == body.from.value && r.value.to == body.to.value
    ensures r.Ok? ==> r.value.departureTime == body.departureTime.value && r.value.arrivalTime == body.arrivalTime.value
    ensures r.Ok? ==> r.value.price == body.price.value
  {
    if !BodyComplete(body) then Err("Schedule validation failed")
    else
      Ok(Schedule(id, body.trainName.value, body.from.value, body.to.value,
        body.departureTime.value, body.arrivalTime.value, body.price.value, now, now))
  }

  /** The update validators accept a patch unless it sets a required string to "". */
  predicate PatchAccepts(patch: ScheduleBody) {
    && patch.trainName != Some("") && patch.from != Some("") && patch.to != Some("")
    && patch.departureTime != Some("") && patch.arrivalTime != Some("")
  }

  /** `$set` of the supplied fields; `updatedAt` moves to `now`, `createdAt` stays. */
  function Apply(s: Schedule, patch: ScheduleBody, now: Time): (r: Schedule)
    requires PatchAccepts(patch)
    ensures ValidSchedule(s) ==> ValidSchedule(r)
    ensures r.id == s.id && r.createdAt == s.createdAt && r.updatedAt == now
    ensures SetPath(patch.trainName, s.trainName, r.trainName)
    ensures SetPath(patch.from, s.from, r.from)
    ensures SetPath(patch.to, s.to, r.to)
    ensures SetPath(patch.departureTime, s.departureTime, r.departureTime)
    ensures SetPath(patch.arrivalTime, s.arrivalTime, r.arrivalTime)
    ensures SetPath(patch.price, s.price, r.price)
  {
    s.(
      trainName := SetValue(patch.trainName, s.trainName),
      from := SetValue(patch.from, s.from),
      to := SetValue(patch.to, s.to),
      departureTime := SetValue(patch.departureTime, s.departureTime),
      arrivalTime := SetValue(patch.arrivalTime, s.arrivalTime),
      price := SetValue(patch.price, s.price),
      updatedAt := now)
  }

  /** A patch that repeats every stored value changes only `updatedAt`. */
  lemma ApplySameValues(s: Schedule, now: Time)
    requires ValidSchedule(s)
    ensures var same := ScheduleBody(Some(s.trainName), Some(s.from), Some(s.to),
        Some(s.departureTime), Some(s.arrivalTime), Some(s.price));
      PatchAccepts(same) && Apply(s, same, now) == s.(updatedAt := now)
  {
  }

  predicate IdFree(rs: seq<Schedule>, id: Id) {
    forall i :: 0 <= i < |rs| ==> rs[i].id != id
  }

  function IndexOfId(rs: seq<Schedule>, id: Id): (r: Option<nat>)
    ensures r.Some? ==> r.value < |rs| && rs[r.value].id == id
    ensures r.None? <==> IdFree(rs, id)
  {
    Find(rs, (s: Schedule) => s.id == id)
  }

  function CreatedAt(s: Schedule): int {
    s.createdAt
  }

  class ScheduleRegistry {
    var records: seq<Schedule>

    ghost predicate Valid()
      reads this
    {
      (forall i :: 0 <= i < |records| ==> ValidSchedule(records[i])) && UniqueBy(records, (s: Schedule) => s.id)
    }

    constructor ()
      ensures Valid() && records == []
    {
      records := [];
    }

    /** `getAllSchedules`: every schedule, newest `createdAt` first. */
    function ListAll(): (r: seq<Schedule>)
      reads this
      ensures multiset(r) == multiset(records)
      ensures SortedBy(r, NewestFirst(CreatedAt))
    {
      NewestFirstIsTotalPreorder(CreatedAt);
      SortBy(records, NewestFirst(CreatedAt))
    }

    /** The get-by-id route: a malformed id fails the cast (500), an unknown one is 404. */
    function Get(id: Id): (r: (Status, Option<Schedule>))
      reads this
      ensures r.0 == 500 <==> !IsObjectId(id)
      ensures r.0 == 404 <==> IsObjectId(id) && IdFree(records, id)
      ensures r.0 == 200 <==> r.1.Some?
      ensures r.1.Some? ==> r.1.value in records && r.1.value.id == id
    {
      if !IsObjectId(id) then (500, None)
      else
        var i := IndexOfId(records, id);
        if i.None? then (404, None) else (200, Some(records[i.value]))
    }

    /** `createSchedule`: 400 and nothing stored when validation fails, else the new schedule is appended. */
    method Create(body: ScheduleBody, id: Id, now: Time) returns (status: Status)
      requires Valid() && IdFree(records, id)
      modifies this
      ensures Valid()
      ensures status in {201, 400}
      ensures status == 201 <==> BodyComplete(body)
      ensures status == 201 ==> records == old(records) + [Construct(body, id, now).value]
      ensures status == 400 ==> records == old(records)
    {
      var built := Construct(body, id, now);
      if built.Err? {
        return 400;
      }
      records := records + [built.value];
      status := 201;
    }

    /**
     * `updateSchedule`: a malformed id or a refused field is 400 (the handler's
     * catch), an unknown id 404; otherwise the supplied fields are set.
     */
    method Update(id: Id, patch: ScheduleBody, now: Time) returns (status: Status)
      requires Valid()
      modifies this
      ensures Valid()
      ensures status in {200, 400, 404}
      ensures status == 400 <==> !IsObjectId(id) || !PatchAccepts(patch)
      ensures status == 404 <==> IsObjectId(id) && PatchAccepts(patch) && IdFree(old(records), id)
      ensures status == 200 ==>
        (var i := IndexOfId(old(records), id).value; records == old(records)[i := Apply(old(records)[i], patch, now)])
      ensures status != 200 ==> records == old(records)
    {
      if !IsObjectId(id) || !PatchAccepts(patch) {
        return 400;
      }
      var found := IndexOfId(records, id);
      if found.None? {
        return 404;
      }
      var i := found.value;
      records := records[i := Apply(records[i], patch, now)];
      status := 200;
    }

    /** `deleteSchedule`: removes the schedule with `id` and nothing else; bookings are another store. */
    method Delete(id: Id) returns (status: Status)
      requires Valid()
      modifies this
      ensures Valid()
      ensures status in {200, 404, 500}
      ensures status == 500 <==> !IsObjectId(id)
      ensures status == 404 <==> IsObjectId(id) && IdFree(old(records), id)
      ensures status == 200 ==>
        (var i := IndexOfId(old(records), id).value; records == old(records)[..i] + old(records)[i + 1..])
      ensures status != 200 ==> records == old(records)
    {
      if !IsObjectId(id) {
        return 500;
      }
      var found := IndexOfId(records, id);
      if found.None? {
        return 404;
      }
      var i := found.value;
      records := records[..i] + records[i + 1..];
      status := 200;
    }
  }
}
