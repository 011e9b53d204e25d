/** The calendar router: events and reminders in the `calendar` collection.
    Creation needs a truthy `title`, `date` and `type`; updates are not
    checked. Every handler except the member-facing list is behind the
    token gate. */
module Calendar {
  import opened Documents
  import Auth

  /** The fields a new event must carry. */
  const RequiredEventFields: set<string> := {"title", "date", "type"}

  /** The inline check of POST /: false exactly when `title`, `date` or
      `type` is missing or falsy. */
  function EventFieldsPresent(event: Doc): (ok: bool)
    ensures ok <==> AllTruthy(event, RequiredEventFields)
  {
    if !Truthy(Get(event, "title")) || !Truthy(Get(event, "date")) || !Truthy(Get(event, "type")) then
      false
    else
      true
  }

  /** PATCH is not validated: it can set `title` to the empty string, which
      creation refuses. */
  lemma UpdateCanClearTitle(event: Doc)
    ensures !EventFieldsPresent(SetFields(event, map["title" := Str("")]))
  {
  }

  /** The `calendar` collection and the gate's token verifier. `issued`
      holds every id the store has ever handed out. */
  class EventStore {
    var events: map<ObjectId, Doc>
    var issued: set<ObjectId>
    const verify: string -> Option<Value>

    ghost predicate Valid()
      reads this
    {
      events.Keys <= issued
    }

    constructor (verify: string -> Option<Value>)
      ensures Valid() && events == map[] && issued == {} && this.verify == verify
    {
      events, issued := map[], {};
      this.verify := verify;
    }

    /** GET /membercalendar: every event, with no token needed. */
    method ListForMembers() returns (status: nat, data: map<ObjectId, Doc>)
      ensures status == 200 && data == events
    {
      return 200, events;
    }

    /** GET /: the same events as GET /membercalendar, for an admitted
        caller only. */
    method List(authorization: Option<string>) returns (status: nat, data: map<ObjectId, Doc>)
      ensures status == 200 <==> Auth.Decide(authorization, verify).Admitted?
      ensures status != 200 ==> status == 401 && data == map[]
      ensures status == 200 ==> data == events
    {
      if !Auth.Decide(authorization, verify).Admitted? {
        return 401, map[];
      }
      return 200, events;
    }

    /** GET /:id: the event, 404 when there is none with that id. */
    method GetById(authorization: Option<string>, id: ObjectId) returns (status: nat, event: Option<Doc>)
      ensures !Auth.Decide(authorization, verify).Admitted? ==> status == 401 && event == None
      ensures Auth.Decide(authorization, verify).Admitted? ==>
        (status == 404 <==> id !in events) &&
        event == (if id in events then Some(events[id]) else None)
      ensures status == 401 ==> !Auth.Decide(authorization, verify).Admitted?
      ensures status in {200, 401, 404}
    {
      if !Auth.Decide(authorization, verify).Admitted? {
        return 401, None;
      }
      if id !in events {
        return 404, None;
      }
      return 200, Some(events[id]);
    }

    /** POST /: stores the body as it is under the fresh id `newId` the store
        generates; 400 and no insert unless `title`, `date` and `type` are
        all truthy. */
    method Post(authorization: Option<string>, body: Doc, newId: ObjectId) returns (status: nat)
      requires Valid() && newId !in issued
      modifies this
      ensures Valid()
      ensures !Auth.Decide(authorization, verify).Admitted? ==> status == 401
      ensures Auth.Decide(authorization, verify).Admitted? ==>
        status == (if EventFieldsPresent(body) then 201 else 400)
      ensures status == 201 ==> events == old(events)[newId := body] && issued == old(issued) + {newId}
      ensures status != 201 ==> events == old(events) && issued == old(issued)
    {
      if !Auth.Decide(authorization, verify).Admitted? {
        return 401;
      }
      if !EventFieldsPresent(body) {
        return 400;
      }
      events := events[newId := body];
      issued := issued + {newId};
      status := 201;
    }

    /** PATCH /:id: `$set` of the body onto the event, with no validation;
        404 and no change when there is no event with that id. */
    method Patch(authorization: Option<string>, id: ObjectId, body: Doc) returns (status: nat)
      requires Valid()
      modifies this
      ensures Valid() && issued == old(issued)
      ensures !Auth.Decide(authorization, verify).Admitted? ==> status == 401
      ensures Auth.Decide(authorization, verify).Admitted? ==>
        (status == 404 <==> id !in old(events))
      ensures status == 401 ==> !Auth.Decide(authorization, verify).Admitted?
      ensures status == 200 ==> id in old(events) && events == old(events)[id := SetFields(old(events)[id], body)]
      ensures status != 200 ==> events == old(events)
      ensures status in {200, 401, 404}
    {
      if !Auth.Decide(authorization, verify).Admitted? {
        return 401;
      }
      if id !in events {
        return 404;
      }
      events := events[id := SetFields(events[id], body)];
      status := 200;
    }

    /** DELETE /:id: removes exactly that event; 404 when there is none. */
    method Delete(authorization: Option<string>, id: ObjectId) returns (status: nat)
      requires Valid()
      modifies this
      ensures Valid() && issued == old(issued)
      ensures !Auth.Decide(authorization, verify).Admitted? ==> status == 401
      ensures Auth.Decide(authorization, verify).Admitted? ==>
        (status == 404 <==> id !in old(events))
      ensures status == 401 ==> !Auth.Decide(authorization, verify).Admitted?
      ensures status == 200 ==> id in old(events) && events == old(events) - {id}
      ensures status != 200 ==> events == old(events)
      ensures status in {200, 401, 404}
    {
      if !Auth.Decide(authorization, verify).Admitted? {
        return 401;
      }
      if id !in events {
        return 404;
      }
      events := events - {id};
      status := 200;
    }
  }
}
