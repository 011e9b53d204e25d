/** The members router: create, read, update and delete over the `members`
    collection. The only check is that `FullName`, `Email` and `StudentID`
    are truthy on creation: no field formats, no uniqueness, and no check at
    all on update. No handler here is behind the token gate. */
module Members {
  import opened Documents

  /** The fields a new member must carry. */
  const RequiredMemberFields: set<string> := {"FullName", "Email", "StudentID"}

  /** `validateMemberData(data)`: false exactly when one of the required
      fields is missing or falsy. */
  function ValidateMemberData(data: Doc): (ok: bool)
    ensures ok <==> AllTruthy(data, RequiredMemberFields)
  {
    if !Truthy(Get(data, "FullName")) || !Truthy(Get(data, "Email")) || !Truthy(Get(data, "StudentID")) then
      false
    else
      true
  }

  /** A `$set` is not validated: an update can blank a required field of a
      member that passed validation. */
  lemma UpdateCanInvalidate(member: Doc)
    ensures !ValidateMemberData(SetFields(member, map["Email" := Str("")]))
  {
  }

  /** The `members` collection: documents by id. `issued` holds every id the
      store has ever handed out, so an id is never reused after deletion. */
  class MemberStore {
    var members: map<ObjectId, Doc>
    var issued: set<ObjectId>

    ghost predicate Valid()
      reads this
    {
      members.Keys <= issued
    }

    constructor ()
      ensures Valid() && members == map[] && issued == {}
    {
      members, issued := map[], {};
    }

    /** GET /: every member. */
    method List() returns (status: nat, data: map<ObjectId, Doc>)
      ensures status == 200 && data == members
    {
      return 200, members;
    }

    /** GET /:id: the member, 404 when there is none with that id. */
    method GetById(id: ObjectId) returns (status: nat, member: Option<Doc>)
      ensures status == 404 <==> id !in members
      ensures status == 200 <==> id in members
      ensures member == if id in members then Some(members[id]) else None
    {
      if id !in members {
        return 404, None;
      }
      return 200, Some(members[id]);
    }

    /** POST /: stores the body as it is, extra fields included, under the
        fresh id `newId` the store generates; 400 and no insert when
        validation fails. Nothing is compared with the stored members. */
    method Post(body: Doc, newId: ObjectId) returns (status: nat)
      requires Valid() && newId !in issued
      modifies this
      ensures Valid()
      ensures status == (if ValidateMemberData(body) then 201 else 400)
      ensures status == 201 ==> members == old(members)[newId := body] && issued == old(issued) + {newId}
      ensures status == 400 ==> members == old(members) && issued == old(issued)
    {
      if !ValidateMemberData(body) {
        return 400;
      }
      members := members[newId := body];
      issued := issued + {newId};
      status := 201;
    }

    /** PATCH /:id: `$set` of the body onto the member, with no validation;
        404 and no change when there is no member with that id. */
    method Patch(id: ObjectId, body: Doc) returns (status: nat)
      requires Valid()
      modifies this
      ensures Valid() && issued == old(issued)
      ensures status == 404 <==> id !in old(members)
      ensures status == 404 ==> members == old(members)
      ensures status != 404 ==> status == 200 && members == old(members)[id := SetFields(old(members)[id], body)]
    {
      if id !in members {
        return 404;
      }
      members := members[id := SetFields(members[id], body)];
      status := 200;
    }

    /** DELETE /:id: removes exactly that member; 404 when there is none. */
    method Delete(id: ObjectId) returns (status: nat)
      requires Valid()
      modifies this
      ensures Valid() && issued == old(issued)
      ensures status == 404 <==> id !in old(members)
      ensures status == 404 ==> members == old(members)
      ensures status != 404 ==> status == 200 && members == old(members) - {id}
      ensures id !in members
    {
      if id !in members {
        return 404;
      }
      members := members - {id};
      status := 200;
    }
  }
}
