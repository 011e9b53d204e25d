/** The attendance router: one session document per date, holding a list of
    per-member records. The collection is an in-memory list of sessions in
    insertion order, so `findOne` and `updateOne` with a date filter act on
    the first session with that date. Every handler sits behind the
    bearer-token gate. */
module Attendance {
  import opened Documents
  import Auth

  /** A JavaScript `Date`, as milliseconds since the epoch. */
  type Date = int

  /** A stored attendance record; the session handlers write exactly these
      two fields. */
  datatype AttendanceRecord = AttendanceRecord(memberId: ObjectId, status: Value)

  datatype Session = Session(sessionDate: Date, records: seq<AttendanceRecord>)

  /** No two sessions share a date. */
  ghost predicate DatesDistinct(sessions: seq<Session>) {
    forall i, j :: 0 <= i < j < |sessions| ==> sessions[i].sessionDate != sessions[j].sessionDate
  }

  /** `findOne({ sessionDate: d })`: the position of the first session with
      date `d`. */
  function FindSession(sessions: seq<Session>, d: Date): (r: Option<nat>)
    ensures r.None? <==> forall k :: 0 <= k < |sessions| ==> sessions[k].sessionDate != d
    ensures r.Some? ==>
      r.value < |sessions| && sessions[r.value].sessionDate == d &&
      forall k :: 0 <= k < r.value ==> sessions[k].sessionDate != d
  {
    if sessions == [] then None
    else if sessions[0].sessionDate == d then Some(0)
    else match FindSession(sessions[1..], d)
      case None => None
      case Some(i) => Some(i + 1)
  }

  /** Adding a session for a date that has none keeps dates distinct. */
  lemma AppendKeepsDatesDistinct(sessions: seq<Session>, s: Session)
    requires DatesDistinct(sessions)
    requires FindSession(sessions, s.sessionDate).None?
    ensures DatesDistinct(sessions + [s])
  {
  }

  // ---------------------------------------------------------------------
  // POST /: projecting the request's records

  /** `{ memberId: new ObjectId(record.memberId), status: record.status }`
      for one request entry. `None` where this throws: reading a property of
      a nullish entry, or `toObjectId` refusing the id (`None`). */
  function ProjectRecord(entry: Value, toObjectId: Value -> Option<ObjectId>): (r: Option<AttendanceRecord>)
    ensures r.Some? <==> !Nullish(entry) && toObjectId(Field(entry, "memberId")).Some?
    ensures r.Some? ==>
      r.value.memberId == toObjectId(Field(entry, "memberId")).value &&
      r.value.status == Field(entry, "status")
  {
    if Nullish(entry) then None
    else match toObjectId(Field(entry, "memberId"))
      case None => None
      case Some(id) => Some(AttendanceRecord(id, Field(entry, "status")))
  }

  /** `records.map(...)` over the request entries: `None` if any entry
      throws, otherwise one projected record per entry, in order. */
  function ProjectRecords(entries: seq<Value>, toObjectId: Value -> Option<ObjectId>): (r: Option<seq<AttendanceRecord>>)
    ensures r.Some? ==>
      |r.value| == |entries| &&
      forall i :: 0 <= i < |entries| ==> ProjectRecord(entries[i], toObjectId) == Some(r.value[i])
    ensures r.None? <==> exists i :: 0 <= i < |entries| && ProjectRecord(entries[i], toObjectId).None?
  {
    if entries == [] then Some([])
    else match ProjectRecord(entries[0], toObjectId)
      case None => None
      case Some(head) =>
        match ProjectRecords(entries[1..], toObjectId)
        case None => None
        case Some(tail) => Some([head] + tail)
  }

  // ---------------------------------------------------------------------
  // PATCH /date/:date: merging status updates into the stored records

  /** `r.memberId === id` for one request entry `r`; `None` where reading
      the property throws. */
  function EntryNames(entry: Value, id: ObjectId): (r: Option<bool>)
    ensures r.None? <==> Nullish(entry)
    ensures r == Some(true) <==>
      entry.Obj? && "memberId" in entry.fields && entry.fields["memberId"] == Str(id)
  {
    if Nullish(entry) then None else Some(Field(entry, "memberId") == Str(id))
  }

  /** The outcome of `Array.prototype.find`. */
  datatype Lookup = Found(entry: Value) | NotFound | Threw

  /** `entries.find((r) => r.memberId === id)`: scans left to right and stops
      at the first entry naming `id`, or throws at a nullish entry reached
      before that. */
  function Find(entries: seq<Value>, id: ObjectId): (l: Lookup)
    ensures l.Found? ==> l.entry in entries && EntryNames(l.entry, id) == Some(true)
    ensures l.Threw? ==> exists k :: 0 <= k < |entries| && EntryNames(entries[k], id).None?
  {
    if entries == [] then NotFound
    else match EntryNames(entries[0], id)
      case None => Threw
      case Some(true) => Found(entries[0])
      case Some(false) => Find(entries[1..], id)
  }

  /** When several entries name `id`, the first one is found. */
  lemma {:induction false} FindFirst(entries: seq<Value>, id: ObjectId, j: nat)
    requires j < |entries| && EntryNames(entries[j], id) == Some(true)
    requires forall k :: 0 <= k < j ==> EntryNames(entries[k], id) == Some(false)
    ensures Find(entries, id) == Found(entries[j])
  {
    if j > 0 {
      FindFirst(entries[1..], id, j - 1);
    }
  }

  /** No entry names `id` and none throws: nothing is found. */
  lemma {:induction false} FindNone(entries: seq<Value>, id: ObjectId)
    requires forall k :: 0 <= k < |entries| ==> EntryNames(entries[k], id) == Some(false)
    ensures Find(entries, id) == NotFound
  {
    if entries != [] {
      FindNone(entries[1..], id);
    }
  }

  /** A nullish entry reached before any match makes `find` throw. */
  lemma {:induction false} FindThrows(entries: seq<Value>, id: ObjectId, j: nat)
    requires j < |entries| && Nullish(entries[j])
    requires forall k :: 0 <= k < j ==> EntryNames(entries[k], id) == Some(false)
    ensures Find(entries, id) == Threw
  {
    if j > 0 {
      FindThrows(entries[1..], id, j - 1);
    }
  }

  /** An entry that is not nullish and names `id` not at all is skipped. */
  lemma {:induction false} FindSkips(pre: seq<Value>, e: Value, post: seq<Value>, id: ObjectId)
    requires EntryNames(e, id) == Some(false)
    ensures Find(pre + [e] + post, id) == Find(pre + post, id)
  {
    if pre == [] {
      assert (pre + [e] + post)[1..] == pre + post;
    } else {
      assert (pre + [e] + post)[1..] == pre[1..] + [e] + post;
      assert (pre + post)[1..] == pre[1..] + post;
      FindSkips(pre[1..], e, post, id);
    }
  }

  /** One step of `existingSession.records.map(...)`: the record with the
      status of the first entry naming its member, `{ ...record, status }`,
      or the record itself when no entry names it. A found entry names the
      member, so it is an object and truthy. */
  function MergeRecord(record: AttendanceRecord, entries: seq<Value>): (r: Option<AttendanceRecord>)
    ensures r.None? <==> Find(entries, record.memberId).Threw?
    ensures r.Some? ==> r.value.memberId == record.memberId
    ensures r.Some? && r.value.status != record.status ==>
      exists k :: 0 <= k < |entries| && EntryNames(entries[k], record.memberId) == Some(true)
  {
    match Find(entries, record.memberId)
    case Threw => None
    case NotFound => Some(record)
    case Found(e) => Some(record.(status := Field(e, "status")))
  }

  /** The whole merge: `None` if any step throws, otherwise one merged record
      per stored record, in order. */
  function MergeRecords(records: seq<AttendanceRecord>, entries: seq<Value>): (r: Option<seq<AttendanceRecord>>)
    ensures r.Some? ==>
      |r.value| == |records| &&
      forall i :: 0 <= i < |records| ==> MergeRecord(records[i], entries) == Some(r.value[i])
    ensures r.None? <==> exists i :: 0 <= i < |records| && MergeRecord(records[i], entries).None?
  {
    if records == [] then Some([])
    else match MergeRecord(records[0], entries)
      case None => None
      case Some(head) =>
        match MergeRecords(records[1..], entries)
        case None => None
        case Some(tail) => Some([head] + tail)
  }

  /** A merged record takes the status of the first entry naming its member. */
  lemma MergeTakesFirstStatus(records: seq<AttendanceRecord>, entries: seq<Value>, i: nat, j: nat)
    requires MergeRecords(records, entries).Some?
    requires i < |records| && j < |entries|
    requires EntryNames(entries[j], records[i].memberId) == Some(true)
    requires forall k :: 0 <= k < j ==> EntryNames(entries[k], records[i].memberId) == Some(false)
    ensures MergeRecords(records, entries).value[i] == records[i].(status := Field(entries[j], "status"))
  {
    FindFirst(entries, records[i].memberId, j);
  }

  /** A record that no entry names is left as it was. */
  lemma MergeKeepsUnnamed(records: seq<AttendanceRecord>, entries: seq<Value>, i: nat)
    requires MergeRecords(records, entries).Some?
    requires i < |records|
    requires forall k :: 0 <= k < |entries| ==> EntryNames(entries[k], records[i].memberId) == Some(false)
    ensures MergeRecords(records, entries).value[i] == records[i]
  {
    FindNone(entries, records[i].memberId);
  }

  /** The merge throws only on a nullish entry: without one it always
      succeeds. */
  lemma MergeWithoutNullsSucceeds(records: seq<AttendanceRecord>, entries: seq<Value>)
    requires forall k :: 0 <= k < |entries| ==> !Nullish(entries[k])
    ensures MergeRecords(records, entries).Some?
  {
  }

  /** An entry naming a member with no record in the session changes
      nothing, wherever it stands in the request. */
  lemma {:induction false} MergeIgnoresStrangers(records: seq<AttendanceRecord>, pre: seq<Value>, e: Value, post: seq<Value>)
    requires !Nullish(e)
    requires forall i :: 0 <= i < |records| ==> Field(e, "memberId") != Str(records[i].memberId)
    ensures MergeRecords(records, pre + [e] + post) == MergeRecords(records, pre + post)
  {
    if records != [] {
      FindSkips(pre, e, post, records[0].memberId);
      MergeIgnoresStrangers(records[1..], pre, e, post);
    }
  }

  /** Applying the same update twice gives the records of applying it once. */
  lemma {:induction false} MergeIdempotent(records: seq<AttendanceRecord>, entries: seq<Value>)
    requires MergeRecords(records, entries).Some?
    ensures MergeRecords(MergeRecords(records, entries).value, entries) == MergeRecords(records, entries)
  {
    if records != [] {
      MergeIdempotent(records[1..], entries);
      var out := MergeRecords(records, entries).value;
      var head := out[0];
      assert MergeRecord(head, entries) == Some(head);
      assert MergeRecords(records[1..], entries).value == out[1..];
      assert out == [head] + out[1..];
    }
  }

  // ---------------------------------------------------------------------
  // The collection and its handlers

  /** The `attendance` collection, with the date and id conversions the
      handlers apply to request data and the gate's token verifier.
      `toObjectId` is `new ObjectId(...)`, `None` where it throws. */
  class AttendanceStore {
    var sessions: seq<Session>
    const toDate: Value -> Date
    const toObjectId: Value -> Option<ObjectId>
    const verify: string -> Option<Value>

    /** The handlers keep at most one session per date. */
    ghost predicate Valid()
      reads this
    {
      DatesDistinct(sessions)
    }

    constructor (toDate: Value -> Date, toObjectId: Value -> Option<ObjectId>, verify: string -> Option<Value>)
      ensures Valid() && sessions == []
      ensures this.toDate == toDate && this.toObjectId == toObjectId && this.verify == verify
    {
      sessions := [];
      this.toDate, this.toObjectId, this.verify := toDate, toObjectId, verify;
    }

    /** GET /date/:date: the session for that date, 404 when there is none. */
    method GetByDate(authorization: Option<string>, date: string) returns (status: nat, session: Option<Session>)
      requires Valid()
      ensures !Auth.Decide(authorization, verify).Admitted? ==> status == 401 && session == None
      ensures Auth.Decide(authorization, verify).Admitted? ==>
        (status == 404 <==> forall k :: 0 <= k < |sessions| ==> sessions[k].sessionDate != toDate(Str(date)))
      ensures status == 401 ==> !Auth.Decide(authorization, verify).Admitted?
      ensures status == 200 ==>
        session.Some? && session.value in sessions && session.value.sessionDate == toDate(Str(date))
      ensures status == 200 ==>
        forall k :: 0 <= k < |sessions| && sessions[k].sessionDate == toDate(Str(date)) ==>
          sessions[k] == session.value
      ensures status in {200, 401, 404}
    {
      if !Auth.Decide(authorization, verify).Admitted? {
        return 401, None;
      }
      var found := FindSession(sessions, toDate(Str(date)));
      if found.None? {
        return 404, None;
      }
      return 200, Some(sessions[found.value]);
    }

    /** POST /: creates the session for `body.sessionDate` unless the input
        is malformed (400), a session for that date exists (400), or
        projecting the records throws (500). */
    method Post(authorization: Option<string>, body: Doc) returns (status: nat)
      requires Valid()
      modifies this
      ensures Valid()
      ensures !Auth.Decide(authorization, verify).Admitted? ==> status == 401
      ensures (Auth.Decide(authorization, verify).Admitted? &&
               (!Truthy(Get(body, "sessionDate")) || !Get(body, "records").Arr?)) ==> status == 400
      ensures (Auth.Decide(authorization, verify).Admitted? &&
               Truthy(Get(body, "sessionDate")) && Get(body, "records").Arr?) ==>
        var d := toDate(Get(body, "sessionDate"));
        var projected := ProjectRecords(Get(body, "records").items, toObjectId);
        if FindSession(old(sessions), d).Some? then status == 400
        else if projected.None? then status == 500
        else status == 201 && sessions == old(sessions) + [Session(d, projected.value)]
      ensures status != 201 ==> sessions == old(sessions)
    {
      if !Auth.Decide(authorization, verify).Admitted? {
        return 401;
      }
      var sessionDate, records := Get(body, "sessionDate"), Get(body, "records");
      if !Truthy(sessionDate) || !records.Arr? {
        return 400;
      }
      var d := toDate(sessionDate);
      var existing := FindSession(sessions, d);
      if existing.Some? {
        return 400;
      }
      var projected := ProjectRecords(records.items, toObjectId);
      if projected.None? {
        return 500;
      }
      AppendKeepsDatesDistinct(sessions, Session(d, projected.value));
      sessions := sessions + [Session(d, projected.value)];
      status := 201;
    }

    /** PATCH /date/:date: merges the request's statuses into the session for
        that date. 400 when `records` is not an array, 404 when there is no
        session, 500 when the merge throws. */
    method Patch(authorization: Option<string>, date: string, body: Doc) returns (status: nat)
      requires Valid()
      modifies this
      ensures Valid()
      ensures !Auth.Decide(authorization, verify).Admitted? ==> status == 401
      ensures Auth.Decide(authorization, verify).Admitted? && !Get(body, "records").Arr? ==> status == 400
      ensures Auth.Decide(authorization, verify).Admitted? && Get(body, "records").Arr? ==>
        var found := FindSession(old(sessions), toDate(Str(date)));
        if found.None? then status == 404
        else
          var merged := MergeRecords(old(sessions)[found.value].records, Get(body, "records").items);
          if merged.None? then status == 500
          else (status == 200 &&
                sessions == old(sessions)[found.value := old(sessions)[found.value].(records := merged.value)])
      ensures status != 200 ==> sessions == old(sessions)
    {
      if !Auth.Decide(authorization, verify).Admitted? {
        return 401;
      }
      var records := Get(body, "records");
      if !Truthy(records) || !records.Arr? {
        return 400;
      }
      var found := FindSession(sessions, toDate(Str(date)));
      if found.None? {
        return 404;
      }
      var existing := sessions[found.value];
      var merged := MergeRecords(existing.records, records.items);
      if merged.None? {
        return 500;
      }
      sessions := sessions[found.value := existing.(records := merged.value)];
      status := 200;
    }
  }
}
