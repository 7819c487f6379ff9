/** The request handlers of the five resources: Validate, resolve the reference given by
    name, run the statement, map the result to a response. One generic create, update
    and delete pipeline is instantiated per resource; the list endpoints are functions
    of the tables (the `rows.map` reshaping with its left join).

    The clock (`NOW()`) is the parameter `now`; store failures are the parameter
    `faults`, one for the name lookup and one for the write. */
module Handlers {
  import opened Js
  import opened Http
  import opened Store
  import opened Validate

  /** Store failures injected into one request: of the `SELECT id ... WHERE name = ?`
      lookup, and of the INSERT, UPDATE or DELETE. */
  datatype Faults = Faults(lookup: Option<string>, write: Option<string>)

  /** The id a reference by name resolves to: no lookup for a falsy name, otherwise the
      first row so named, or null when none is. */
  function RefId<S>(t: Table<S>, ref: Option<string>): (fk: Option<nat>)
    reads t
    ensures !TextTruthy(ref) ==> fk.None?
    ensures fk.Some? ==> Named(t.rows, t.nameOf, fk.value, ref.value)
  {
    if TextTruthy(ref) then
      FirstNamedIsLeast(t.rows, t.nameOf, ref.value, 1, t.nextId);
      t.Resolve(ref.value)
    else None
  }

  /** Reference resolution never fails a request and never invents an id: the result is
      null exactly when no name was given or no row carries it, and otherwise the
      smallest id of a row carrying it. */
  lemma RefIdMeaning<S>(t: Table<S>, ref: Option<string>)
    requires t.Valid()
    ensures RefId(t, ref).None? <==> !TextTruthy(ref) || forall id :: !Named(t.rows, t.nameOf, id, ref.value)
    ensures RefId(t, ref).Some? ==> var k := RefId(t, ref).value;
      && Named(t.rows, t.nameOf, k, ref.value)
      && forall id :: Named(t.rows, t.nameOf, id, ref.value) ==> k <= id
  {
    if TextTruthy(ref) {
      FirstNamedIsLeast(t.rows, t.nameOf, ref.value, 1, t.nextId);
      forall id: nat | Named(t.rows, t.nameOf, id, ref.value)
        ensures 1 <= id < t.nextId
      {
      }
    }
  }

  /** Runs the lookup of `ref` in `t` the way the handlers do: only for a truthy name,
      and a failed lookup ends the request with a 500. */
  method Lookup<S>(t: Table<S>, target: Resource, ref: Option<string>, fault: Option<string>)
    returns (fk: Option<nat>, failed: Option<Response>)
    requires t.Valid() && (target == EventTypes || target == Competitions)
    ensures failed.Some? <==> TextTruthy(ref) && fault.Some?
    ensures failed.Some? ==> failed.value == ServerError(LookupFailMsg(target), fault.value)
    ensures failed.None? ==> fk == RefId(t, ref)
  {
    fk, failed := None, None;
    if TextTruthy(ref) {
      if fault.Some? {
        failed := Some(HandleError(LookupFailMsg(target), Fault(fault.value)));
      } else {
        var ids := t.Select(ref.value);
        fk := FirstOrNull(ids);
      }
    }
  }

  // ---------------------------------------------------------------- the tables

  /** The five tables as the handlers use them: each referenced by `name` (the lookups
      match `name`); `event_types.name` and `judges.email` unique, since only those
      handlers expect `ER_DUP_ENTRY`; the other three taken to have no unique column. */
  ghost predicate EventTypeTable(t: Table<EventType>)
    reads t
  {
    forall e: EventType :: t.nameOf(e) == e.name && t.keyOf(e) == Some(e.name)
  }

  ghost predicate CompetitionTable(t: Table<Competition>)
    reads t
  {
    forall c: Competition :: t.nameOf(c) == c.name && t.keyOf(c) == None
  }

  ghost predicate JudgeTable(t: Table<Judge>)
    reads t
  {
    forall j: Judge :: t.nameOf(j) == j.name && t.keyOf(j) == Some(j.email)
  }

  ghost predicate ParticipantTable(t: Table<Participant>)
    reads t
  {
    forall p: Participant :: t.nameOf(p) == p.name && t.keyOf(p) == None
  }

  ghost predicate CriterionTable(t: Table<Criterion>)
    reads t
  {
    forall c: Criterion :: t.nameOf(c) == c.name && t.keyOf(c) == None
  }

  method NewEventTypes() returns (t: Table<EventType>)
    ensures fresh(t) && t.Valid() && t.rows == map[] && t.nextId == 1 && EventTypeTable(t)
  {
    t := new Table((e: EventType) => e.name, (e: EventType) => Some(e.name));
  }

  method NewCompetitions() returns (t: Table<Competition>)
    ensures fresh(t) && t.Valid() && t.rows == map[] && t.nextId == 1 && CompetitionTable(t)
  {
    t := new Table((c: Competition) => c.name, (c: Competition) => None);
  }

  method NewJudges() returns (t: Table<Judge>)
    ensures fresh(t) && t.Valid() && t.rows == map[] && t.nextId == 1 && JudgeTable(t)
  {
    t := new Table((j: Judge) => j.name, (j: Judge) => Some(j.email));
  }

  method NewParticipants() returns (t: Table<Participant>)
    ensures fresh(t) && t.Valid() && t.rows == map[] && t.nextId == 1 && ParticipantTable(t)
  {
    t := new Table((p: Participant) => p.name, (p: Participant) => None);
  }

  method NewCriteria() returns (t: Table<Criterion>)
    ensures fresh(t) && t.Valid() && t.rows == map[] && t.nextId == 1 && CriterionTable(t)
  {
    t := new Table((c: Criterion) => c.name, (c: Criterion) => None);
  }

  // ---------------------------------------------------------------- the generic pipeline

  /** INSERT `r` and answer with the new id, or with the mapped error. */
  method CreateRow<R>(k: Resource, t: Table<R>, r: R, name: string, now: int, fault: Option<string>)
    returns (resp: Response)
    requires t.Valid()
    modifies t
    ensures t.Valid()
    ensures resp == CreateReply(k, name, InsertVerdict(old(t.rows), t.keyOf, old(t.nextId), r, fault))
    ensures resp.Created? ==> resp.id !in old(t.rows) && t.rows == old(t.rows)[resp.id := Row(r, now, None)]
    ensures !resp.Created? ==> t.rows == old(t.rows)
    ensures t.nextId == if fault.None? then old(t.nextId) + 1 else old(t.nextId)
  {
    var res := t.Insert(r, now, fault);
    resp := CreateReply(k, name, res);
  }

  /** UPDATE row `id` with `change` and answer: 404 when there is no such row. */
  method UpdateRow<R>(k: Resource, t: Table<R>, id: nat, change: R -> R, name: string, now: int, fault: Option<string>)
    returns (resp: Response)
    requires t.Valid()
    modifies t
    ensures t.Valid()
    ensures resp == UpdateReply(k, name, UpdateVerdict(old(t.rows), t.keyOf, id, change, fault))
    ensures resp.Done? ==> t.rows == old(t.rows)[id := Row(change(old(t.rows)[id].data), old(t.rows)[id].createdAt, Some(now))]
    ensures !resp.Done? ==> t.rows == old(t.rows)
    ensures t.nextId == old(t.nextId)
  {
    var res := t.Update(id, change, now, fault);
    resp := UpdateReply(k, name, res);
  }

  /** `DELETE /api/{resource}/{id}`, the same for every resource. */
  method Delete<R>(k: Resource, t: Table<R>, id: nat, fault: Option<string>) returns (resp: Response)
    requires t.Valid()
    modifies t
    ensures t.Valid()
    ensures resp == DeleteReply(k, DeleteVerdict(old(t.rows), id, fault))
    ensures resp.Done? <==> fault.None? && id in old(t.rows)
    ensures resp.NotFound? <==> fault.None? && id !in old(t.rows)
    ensures resp.Done? ==> t.rows == old(t.rows) - {id}
    ensures !resp.Done? ==> t.rows == old(t.rows)
    ensures t.nextId == old(t.nextId)
  {
    var res := t.Delete(id, fault);
    resp := DeleteReply(k, res);
  }

  // ---------------------------------------------------------------- event types

  method CreateEventType(t: Table<EventType>, b: EventTypeBody, now: int, faults: Faults) returns (resp: Response)
    requires t.Valid() && EventTypeTable(t)
    modifies t
    ensures t.Valid()
    ensures EventTypeCheck(b) != Pass ==> resp == BadRequest(EventTypeCheck(b).msg) && t.rows == old(t.rows)
    ensures EventTypeCheck(b) == Pass ==>
      && resp == CreateReply(EventTypes, b.name.value, InsertVerdict(old(t.rows), t.keyOf, old(t.nextId), EventTypeRecord(b), faults.write))
      && (resp.Created? ==> t.rows == old(t.rows)[resp.id := Row(EventTypeRecord(b), now, None)])
    ensures !resp.Created? ==> t.rows == old(t.rows)
    ensures t.nextId == if EventTypeCheck(b) == Pass && faults.write.None? then old(t.nextId) + 1 else old(t.nextId)
    ensures EventTypeCheck(b) == Pass && faults.write.None? ==>
      (resp == BadRequest(DuplicateMsg(EventTypes).value) <==>
       exists i :: i in old(t.rows) && old(t.rows)[i].data.name == Trim(b.name.value))
  {
    var v := EventTypeCheck(b);
    if v.Reject? {
      return BadRequest(v.msg);
    }
    resp := CreateRow(EventTypes, t, EventTypeRecord(b), b.name.value, now, faults.write);
  }

  method UpdateEventType(t: Table<EventType>, id: nat, b: EventTypeBody, now: int, faults: Faults) returns (resp: Response)
    requires t.Valid() && EventTypeTable(t)
    modifies t
    ensures t.Valid()
    ensures EventTypeCheck(b) != Pass ==> resp == BadRequest(EventTypeCheck(b).msg) && t.rows == old(t.rows)
    ensures EventTypeCheck(b) == Pass ==>
      && resp == UpdateReply(EventTypes, b.name.value, UpdateVerdict(old(t.rows), t.keyOf, id, _ => EventTypeRecord(b), faults.write))
      && (resp.Done? ==> t.rows == old(t.rows)[id := Row(EventTypeRecord(b), old(t.rows)[id].createdAt, Some(now))])
    ensures !resp.Done? ==> t.rows == old(t.rows)
    ensures t.nextId == old(t.nextId)
    ensures EventTypeCheck(b) == Pass && faults.write.None? && id in old(t.rows) ==>
      (resp == BadRequest(DuplicateMsg(EventTypes).value) <==>
       exists i :: i in old(t.rows) && i != id && old(t.rows)[i].data.name == Trim(b.name.value))
  {
    var v := EventTypeCheck(b);
    if v.Reject? {
      return BadRequest(v.msg);
    }
    var e := EventTypeRecord(b);
    resp := UpdateRow(EventTypes, t, id, _ => e, b.name.value, now, faults.write);
  }

  function ListEventTypes(t: Table<EventType>, fault: Option<string>): (l: Listing<Row<EventType>>)
    reads t
    ensures l.ListFailed? <==> fault.Some?
    ensures l.ListFailed? ==> l.resp == ServerError("Failed to fetch event types", fault.value)
    ensures l.Rows? ==> l.rows == t.rows
  {
    Fetch(EventTypes, fault, t.rows)
  }

  // ---------------------------------------------------------------- competitions

  method CreateCompetition(t: Table<Competition>, types: Table<EventType>, b: CompetitionBody, now: int, faults: Faults)
    returns (resp: Response)
    requires t.Valid() && types.Valid() && CompetitionTable(t) && EventTypeTable(types)
    modifies t
    ensures t.Valid()
    ensures CompetitionCheck(b) != Pass ==> resp == BadRequest(CompetitionCheck(b).msg)
    ensures CompetitionCheck(b) == Pass && TextTruthy(b.eventType) && faults.lookup.Some? ==>
      resp == ServerError(LookupFailMsg(EventTypes), faults.lookup.value)
    ensures CompetitionCheck(b) == Pass && !(TextTruthy(b.eventType) && faults.lookup.Some?) ==>
      var c := CompetitionRecord(b, RefId(types, b.eventType), DefaultStatus);
      && resp == CreateReply(Competitions, b.name.value, InsertVerdict(old(t.rows), t.keyOf, old(t.nextId), c, faults.write))
      && (resp.Created? ==> t.rows == old(t.rows)[resp.id := Row(c, now, None)])
    ensures !resp.Created? ==> t.rows == old(t.rows)
    ensures t.nextId == if CompetitionCheck(b) == Pass && !(TextTruthy(b.eventType) && faults.lookup.Some?) && faults.write.None? then old(t.nextId) + 1 else old(t.nextId)
  {
    var v := CompetitionCheck(b);
    if v.Reject? {
      return BadRequest(v.msg);
    }
    var fk, failed := Lookup(types, EventTypes, b.eventType, faults.lookup);
    if failed.Some? {
      return failed.value;
    }
    resp := CreateRow(Competitions, t, CompetitionRecord(b, fk, DefaultStatus), b.name.value, now, faults.write);
  }

  /** The UPDATE sets every column but `status`, which the row keeps. */
  method UpdateCompetition(t: Table<Competition>, types: Table<EventType>, id: nat, b: CompetitionBody, now: int,
                           faults: Faults) returns (resp: Response)
    requires t.Valid() && types.Valid() && CompetitionTable(t) && EventTypeTable(types)
    modifies t
    ensures t.Valid()
    ensures CompetitionCheck(b) != Pass ==> resp == BadRequest(CompetitionCheck(b).msg)
    ensures CompetitionCheck(b) == Pass && TextTruthy(b.eventType) && faults.lookup.Some? ==>
      resp == ServerError(LookupFailMsg(EventTypes), faults.lookup.value)
    ensures CompetitionCheck(b) == Pass && !(TextTruthy(b.eventType) && faults.lookup.Some?) ==>
      var fk := RefId(types, b.eventType);
      && resp == UpdateReply(Competitions, b.name.value,
                             UpdateVerdict(old(t.rows), t.keyOf, id, (c: Competition) => CompetitionRecord(b, fk, c.status), faults.write))
      && (resp.Done? ==> t.rows == old(t.rows)[id := Row(CompetitionRecord(b, fk, old(t.rows)[id].data.status),
                                                        old(t.rows)[id].createdAt, Some(now))])
    ensures !resp.Done? ==> t.rows == old(t.rows)
    ensures t.nextId == old(t.nextId)
  {
    var v := CompetitionCheck(b);
    if v.Reject? {
      return BadRequest(v.msg);
    }
    var fk, failed := Lookup(types, EventTypes, b.eventType, faults.lookup);
    if failed.Some? {
      return failed.value;
    }
    resp := UpdateRow(Competitions, t, id, (c: Competition) => CompetitionRecord(b, fk, c.status), b.name.value, now, faults.write);
  }

  /** A competition as the list endpoint returns it: the event type's name in place of
      its id. */
  datatype CompetitionView = CompetitionView(id: nat, name: string, description: string, date: Option<string>,
                                             eventType: Option<string>, status: string,
                                             createdAt: int, updatedAt: Option<int>)

  /** `LEFT JOIN event_types et ON c.event_type_id = et.id`, then the `rows.map`. */
  function CompetitionViews(rows: map<nat, Row<Competition>>, types: map<nat, Row<EventType>>): (v: map<nat, CompetitionView>)
    ensures v.Keys == rows.Keys
    ensures forall id :: id in v ==> var c := rows[id].data;
      && v[id] == CompetitionView(id, c.name, c.description, c.date, v[id].eventType, c.status,
                                  rows[id].createdAt, rows[id].updatedAt)
      && (v[id].eventType.Some? <==> c.eventTypeId.Some? && c.eventTypeId.value in types)
      && (v[id].eventType.Some? ==> v[id].eventType.value == types[c.eventTypeId.value].data.name)
  {
    map id | id in rows ::
      var c := rows[id].data;
      var joined := if c.eventTypeId.Some? && c.eventTypeId.value in types
                    then Some(types[c.eventTypeId.value].data.name) else None;
      CompetitionView(id, c.name, c.description, c.date, joined, c.status, rows[id].createdAt, rows[id].updatedAt)
  }

  function ListCompetitions(t: Table<Competition>, types: Table<EventType>, fault: Option<string>): (l: Listing<CompetitionView>)
    reads t, types
    ensures l.ListFailed? <==> fault.Some?
    ensures l.ListFailed? ==> l.resp == ServerError("Failed to fetch competitions", fault.value)
    ensures l.Rows? ==> l.rows == CompetitionViews(t.rows, types.rows)
  {
    Fetch(Competitions, fault, CompetitionViews(t.rows, types.rows))
  }

  // ---------------------------------------------------------------- judges

  method CreateJudge(t: Table<Judge>, b: JudgeBody, now: int, faults: Faults) returns (resp: Response)
    requires t.Valid() && JudgeTable(t)
    modifies t
    ensures t.Valid()
    ensures JudgeCheck(b) != Pass ==> resp == BadRequest(JudgeCheck(b).msg) && t.rows == old(t.rows)
    ensures JudgeCheck(b) == Pass ==>
      && resp == CreateReply(Judges, b.name.value, InsertVerdict(old(t.rows), t.keyOf, old(t.nextId), JudgeRecord(b), faults.write))
      && (resp.Created? ==> t.rows == old(t.rows)[resp.id := Row(JudgeRecord(b), now, None)])
    ensures !resp.Created? ==> t.rows == old(t.rows)
    ensures t.nextId == if JudgeCheck(b) == Pass && faults.write.None? then old(t.nextId) + 1 else old(t.nextId)
    ensures JudgeCheck(b) == Pass && faults.write.None? ==>
      (resp == BadRequest(DuplicateMsg(Judges).value) <==>
       exists i :: i in old(t.rows) && old(t.rows)[i].data.email == Trim(b.email.value))
  {
    var v := JudgeCheck(b);
    if v.Reject? {
      return BadRequest(v.msg);
    }
    resp := CreateRow(Judges, t, JudgeRecord(b), b.name.value, now, faults.write);
  }

  method UpdateJudge(t: Table<Judge>, id: nat, b: JudgeBody, now: int, faults: Faults) returns (resp: Response)
    requires t.Valid() && JudgeTable(t)
    modifies t
    ensures t.Valid()
    ensures JudgeCheck(b) != Pass ==> resp == BadRequest(JudgeCheck(b).msg) && t.rows == old(t.rows)
    ensures JudgeCheck(b) == Pass ==>
      && resp == UpdateReply(Judges, b.name.value, UpdateVerdict(old(t.rows), t.keyOf, id, _ => JudgeRecord(b), faults.write))
      && (resp.Done? ==> t.rows == old(t.rows)[id := Row(JudgeRecord(b), old(t.rows)[id].createdAt, Some(now))])
    ensures !resp.Done? ==> t.rows == old(t.rows)
    ensures t.nextId == old(t.nextId)
    ensures JudgeCheck(b) == Pass && faults.write.None? && id in old(t.rows) ==>
      (resp == BadRequest(DuplicateMsg(Judges).value) <==>
       exists i :: i in old(t.rows) && i != id && old(t.rows)[i].data.email == Trim(b.email.value))
  {
    var v := JudgeCheck(b);
    if v.Reject? {
      return BadRequest(v.msg);
    }
    var j := JudgeRecord(b);
    resp := UpdateRow(Judges, t, id, _ => j, b.name.value, now, faults.write);
  }

  function ListJudges(t: Table<Judge>, fault: Option<string>): (l: Listing<Row<Judge>>)
    reads t
    ensures l.ListFailed? <==> fault.Some?
    ensures l.ListFailed? ==> l.resp == ServerError("Failed to fetch judges", fault.value)
    ensures l.Rows? ==> l.rows == t.rows
  {
    Fetch(Judges, fault, t.rows)
  }

  // ---------------------------------------------------------------- participants

  method CreateParticipant(t: Table<Participant>, comps: Table<Competition>, b: ParticipantBody, now: int, faults: Faults)
    returns (resp: Response)
    requires t.Valid() && comps.Valid() && ParticipantTable(t) && CompetitionTable(comps)
    modifies t
    ensures t.Valid()
    ensures ParticipantCheck(b) != Pass ==> resp == BadRequest(ParticipantCheck(b).msg)
    ensures ParticipantCheck(b) == Pass && TextTruthy(b.category) && faults.lookup.Some? ==>
      resp == ServerError(LookupFailMsg(Competitions), faults.lookup.value)
    ensures ParticipantCheck(b) == Pass && !(TextTruthy(b.category) && faults.lookup.Some?) ==>
      var p := ParticipantRecord(b, RefId(comps, b.category));
      && resp == CreateReply(Participants, b.name.value, InsertVerdict(old(t.rows), t.keyOf, old(t.nextId), p, faults.write))
      && (resp.Created? ==> t.rows == old(t.rows)[resp.id := Row(p, now, None)])
    ensures !resp.Created? ==> t.rows == old(t.rows)
    ensures t.nextId == if ParticipantCheck(b) == Pass && !(TextTruthy(b.category) && faults.lookup.Some?) && faults.write.None? then old(t.nextId) + 1 else old(t.nextId)
  {
    var v := ParticipantCheck(b);
    if v.Reject? {
      return BadRequest(v.msg);
    }
    var fk, failed := Lookup(comps, Competitions, b.category, faults.lookup);
    if failed.Some? {
      return failed.value;
    }
    resp := CreateRow(Participants, t, ParticipantRecord(b, fk), b.name.value, now, faults.write);
  }

  method UpdateParticipant(t: Table<Participant>, comps: Table<Competition>, id: nat, b: ParticipantBody, now: int,
                           faults: Faults) returns (resp: Response)
    requires t.Valid() && comps.Valid() && ParticipantTable(t) && CompetitionTable(comps)
    modifies t
    ensures t.Valid()
    ensures ParticipantCheck(b) != Pass ==> resp == BadRequest(ParticipantCheck(b).msg)
    ensures ParticipantCheck(b) == Pass && TextTruthy(b.category) && faults.lookup.Some? ==>
      resp == ServerError(LookupFailMsg(Competitions), faults.lookup.value)
    ensures ParticipantCheck(b) == Pass && !(TextTruthy(b.category) && faults.lookup.Some?) ==>
      var p := ParticipantRecord(b, RefId(comps, b.category));
      && resp == UpdateReply(Participants, b.name.value, UpdateVerdict(old(t.rows), t.keyOf, id, _ => p, faults.write))
      && (resp.Done? ==> t.rows == old(t.rows)[id := Row(p, old(t.rows)[id].createdAt, Some(now))])
    ensures !resp.Done? ==> t.rows == old(t.rows)
    ensures t.nextId == old(t.nextId)
  {
    var v := ParticipantCheck(b);
    if v.Reject? {
      return BadRequest(v.msg);
    }
    var fk, failed := Lookup(comps, Competitions, b.category, faults.lookup);
    if failed.Some? {
      return failed.value;
    }
    var p := ParticipantRecord(b, fk);
    resp := UpdateRow(Participants, t, id, _ => p, b.name.value, now, faults.write);
  }

  /** A participant as the list endpoint returns it: the competition's name, as
      `category`, in place of its id. */
  datatype ParticipantView = ParticipantView(id: nat, name: string, course: string, category: Option<string>,
                                             contact: Option<string>, age: Option<int>, yearLevel: Option<string>,
                                             status: string, createdAt: int, updatedAt: Option<int>)

  /** `LEFT JOIN competitions c ON p.competition_id = c.id`, then the `rows.map`. */
  function ParticipantViews(rows: map<nat, Row<Participant>>, comps: map<nat, Row<Competition>>): (v: map<nat, ParticipantView>)
    ensures v.Keys == rows.Keys
    ensures forall id :: id in v ==> var p := rows[id].data;
      && v[id] == ParticipantView(id, p.name, p.course, v[id].category, p.contact, p.age, p.yearLevel, p.status,
                                  rows[id].createdAt, rows[id].updatedAt)
      && (v[id].category.Some? <==> p.competitionId.Some? && p.competitionId.value in comps)
      && (v[id].category.Some? ==> v[id].category.value == comps[p.competitionId.value].data.name)
  {
    map id | id in rows ::
      var p := rows[id].data;
      var joined := if p.competitionId.Some? && p.competitionId.value in comps
                    then Some(comps[p.competitionId.value].data.name) else None;
      ParticipantView(id, p.name, p.course, joined, p.contact, p.age, p.yearLevel, p.status,
                      rows[id].createdAt, rows[id].updatedAt)
  }

  function ListParticipants(t: Table<Participant>, comps: Table<Competition>, fault: Option<string>): (l: Listing<ParticipantView>)
    reads t, comps
    ensures l.ListFailed? <==> fault.Some?
    ensures l.ListFailed? ==> l.resp == ServerError("Failed to fetch participants", fault.value)
    ensures l.Rows? ==> l.rows == ParticipantViews(t.rows, comps.rows)
  {
    Fetch(Participants, fault, ParticipantViews(t.rows, comps.rows))
  }

  // ---------------------------------------------------------------- criteria

  /** A criteria request passes all three checks, including a competition name, before
      the lookup; a name that matches no competition still inserts, with a null id. */
  method CreateCriterion(t: Table<Criterion>, comps: Table<Competition>, b: CriterionBody, now: int, faults: Faults)
    returns (resp: Response)
    requires t.Valid() && comps.Valid() && CriterionTable(t) && CompetitionTable(comps)
    modifies t
    ensures t.Valid()
    ensures CriterionCheck(b) != Pass ==> resp == BadRequest(CriterionCheck(b).msg)
    ensures CriterionCheck(b) == Pass && faults.lookup.Some? ==>
      resp == ServerError(LookupFailMsg(Competitions), faults.lookup.value)
    ensures CriterionCheck(b) == Pass && faults.lookup.None? ==>
      var c := CriterionRecord(b, RefId(comps, b.competition));
      && resp == CreateReply(Criteria, b.name.value, InsertVerdict(old(t.rows), t.keyOf, old(t.nextId), c, faults.write))
      && (resp.Created? ==> t.rows == old(t.rows)[resp.id := Row(c, now, None)])
    ensures !resp.Created? ==> t.rows == old(t.rows)
    ensures t.nextId == if CriterionCheck(b) == Pass && faults.lookup.None? && faults.write.None? then old(t.nextId) + 1 else old(t.nextId)
  {
    var v := CriterionCheck(b);
    if v.Reject? {
      return BadRequest(v.msg);
    }
    var fk, failed := Lookup(comps, Competitions, b.competition, faults.lookup);
    if failed.Some? {
      return failed.value;
    }
    resp := CreateRow(Criteria, t, CriterionRecord(b, fk), b.name.value, now, faults.write);
  }

  method UpdateCriterion(t: Table<Criterion>, comps: Table<Competition>, id: nat, b: CriterionBody, now: int,
                         faults: Faults) returns (resp: Response)
    requires t.Valid() && comps.Valid() && CriterionTable(t) && CompetitionTable(comps)
    modifies t
    ensures t.Valid()
    ensures CriterionCheck(b) != Pass ==> resp == BadRequest(CriterionCheck(b).msg)
    ensures CriterionCheck(b) == Pass && faults.lookup.Some? ==>
      resp == ServerError(LookupFailMsg(Competitions), faults.lookup.value)
    ensures CriterionCheck(b) == Pass && faults.lookup.None? ==>
      var c := CriterionRecord(b, RefId(comps, b.competition));
      && resp == UpdateReply(Criteria, b.name.value, UpdateVerdict(old(t.rows), t.keyOf, id, _ => c, faults.write))
      && (resp.Done? ==> t.rows == old(t.rows)[id := Row(c, old(t.rows)[id].createdAt, Some(now))])
    ensures !resp.Done? ==> t.rows == old(t.rows)
    ensures t.nextId == old(t.nextId)
  {
    var v := CriterionCheck(b);
    if v.Reject? {
      return BadRequest(v.msg);
    }
    var fk, failed := Lookup(comps, Competitions, b.competition, faults.lookup);
    if failed.Some? {
      return failed.value;
    }
    var c := CriterionRecord(b, fk);
    resp := UpdateRow(Criteria, t, id, _ => c, b.name.value, now, faults.write);
  }

  /** A criterion as the list endpoint returns it: the competition's name in place of
      its id. */
  datatype CriterionView = CriterionView(id: nat, name: string, description: Option<string>, maxScore: int, weight: int,
                                         competition: Option<string>, createdAt: int, updatedAt: Option<int>)

  /** `LEFT JOIN competitions c ON cr.competition_id = c.id`, then the `rows.map`. */
  function CriterionViews(rows: map<nat, Row<Criterion>>, comps: map<nat, Row<Competition>>): (v: map<nat, CriterionView>)
    ensures v.Keys == rows.Keys
    ensures forall id :: id in v ==> var c := rows[id].data;
      && v[id] == CriterionView(id, c.name, c.description, c.maxScore, c.weight, v[id].competition,
                                rows[id].createdAt, rows[id].updatedAt)
      && (v[id].competition.Some? <==> c.competitionId.Some? && c.competitionId.value in comps)
      && (v[id].competition.Some? ==> v[id].competition.value == comps[c.competitionId.value].data.name)
  {
    map id | id in rows ::
      var c := rows[id].data;
      var joined := if c.competitionId.Some? && c.competitionId.value in comps
                    then Some(comps[c.competitionId.value].data.name) else None;
      CriterionView(id, c.name, c.description, c.maxScore, c.weight, joined, rows[id].createdAt, rows[id].updatedAt)
  }

  function ListCriteria(t: Table<Criterion>, comps: Table<Competition>, fault: Option<string>): (l: Listing<CriterionView>)
    reads t, comps
    ensures l.ListFailed? <==> fault.Some?
    ensures l.ListFailed? ==> l.resp == ServerError("Failed to fetch criteria", fault.value)
    ensures l.Rows? ==> l.rows == CriterionViews(t.rows, comps.rows)
  {
    Fetch(Criteria, fault, CriterionViews(t.rows, comps.rows))
  }

  // ---------------------------------------------------------------- a listed row sent back

  /** The name a listing shows for the reference `fk` (the LEFT JOIN): the referenced
      row's name, or null when there is no reference or its row is gone. */
  function Shown<S>(t: Table<S>, fk: Option<nat>): Option<string>
    reads t
  {
    if fk.Some? && fk.value in t.rows then Some(t.nameOf(t.rows[fk.value].data)) else None
  }

  /** Whether the reference `fk` survives being listed by name and sent back: there is
      none, or its row has a non-empty name that no row with a smaller id carries. */
  ghost predicate KeepsLink<S>(t: Table<S>, fk: Option<nat>)
    reads t
  {
    || fk.None?
    || (&& fk.value in t.rows && t.nameOf(t.rows[fk.value].data) != ""
        && forall j :: Named(t.rows, t.nameOf, j, t.nameOf(t.rows[fk.value].data)) ==> fk.value <= j)
  }

  /** Resolving the shown name gives the reference back exactly when `KeepsLink` holds;
      otherwise a dangling reference or an empty name becomes null, and a name shared
      with an earlier row moves the reference to that row. */
  lemma RelinkRule<S>(t: Table<S>, fk: Option<nat>)
    requires t.Valid()
    ensures RefId(t, Shown(t, fk)) == fk <==> KeepsLink(t, fk)
    ensures fk.Some? && fk.value in t.rows && !KeepsLink(t, fk) && TextTruthy(Shown(t, fk)) ==>
      RefId(t, Shown(t, fk)).Some? && RefId(t, Shown(t, fk)).value < fk.value
  {
    if fk.Some? && fk.value in t.rows {
      var k, name := fk.value, t.nameOf(t.rows[fk.value].data);
      RefIdMeaning(t, Shown(t, fk));
      if name != "" {
        assert Named(t.rows, t.nameOf, k, name);
        var m := RefId(t, Shown(t, fk)).value;
        if !KeepsLink(t, fk) {
          var j :| Named(t.rows, t.nameOf, j, name) && j < k;
          assert m <= j;
        }
      }
    }
  }

  /** `PUT /api/competitions/:id` with a competition as listed: it passes the check and is
      stored unchanged except for its event type, which is kept exactly when it is null
      or names a row with a non-empty name (event type names are unique); an event type
      that was deleted is cleared. */
  lemma CompetitionResend(rows: map<nat, Row<Competition>>, types: Table<EventType>, id: nat)
    requires types.Valid() && EventTypeTable(types) && id in rows && CompetitionOk(rows[id].data)
    ensures var c := rows[id].data;
      var b := CompetitionBodyOf(c, CompetitionViews(rows, types.rows)[id].eventType);
      var fk := RefId(types, b.eventType);
      && CompetitionCheck(b) == Pass
      && CompetitionRecord(b, fk, c.status) == c.(eventTypeId := fk)
      && (CompetitionRecord(b, fk, c.status) == c <==>
          c.eventTypeId.None? || (c.eventTypeId.value in types.rows && types.rows[c.eventTypeId.value].data.name != ""))
  {
    var c := rows[id].data;
    var shown := CompetitionViews(rows, types.rows)[id].eventType;
    assert shown == Shown(types, c.eventTypeId);
    RelinkRule(types, c.eventTypeId);
    CompetitionRoundTrip(c, shown, RefId(types, shown));
    if c.eventTypeId.Some? && c.eventTypeId.value in types.rows {
      var k := c.eventTypeId.value;
      forall j | Named(types.rows, types.nameOf, j, types.rows[k].data.name)
        ensures k <= j
      {
        assert types.keyOf(types.rows[j].data) == types.keyOf(types.rows[k].data);
      }
    }
  }

  /** `PUT /api/participants/:id` with a participant as listed: it passes the check and is
      stored unchanged except for its competition, which is kept exactly when `KeepsLink`
      holds. A participant of a later one of two competitions with the same name is moved
      to the earlier one. */
  lemma ParticipantResend(rows: map<nat, Row<Participant>>, comps: Table<Competition>, id: nat)
    requires comps.Valid() && CompetitionTable(comps) && id in rows && ParticipantOk(rows[id].data)
    ensures var p := rows[id].data;
      var b := ParticipantBodyOf(p, ParticipantViews(rows, comps.rows)[id].category);
      var fk := RefId(comps, b.category);
      && ParticipantCheck(b) == Pass
      && ParticipantRecord(b, fk) == p.(competitionId := fk)
      && (ParticipantRecord(b, fk) == p <==> KeepsLink(comps, p.competitionId))
  {
    var p := rows[id].data;
    var shown := ParticipantViews(rows, comps.rows)[id].category;
    assert shown == Shown(comps, p.competitionId);
    RelinkRule(comps, p.competitionId);
    ParticipantRoundTrip(p, shown, RefId(comps, shown));
  }

  /** `PUT /api/criteria/:id` with a criterion as listed: one whose competition is null or
      gone is refused with "Competition is required"; otherwise it is stored unchanged
      except for its competition, which is kept exactly when `KeepsLink` holds. */
  lemma CriterionResend(rows: map<nat, Row<Criterion>>, comps: Table<Competition>, id: nat)
    requires comps.Valid() && CompetitionTable(comps) && id in rows && CriterionOk(rows[id].data)
    ensures var c := rows[id].data;
      var b := CriterionBodyOf(c, CriterionViews(rows, comps.rows)[id].competition);
      var fk := RefId(comps, b.competition);
      && (CriterionCheck(b) == Pass <==> TextTruthy(Shown(comps, c.competitionId)))
      && (CriterionCheck(b) != Pass ==> CriterionCheck(b) == Reject(CompetitionRequired))
      && (CriterionCheck(b) == Pass ==>
          && CriterionRecord(b, fk) == c.(competitionId := fk)
          && (CriterionRecord(b, fk) == c <==> KeepsLink(comps, c.competitionId)))
  {
    var c := rows[id].data;
    var shown := CriterionViews(rows, comps.rows)[id].competition;
    assert shown == Shown(comps, c.competitionId);
    RelinkRule(comps, c.competitionId);
    CriterionRoundTrip(c, shown, RefId(comps, shown));
  }
}
