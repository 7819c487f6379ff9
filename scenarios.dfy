/** Whole requests against fresh tables, stated as a client would observe them. Each
    scenario builds its own tables, so it changes nothing outside itself. */
module Scenarios {
  import opened Js
  import opened Http
  import opened Store
  import opened Validate
  import opened Handlers

  const NoFaults := Faults(None, None)

  /** Text whose first character is not whitespace is never blank. */
  lemma Filled(s: string)
    requires s != [] && !IsSpace(s[0])
    ensures !Blank(Some(s))
  {
  }

  /** Adding a judge answers with the new id and the name as sent; a second judge with
      the same email is refused with the duplicate message and is not stored, but uses
      up id 2, so the next judge gets id 3. */
  method DuplicateJudgeEmail() returns (first: Response, second: Response, stored: nat, third: Response)
    ensures first == Created("Successfully added judge: " + "Ann Lee", 1)
    ensures second == BadRequest("Email address already exists")
    ensures stored == 1
    ensures third == Created("Successfully added judge: " + "Cy Ong", 3)
  {
    var judges := NewJudges();
    first := AddJudge(judges, "Ann Lee", "ann@x.com");
    second := AddSecondJudge(judges, "Bo Tan", "ann@x.com");
    stored := |judges.rows|;
    third := AddOtherJudge(judges, "Cy Ong", "cy@x.com");
  }

  method AddJudge(judges: Table<Judge>, name: string, email: string) returns (resp: Response)
    requires judges.Valid() && judges.rows == map[] && judges.nextId == 1 && JudgeTable(judges)
    requires name != [] && !IsSpace(name[0]) && email != [] && !IsSpace(email[0])
    modifies judges
    ensures judges.Valid() && JudgeTable(judges)
    ensures resp == Created("Successfully added judge: " + name, 1)
    ensures judges.rows.Keys == {1} && judges.rows[1].data.email == Trim(email) && judges.nextId == 2
  {
    var b := JudgeBody(Some(name), Some(email), None, None, None);
    Filled(name);
    Filled(email);
    assert JudgeCheck(b) == Pass;
    resp := CreateJudge(judges, b, 0, NoFaults);
  }

  method AddSecondJudge(judges: Table<Judge>, name: string, email: string) returns (resp: Response)
    requires judges.Valid() && JudgeTable(judges)
    requires 1 in judges.rows && judges.rows[1].data.email == Trim(email)
    requires name != [] && !IsSpace(name[0]) && email != [] && !IsSpace(email[0])
    modifies judges
    ensures judges.Valid() && JudgeTable(judges)
    ensures resp == BadRequest("Email address already exists")
    ensures judges.rows == old(judges.rows) && judges.nextId == old(judges.nextId) + 1
  {
    var b := JudgeBody(Some(name), Some(email), None, None, None);
    Filled(name);
    Filled(email);
    assert JudgeCheck(b) == Pass;
    assert KeyTaken(judges.rows, judges.keyOf, JudgeRecord(b), None);
    resp := CreateJudge(judges, b, 1, NoFaults);
  }

  method AddOtherJudge(judges: Table<Judge>, name: string, email: string) returns (resp: Response)
    requires judges.Valid() && JudgeTable(judges)
    requires judges.rows.Keys == {1} && judges.rows[1].data.email != email
    requires Clean(name) && Clean(email)
    modifies judges
    ensures resp == Created("Successfully added judge: " + name, old(judges.nextId))
  {
    TrimClean(name);
    TrimClean(email);
    var b := JudgeBody(Some(name), Some(email), None, None, None);
    assert JudgeCheck(b) == Pass;
    assert !KeyTaken(judges.rows, judges.keyOf, JudgeRecord(b), None);
    resp := CreateJudge(judges, b, 2, NoFaults);
  }

  /** In a table whose only row is 1, a name resolves to that row or to nothing. */
  lemma ResolveSingle<R>(t: Table<R>, name: string)
    requires t.Valid() && t.rows.Keys == {1}
    ensures t.Resolve(name) == (if t.nameOf(t.rows[1].data) == name then Some(1) else None)
  {
    assert 1 in t.rows;
    FirstNamedIsLeast(t.rows, t.nameOf, name, 1, t.nextId);
    if t.Resolve(name).Some? {
      assert Named(t.rows, t.nameOf, t.Resolve(name).value, name);
    }
  }

  /** A competition table holding one competition, named `name`, under id 1. */
  method OneCompetition(name: string) returns (comps: Table<Competition>)
    requires Clean(name)
    ensures fresh(comps) && comps.Valid() && CompetitionTable(comps)
    ensures comps.rows.Keys == {1} && comps.rows[1].data.name == name
  {
    comps := NewCompetitions();
    var types := NewEventTypes();
    TrimClean(name);
    var b := CompetitionBody(Some(name), Some(name), None, None);
    assert CompetitionCheck(b) == Pass;
    var resp := CreateCompetition(comps, types, b, 0, NoFaults);
  }

  /** A participant whose category names no competition is still added, with no
      competition; one whose category names a competition is linked to it. */
  method ParticipantCategories() returns (unknown: Option<nat>, known: Option<nat>)
    ensures unknown == None
    ensures known == Some(1)
  {
    var comps := OneCompetition("Robotics");
    var parts := NewParticipants();
    unknown := AddParticipant(parts, comps, "Robotics", "Lia Cruz", "Chess");
    known := AddParticipant(parts, comps, "Robotics", "Lia Cruz", "Robotics");
  }

  method AddParticipant(parts: Table<Participant>, comps: Table<Competition>, only: string, name: string, category: string)
    returns (competitionId: Option<nat>)
    requires parts.Valid() && ParticipantTable(parts) && comps.Valid() && CompetitionTable(comps)
    requires comps.rows.Keys == {1} && comps.rows[1].data.name == only
    requires Clean(name) && category != ""
    modifies parts
    ensures parts.Valid() && ParticipantTable(parts)
    ensures competitionId == (if category == only then Some(1) else None)
  {
    TrimClean(name);
    var b := ParticipantBody(Some(name), Some(name), Some(category), None, None, None, None);
    assert ParticipantCheck(b) == Pass;
    ResolveSingle(comps, category);
    var p := ParticipantRecord(b, comps.Resolve(category));
    assert !KeyTaken(parts.rows, parts.keyOf, p, None);
    var resp := CreateParticipant(parts, comps, b, 0, NoFaults);
    assert resp.Created?;
    competitionId := parts.rows[resp.id].data.competitionId;
  }

  /** Criteria without a competition name are refused and not stored; criteria whose
      competition name matches nothing are stored with no competition. */
  method CriteriaCompetitions() returns (missing: Response, stored: nat, unknown: Option<nat>)
    ensures missing == BadRequest("Competition is required")
    ensures stored == 0
    ensures unknown == None
  {
    var comps := OneCompetition("Robotics");
    var crit := NewCriteria();
    missing := AddCriterion(crit, comps, "Robotics", "Design", None);
    stored := |crit.rows|;
    var resp := AddCriterion(crit, comps, "Robotics", "Design", Some("Chess"));
    unknown := crit.rows[resp.id].data.competitionId;
  }

  method AddCriterion(crit: Table<Criterion>, comps: Table<Competition>, only: string, name: string,
                      competition: Option<string>) returns (resp: Response)
    requires crit.Valid() && CriterionTable(crit) && comps.Valid() && CompetitionTable(comps)
    requires comps.rows.Keys == {1} && comps.rows[1].data.name == only
    requires Clean(name)
    modifies crit
    ensures crit.Valid() && CriterionTable(crit)
    ensures !TextTruthy(competition) ==> resp == BadRequest(CompetitionRequired) && crit.rows == old(crit.rows)
    ensures TextTruthy(competition) ==> resp.Created? && resp.id in crit.rows
    ensures TextTruthy(competition) && competition.value != only ==> crit.rows[resp.id].data.competitionId == None
  {
    TrimClean(name);
    var b := CriterionBody(Some(name), None, None, None, competition);
    assert !Blank(b.name);
    if TextTruthy(competition) {
      ResolveSingle(comps, competition.value);
      assert CriterionCheck(b) == Pass;
      var c := CriterionRecord(b, comps.Resolve(competition.value));
      assert !KeyTaken(crit.rows, crit.keyOf, c, None);
    }
    resp := CreateCriterion(crit, comps, b, 0, NoFaults);
  }

  /** An update of an id that was never issued is a 404; a delete succeeds once and
      is a 404 the second time. */
  method EventTypeLifecycle() returns (update: Response, first: Response, second: Response)
    ensures update == NotFound("Event type not found")
    ensures first == Done("Event type deleted successfully")
    ensures second == NotFound("Event type not found")
  {
    var types := NewEventTypes();
    OneEventType(types, "Chess");
    update := RenameMissing(types, 7, "Go");
    first := Delete(EventTypes, types, 1, None);
    second := Delete(EventTypes, types, 1, None);
  }

  method OneEventType(types: Table<EventType>, name: string)
    requires types.Valid() && EventTypeTable(types) && types.rows == map[] && types.nextId == 1 && Clean(name)
    modifies types
    ensures types.Valid() && EventTypeTable(types) && types.rows.Keys == {1}
  {
    TrimClean(name);
    var b := EventTypeBody(Some(name), None, None);
    assert EventTypeCheck(b) == Pass;
    var resp := CreateEventType(types, b, 0, NoFaults);
    assert resp.Created?;
  }

  method RenameMissing(types: Table<EventType>, id: nat, name: string) returns (resp: Response)
    requires types.Valid() && EventTypeTable(types) && id !in types.rows && Clean(name)
    modifies types
    ensures types.Valid() && types.rows == old(types.rows)
    ensures resp == NotFound(NotFoundMsg(EventTypes))
  {
    TrimClean(name);
    var b := EventTypeBody(Some(name), None, None);
    assert EventTypeCheck(b) == Pass;
    resp := UpdateEventType(types, id, b, 0, NoFaults);
  }
}
