/** The request validator and normaliser of each resource: the 400 checks every POST and
    PUT runs before touching the store, and the values it then writes (trimmed strings,
    `null` for blank optional strings, `x || default` for defaulted fields).

    A reference given by name (event type, category, competition) is resolved by the
    handler between the check and the write, so each builder takes the resolved id. */
module Validate {
  import opened Js

  /** The outcome of a request check: go on, or answer 400 with `msg`. */
  datatype Verdict = Pass | Reject(msg: string)

  const NameRequired := "Name is required"
  const NameAndDescriptionRequired := "Name and description are required"
  const NameAndEmailRequired := "Name and email are required"
  const NameAndCourseRequired := "Name and course are required"
  const ScoreOutOfRangeMsg := "Max score must be between 1 and 100"
  const CompetitionRequired := "Competition is required"

  const DefaultMaxParticipants := 50
  const DefaultMaxScore := 100
  /** `weight || 1.00`, counted in hundredths. */
  const DefaultWeight := 100
  const DefaultStatus := "active"

  /** A text column that is absent or holds some text. */
  predicate NonEmptyOrNull(o: Option<string>) {
    o.None? || o.value != ""
  }

  // ---------------------------------------------------------------- event types

  datatype EventTypeBody = EventTypeBody(name: Option<string>, description: Option<string>, maxParticipants: Option<int>)

  datatype EventType = EventType(name: string, description: Option<string>, maxParticipants: int)

  predicate EventTypeOk(e: EventType) {
    Clean(e.name) && CleanOrNull(e.description) && e.maxParticipants != 0
  }

  function EventTypeCheck(b: EventTypeBody): (v: Verdict)
    ensures v != Pass ==> v == Reject(NameRequired)
  {
    if Blank(b.name) then Reject(NameRequired) else Pass
  }

  function EventTypeRecord(b: EventTypeBody): (e: EventType)
    requires EventTypeCheck(b) == Pass
    ensures EventTypeOk(e)
    ensures e.name == Trim(b.name.value) && e.description == TrimmedOrNull(b.description)
    ensures e.maxParticipants == (if NumTruthy(b.maxParticipants) then b.maxParticipants.value else DefaultMaxParticipants)
  {
    EventType(Trim(b.name.value), TrimmedOrNull(b.description), NumOr(b.maxParticipants, DefaultMaxParticipants))
  }

  /** The body a client sends when it submits a stored event type unchanged. */
  function EventTypeBodyOf(e: EventType): EventTypeBody {
    EventTypeBody(Some(e.name), e.description, Some(e.maxParticipants))
  }

  /** Normalisation is idempotent: resubmitting a stored event type passes the check
      and stores exactly the same fields. */
  lemma EventTypeRoundTrip(e: EventType)
    requires EventTypeOk(e)
    ensures EventTypeCheck(EventTypeBodyOf(e)) == Pass
    ensures EventTypeRecord(EventTypeBodyOf(e)) == e
  {
    TrimClean(e.name);
    if e.description.Some? { TrimClean(e.description.value); }
  }

  // ---------------------------------------------------------------- competitions

  datatype CompetitionBody = CompetitionBody(name: Option<string>, description: Option<string>,
                                             date: Option<string>, eventType: Option<string>)

  datatype Competition = Competition(name: string, description: string, date: Option<string>,
                                     eventTypeId: Option<nat>, status: string)

  predicate CompetitionOk(c: Competition) {
    Clean(c.name) && Clean(c.description) && NonEmptyOrNull(c.date) && c.status != ""
  }

  function CompetitionCheck(b: CompetitionBody): (v: Verdict)
    ensures v != Pass ==> v == Reject(NameAndDescriptionRequired)
  {
    if Blank(b.name) || Blank(b.description) then Reject(NameAndDescriptionRequired) else Pass
  }

  /** The fields an INSERT or UPDATE writes; `status` is the constant 'active' on
      insert and the row's own status on update, which does not set it. */
  function CompetitionRecord(b: CompetitionBody, eventTypeId: Option<nat>, status: string): (c: Competition)
    requires CompetitionCheck(b) == Pass
    ensures status != "" ==> CompetitionOk(c)
    ensures c.name == Trim(b.name.value) && c.description == Trim(b.description.value)
    ensures c.date == TextOrNull(b.date) && c.eventTypeId == eventTypeId && c.status == status
  {
    Competition(Trim(b.name.value), Trim(b.description.value), TextOrNull(b.date), eventTypeId, status)
  }

  function CompetitionBodyOf(c: Competition, eventType: Option<string>): CompetitionBody {
    CompetitionBody(Some(c.name), Some(c.description), c.date, eventType)
  }

  /** Resubmitting a stored competition passes the check and stores the same fields,
      except the event type, which is whatever the name sent back resolves to: the
      record is unchanged exactly when that is the stored id. */
  lemma CompetitionRoundTrip(c: Competition, eventType: Option<string>, fk: Option<nat>)
    requires CompetitionOk(c)
    ensures CompetitionCheck(CompetitionBodyOf(c, eventType)) == Pass
    ensures CompetitionRecord(CompetitionBodyOf(c, eventType), fk, c.status) == c.(eventTypeId := fk)
    ensures CompetitionRecord(CompetitionBodyOf(c, eventType), fk, c.status) == c <==> fk == c.eventTypeId
  {
    TrimClean(c.name);
    TrimClean(c.description);
  }

  // ---------------------------------------------------------------- judges

  datatype JudgeBody = JudgeBody(name: Option<string>, email: Option<string>, expertise: Option<string>,
                                 phone: Option<string>, status: Option<string>)

  datatype Judge = Judge(name: string, email: string, expertise: Option<string>, phone: Option<string>, status: string)

  predicate JudgeOk(j: Judge) {
    Clean(j.name) && Clean(j.email) && CleanOrNull(j.expertise) && CleanOrNull(j.phone) && j.status != ""
  }

  function JudgeCheck(b: JudgeBody): (v: Verdict)
    ensures v != Pass ==> v == Reject(NameAndEmailRequired)
  {
    if Blank(b.name) || Blank(b.email) then Reject(NameAndEmailRequired) else Pass
  }

  function JudgeRecord(b: JudgeBody): (j: Judge)
    requires JudgeCheck(b) == Pass
    ensures JudgeOk(j)
    ensures j.name == Trim(b.name.value) && j.email == Trim(b.email.value)
    ensures j.expertise == TrimmedOrNull(b.expertise) && j.phone == TrimmedOrNull(b.phone)
    ensures j.status == (if TextTruthy(b.status) then b.status.value else DefaultStatus)
  {
    Judge(Trim(b.name.value), Trim(b.email.value), TrimmedOrNull(b.expertise), TrimmedOrNull(b.phone),
          TextOr(b.status, DefaultStatus))
  }

  function JudgeBodyOf(j: Judge): JudgeBody {
    JudgeBody(Some(j.name), Some(j.email), j.expertise, j.phone, Some(j.status))
  }

  lemma JudgeRoundTrip(j: Judge)
    requires JudgeOk(j)
    ensures JudgeCheck(JudgeBodyOf(j)) == Pass
    ensures JudgeRecord(JudgeBodyOf(j)) == j
  {
    TrimClean(j.name);
    TrimClean(j.email);
    if j.expertise.Some? { TrimClean(j.expertise.value); }
    if j.phone.Some? { TrimClean(j.phone.value); }
  }

  // ---------------------------------------------------------------- participants

  /** `category` is the name of the competition the participant enters. */
  datatype ParticipantBody = ParticipantBody(name: Option<string>, course: Option<string>, category: Option<string>,
                                             contact: Option<string>, age: Option<int>, yearLevel: Option<string>,
                                             status: Option<string>)

  datatype Participant = Participant(name: string, course: string, competitionId: Option<nat>, contact: Option<string>,
                                     age: Option<int>, yearLevel: Option<string>, status: string)

  predicate ParticipantOk(p: Participant) {
    && Clean(p.name) && Clean(p.course) && CleanOrNull(p.contact) && CleanOrNull(p.yearLevel)
    && (p.age.None? || p.age.value != 0) && p.status != ""
  }

  function ParticipantCheck(b: ParticipantBody): (v: Verdict)
    ensures v != Pass ==> v == Reject(NameAndCourseRequired)
  {
    if Blank(b.name) || Blank(b.course) then Reject(NameAndCourseRequired) else Pass
  }

  function ParticipantRecord(b: ParticipantBody, competitionId: Option<nat>): (p: Participant)
    requires ParticipantCheck(b) == Pass
    ensures ParticipantOk(p)
    ensures p.name == Trim(b.name.value) && p.course == Trim(b.course.value) && p.competitionId == competitionId
    ensures p.contact == TrimmedOrNull(b.contact) && p.yearLevel == TrimmedOrNull(b.yearLevel)
    ensures p.age == (if NumTruthy(b.age) then b.age else None)
    ensures p.status == (if TextTruthy(b.status) then b.status.value else DefaultStatus)
  {
    Participant(Trim(b.name.value), Trim(b.course.value), competitionId, TrimmedOrNull(b.contact),
                NumOrNull(b.age), TrimmedOrNull(b.yearLevel), TextOr(b.status, DefaultStatus))
  }

  function ParticipantBodyOf(p: Participant, category: Option<string>): ParticipantBody {
    ParticipantBody(Some(p.name), Some(p.course), category, p.contact, p.age, p.yearLevel, Some(p.status))
  }

  /** Resubmitting a stored participant passes the check and stores the same fields,
      except the competition, which is whatever `category` resolves to: the record is
      unchanged exactly when that is the stored id. */
  lemma ParticipantRoundTrip(p: Participant, category: Option<string>, fk: Option<nat>)
    requires ParticipantOk(p)
    ensures ParticipantCheck(ParticipantBodyOf(p, category)) == Pass
    ensures ParticipantRecord(ParticipantBodyOf(p, category), fk) == p.(competitionId := fk)
    ensures ParticipantRecord(ParticipantBodyOf(p, category), fk) == p <==> fk == p.competitionId
  {
    TrimClean(p.name);
    TrimClean(p.course);
    if p.contact.Some? { TrimClean(p.contact.value); }
    if p.yearLevel.Some? { TrimClean(p.yearLevel.value); }
  }

  // ---------------------------------------------------------------- criteria

  /** `weight` is counted in hundredths. */
  datatype CriterionBody = CriterionBody(name: Option<string>, description: Option<string>, maxScore: Option<int>,
                                         weight: Option<int>, competition: Option<string>)

  datatype Criterion = Criterion(name: string, description: Option<string>, maxScore: int, weight: int,
                                 competitionId: Option<nat>)

  predicate CriterionOk(c: Criterion) {
    Clean(c.name) && CleanOrNull(c.description) && 1 <= c.maxScore <= 100 && c.weight != 0
  }

  /** `const score = max_score || 100`. */
  function Score(maxScore: Option<int>): int {
    NumOr(maxScore, DefaultMaxScore)
  }

  /** `score <= 0 || score > 100`. */
  predicate ScoreOutOfRange(score: int) {
    score <= 0 || score > 100
  }

  /** The three checks in the order the handlers run them: the name, the score, then
      the presence of a competition name. */
  function CriterionCheck(b: CriterionBody): (v: Verdict)
    ensures v != Pass ==> v.msg in {NameRequired, ScoreOutOfRangeMsg, CompetitionRequired}
  {
    if Blank(b.name) then Reject(NameRequired)
    else if ScoreOutOfRange(Score(b.maxScore)) then Reject(ScoreOutOfRangeMsg)
    else if !TextTruthy(b.competition) then Reject(CompetitionRequired)
    else Pass
  }

  function CriterionRecord(b: CriterionBody, competitionId: Option<nat>): (c: Criterion)
    requires CriterionCheck(b) == Pass
    ensures CriterionOk(c)
    ensures c.name == Trim(b.name.value) && c.description == TrimmedOrNull(b.description)
    ensures c.maxScore == Score(b.maxScore) && c.competitionId == competitionId
    ensures c.weight == (if NumTruthy(b.weight) then b.weight.value else DefaultWeight)
  {
    Criterion(Trim(b.name.value), TrimmedOrNull(b.description), Score(b.maxScore), NumOr(b.weight, DefaultWeight),
              competitionId)
  }

  function CriterionBodyOf(c: Criterion, competition: Option<string>): CriterionBody {
    CriterionBody(Some(c.name), c.description, Some(c.maxScore), Some(c.weight), competition)
  }

  /** Resubmitting a stored criterion is refused exactly when no competition name is
      sent; otherwise it stores the same fields, except the competition, which is
      whatever the name resolves to: the record is unchanged exactly when that is the
      stored id. */
  lemma CriterionRoundTrip(c: Criterion, competition: Option<string>, fk: Option<nat>)
    requires CriterionOk(c)
    ensures CriterionCheck(CriterionBodyOf(c, competition)) ==
            if TextTruthy(competition) then Pass else Reject(CompetitionRequired)
    ensures TextTruthy(competition) ==>
      && CriterionRecord(CriterionBodyOf(c, competition), fk) == c.(competitionId := fk)
      && (CriterionRecord(CriterionBodyOf(c, competition), fk) == c <==> fk == c.competitionId)
  {
    TrimClean(c.name);
    if c.description.Some? { TrimClean(c.description.value); }
  }

  /** The score rule as a client sees it: a request with a name is refused for its
      score exactly when it gives a non-zero `max_score` outside 1..100; an omitted or
      zero `max_score` is never refused and is stored as 100. */
  lemma ScoreRule(b: CriterionBody)
    requires !Blank(b.name)
    ensures CriterionCheck(b) == Reject(ScoreOutOfRangeMsg) <==>
            b.maxScore.Some? && b.maxScore.value != 0 && (b.maxScore.value < 1 || b.maxScore.value > 100)
    ensures b.maxScore.None? || b.maxScore == Some(0) ==> Score(b.maxScore) == 100 && CriterionCheck(b) != Reject(ScoreOutOfRangeMsg)
  {
  }

  /** Which check answers a criteria request: a blank name wins over everything, a bad
      score over a missing competition, and only a request that clears all three goes on
      to the store. */
  lemma CriterionCheckOrder(b: CriterionBody)
    ensures CriterionCheck(b) == Reject(NameRequired) <==> b.name.None? || AllSpace(b.name.value)
    ensures CriterionCheck(b) == Reject(ScoreOutOfRangeMsg) <==>
            !Blank(b.name) && NumTruthy(b.maxScore) && !(1 <= b.maxScore.value <= 100)
    ensures CriterionCheck(b) == Reject(CompetitionRequired) <==>
            !Blank(b.name) && 1 <= Score(b.maxScore) <= 100 && (b.competition.None? || b.competition.value == "")
    ensures CriterionCheck(b) == Pass <==>
            !Blank(b.name) && 1 <= Score(b.maxScore) <= 100 && TextTruthy(b.competition)
  {
    BlankMeansAllSpace(b.name);
  }

  /** The boundaries of the score check for a request that is otherwise acceptable:
      0 and omitted mean 100; 1 and 100 pass; 101 and -1 are refused. */
  lemma ScoreBoundaries(name: string, competition: string)
    requires !AllSpace(name) && competition != ""
    ensures var b := (s: Option<int>) => CriterionBody(Some(name), None, s, None, Some(competition));
      && CriterionCheck(b(Some(0))) == Pass && CriterionRecord(b(Some(0)), None).maxScore == 100
      && CriterionCheck(b(None)) == Pass && CriterionRecord(b(None), None).maxScore == 100
      && CriterionCheck(b(Some(1))) == Pass && CriterionRecord(b(Some(1)), None).maxScore == 1
      && CriterionCheck(b(Some(100))) == Pass && CriterionRecord(b(Some(100)), None).maxScore == 100
      && CriterionCheck(b(Some(101))) == Reject(ScoreOutOfRangeMsg)
      && CriterionCheck(b(Some(-1))) == Reject(ScoreOutOfRangeMsg)
  {
    BlankMeansAllSpace(Some(name));
  }

  /** Each required-field check refuses exactly when one of its fields is absent or
      whitespace only. */
  lemma RequiredFieldsRule(e: EventTypeBody, c: CompetitionBody, j: JudgeBody, p: ParticipantBody)
    ensures EventTypeCheck(e) == Pass <==> e.name.Some? && !AllSpace(e.name.value)
    ensures CompetitionCheck(c) == Pass <==>
            c.name.Some? && !AllSpace(c.name.value) && c.description.Some? && !AllSpace(c.description.value)
    ensures JudgeCheck(j) == Pass <==>
            j.name.Some? && !AllSpace(j.name.value) && j.email.Some? && !AllSpace(j.email.value)
    ensures ParticipantCheck(p) == Pass <==>
            p.name.Some? && !AllSpace(p.name.value) && p.course.Some? && !AllSpace(p.course.value)
  {
    BlankMeansAllSpace(e.name);
    BlankMeansAllSpace(c.name);
    BlankMeansAllSpace(c.description);
    BlankMeansAllSpace(j.name);
    BlankMeansAllSpace(j.email);
    BlankMeansAllSpace(p.name);
    BlankMeansAllSpace(p.course);
  }
}
