/** The outcome layer shared by every endpoint: which resource a request is about, the
    fixed English messages of each resource, the response a handler sends, and how the
    result of a store statement becomes that response (`handleError` and the
    `ER_DUP_ENTRY` / `affectedRows === 0` branches). */
module Http {
  import opened Js

  datatype Resource = EventTypes | Competitions | Judges | Participants | Criteria

  /** A response: its variant fixes the HTTP status, its fields the JSON body. */
  datatype Response =
    | Done(msg: string)                         // 200 {msg}
    | Created(msg: string, id: nat)             // 200 {msg, id}
    | BadRequest(msg: string)                   // 400 {msg}
    | NotFound(msg: string)                     // 404 {msg}
    | ServerError(msg: string, error: string)   // 500 {msg, error}
  {
    function Status(): (code: int)
      ensures code in {200, 400, 404, 500}
      ensures code == 200 <==> Done? || Created?
    {
      match this
      case Done(_) => 200
      case Created(_, _) => 200
      case BadRequest(_) => 400
      case NotFound(_) => 404
      case ServerError(_, _) => 500
    }
  }

  /** An error the store reports for a statement: a unique-key violation
      (`ER_DUP_ENTRY`) or any other failure, each with the store's message. */
  datatype StoreError = DupEntry(message: string) | Fault(message: string)

  /** The store's answer to one write statement: the new id for an INSERT, the number
      of affected rows for an UPDATE or DELETE, or an error. */
  type StoreResult = Result<nat, StoreError>

  /** The confirmation of a create, up to the name as the client sent it. */
  function CreatedPrefix(k: Resource): string {
    match k
    case EventTypes => "Successfully created event type: "
    case Competitions => "Successfully created competition: "
    case Judges => "Successfully added judge: "
    case Participants => "Successfully added participant: "
    case Criteria => "Successfully created criteria: "
  }

  function CreatedMsg(k: Resource, name: string): string {
    CreatedPrefix(k) + name
  }

  /** The confirmation of an update, up to the name as the client sent it. */
  function UpdatedPrefix(k: Resource): string {
    match k
    case EventTypes => "Successfully updated event type: "
    case Competitions => "Successfully updated competition: "
    case Judges => "Successfully updated judge: "
    case Participants => "Successfully updated participant: "
    case Criteria => "Successfully updated criteria: "
  }

  function UpdatedMsg(k: Resource, name: string): string {
    UpdatedPrefix(k) + name
  }

  function NotFoundMsg(k: Resource): string {
    match k
    case EventTypes => "Event type not found"
    case Competitions => "Competition not found"
    case Judges => "Judge not found"
    case Participants => "Participant not found"
    case Criteria => "Criteria not found"
  }

  function DeletedMsg(k: Resource): string {
    match k
    case EventTypes => "Event type deleted successfully"
    case Competitions => "Competition deleted successfully"
    case Judges => "Judge deleted successfully"
    case Participants => "Participant deleted successfully"
    case Criteria => "Criteria deleted successfully"
  }

  function CreateFailMsg(k: Resource): string {
    match k
    case EventTypes => "Failed to create event type"
    case Competitions => "Failed to create competition"
    case Judges => "Failed to add judge"
    case Participants => "Failed to add participant"
    case Criteria => "Failed to create criteria"
  }

  function UpdateFailMsg(k: Resource): string {
    match k
    case EventTypes => "Failed to update event type"
    case Competitions => "Failed to update competition"
    case Judges => "Failed to update judge"
    case Participants => "Failed to update participant"
    case Criteria => "Failed to update criteria"
  }

  function DeleteFailMsg(k: Resource): string {
    match k
    case EventTypes => "Failed to delete event type"
    case Competitions => "Failed to delete competition"
    case Judges => "Failed to delete judge"
    case Participants => "Failed to delete participant"
    case Criteria => "Failed to delete criteria"
  }

  function FetchFailMsg(k: Resource): string {
    match k
    case EventTypes => "Failed to fetch event types"
    case Competitions => "Failed to fetch competitions"
    case Judges => "Failed to fetch judges"
    case Participants => "Failed to fetch participants"
    case Criteria => "Failed to fetch criteria"
  }

  /** The message of a failed name lookup; only event types (for competitions) and
      competitions (for participants and criteria) are looked up by name. */
  function LookupFailMsg(target: Resource): string
    requires target == EventTypes || target == Competitions
  {
    if target == EventTypes then "Failed to find event type" else "Failed to find competition"
  }

  /** The resources whose create and update handlers recognise a duplicate entry, and
      the message they answer it with. */
  function DuplicateMsg(k: Resource): Option<string> {
    match k
    case EventTypes => Some("Event type name already exists")
    case Judges => Some("Email address already exists")
    case _ => None
  }

  /** `handleError(res, err, msg)`: status 500 with the handler's message and the
      store's own error text. */
  function HandleError(msg: string, err: StoreError): (resp: Response)
    ensures resp.Status() == 500
    ensures resp.msg == msg && resp.error == err.message
  {
    ServerError(msg, err.message)
  }

  /** The error branch of a create or update handler: a duplicate entry is a 400 only
      where the handler checks `err.code === 'ER_DUP_ENTRY'`; everything else goes to
      `handleError`. */
  function WriteErrorReply(k: Resource, failMsg: string, err: StoreError): (resp: Response)
    ensures resp.Status() == 400 <==> err.DupEntry? && (k == EventTypes || k == Judges)
    ensures resp.Status() == 400 ==> resp.msg == DuplicateMsg(k).value
    ensures resp.Status() != 400 ==> resp == ServerError(failMsg, err.message)
  {
    if err.DupEntry? && DuplicateMsg(k).Some? then BadRequest(DuplicateMsg(k).value)
    else HandleError(failMsg, err)
  }

  /** The reply to an INSERT: the new id with the confirmation message (which carries
      the name as the client sent it), or the error branch. */
  function CreateReply(k: Resource, name: string, r: StoreResult): (resp: Response)
    ensures resp.Status() == 200 <==> r.Success?
    ensures r.Success? ==> resp == Created(CreatedMsg(k, name), r.value)
    ensures r.Failure? ==> resp == WriteErrorReply(k, CreateFailMsg(k), r.error)
  {
    match r
    case Success(id) => Created(CreatedMsg(k, name), id)
    case Failure(e) => WriteErrorReply(k, CreateFailMsg(k), e)
  }

  /** The reply to an UPDATE: an error first, then `affectedRows === 0` as 404, then
      success. */
  function UpdateReply(k: Resource, name: string, r: StoreResult): (resp: Response)
    ensures resp.Status() == 200 <==> r.Success? && r.value != 0
    ensures resp.Status() == 404 <==> r == Success(0)
    ensures r == Success(0) ==> resp == NotFound(NotFoundMsg(k))
    ensures r.Success? && r.value != 0 ==> resp == Done(UpdatedMsg(k, name))
    ensures r.Failure? ==> resp == WriteErrorReply(k, UpdateFailMsg(k), r.error)
  {
    match r
    case Failure(e) => WriteErrorReply(k, UpdateFailMsg(k), e)
    case Success(n) => if n == 0 then NotFound(NotFoundMsg(k)) else Done(UpdatedMsg(k, name))
  }

  /** The reply to a DELETE: no handler singles out a duplicate here, so every error
      is a 500. */
  function DeleteReply(k: Resource, r: StoreResult): (resp: Response)
    ensures resp.Status() == 500 <==> r.Failure?
    ensures resp.Status() == 404 <==> r == Success(0)
    ensures resp.Status() == 200 <==> r.Success? && r.value != 0
    ensures r.Failure? ==> resp == ServerError(DeleteFailMsg(k), r.error.message)
    ensures r == Success(0) ==> resp == NotFound(NotFoundMsg(k))
    ensures r.Success? && r.value != 0 ==> resp == Done(DeletedMsg(k))
  {
    match r
    case Failure(e) => HandleError(DeleteFailMsg(k), e)
    case Success(n) => if n == 0 then NotFound(NotFoundMsg(k)) else Done(DeletedMsg(k))
  }

  /** The answer of a list endpoint: every row, or the 500 of a failed query. */
  datatype Listing<T> = Rows(rows: map<nat, T>) | ListFailed(resp: Response)

  function Fetch<T>(k: Resource, fault: Option<string>, rows: map<nat, T>): (l: Listing<T>)
    ensures l.ListFailed? <==> fault.Some?
    ensures l.ListFailed? ==> l.resp == ServerError(FetchFailMsg(k), fault.value)
    ensures l.Rows? ==> l.rows == rows
  {
    if fault.Some? then ListFailed(HandleError(FetchFailMsg(k), Fault(fault.value))) else Rows(rows)
  }
}
