/** What a route handler writes into the response: a status code and a JSON body. */
module Http {
  import opened Common
  import opened BackendTypes

  /** Why a request was refused; service failures carry the service's error. */
  datatype Refusal =
    | Service(failure: Failure)
    | MissingFields        // a required body field is absent or empty
    | PasswordTooShort     // fewer than six characters
    | NotOwner             // the event belongs to another user
    | TokenRequired        // no bearer token in the Authorization header
    | TokenInvalid         // the token does not verify

  datatype Body =
    | NoContent
    | ErrorJson(refusal: Refusal)
    | EventJson(event: Event)
    | EventsJson(events: seq<Event>)
    | TaskJson(task: EventTask)
    | TasksJson(tasks: seq<EventTask>)
    | UserJson(user: UserPublic)
    | SessionJson(user: UserPublic, token: string)
    | PasswordChangedJson

  datatype Response = Response(status: int, body: Body)

  /** The minimum password length enforced by the register and change-password routes. */
  const MinPasswordLength: nat := 6
}
