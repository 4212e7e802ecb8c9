/** Shared vocabulary of the event-planning backend and client: identifiers,
    timestamps, optional values, results, and JavaScript truthiness. */
module Common {

  /** Opaque identifiers (uuid v4 strings in the system). */
  type Id = string

  /** Instants as milliseconds since the epoch; ISO-8601 text is not modelled. */
  type Timestamp = int

  const MsPerDay: int := 86_400_000

  datatype Option<+T> = None | Some(value: T) {
    function GetOr(default: T): T {
      match this
      case Some(v) => v
      case None => default
    }
  }

  /** The errors the services throw, by the condition that raises them. */
  datatype Failure =
    | EventNotFound      // getEventById on a missing id
    | TaskNotFound       // getTaskById on a missing id
    | UserNotFound       // getUserById on a missing id
    | EmailTaken         // duplicate email on createUser / updateUser
    | BadCredentials     // authenticateUser: unknown email or wrong password, one message
    | WrongPassword      // changePassword: current password does not match
    | StorageRejected    // the database refused an INSERT

  datatype Result<+T> = Ok(value: T) | Err(failure: Failure)

  /** A string field of a request body or patch is applied only when it is truthy:
      present and not the empty string. */
  predicate Truthy(s: Option<string>) {
    s.Some? && s.value != ""
  }

  /** `addDays(t, n)` of date-fns, as whole-day arithmetic on the instant. */
  function AddDays(t: Timestamp, n: int): (r: Timestamp)
    ensures n <= 0 ==> r <= t
    ensures n >= 0 ==> r >= t
  {
    t + n * MsPerDay
  }

  /** Division truncating toward zero, as JavaScript's `Math.trunc(a / b)`;
      Dafny's own `/` is Euclidean. */
  function TruncDiv(a: int, b: int): (q: int)
    requires b > 0
    ensures a >= 0 ==> q >= 0 && q * b <= a < (q + 1) * b
    ensures a < 0 ==> q <= 0 && (q - 1) * b < a <= q * b
  {
    if a >= 0 then
      EuclideanBounds(a, b);
      a / b
    else
      EuclideanBounds(-a, b);
      assert (-((-a) / b)) * b == -(((-a) / b) * b);
      assert (-((-a) / b) - 1) * b == -(((-a) / b + 1) * b);
      -((-a) / b)
  }

  /** For a non-negative dividend, Euclidean and truncating division agree. */
  lemma EuclideanBounds(a: int, b: int)
    requires a >= 0 && b > 0
    ensures a / b >= 0 && (a / b) * b <= a < (a / b + 1) * b
  {
    assert a == (a / b) * b + a % b;
    assert (a / b + 1) * b == (a / b) * b + b;
  }
}
