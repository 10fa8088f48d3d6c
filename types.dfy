/** The values the poll server passes around: the poll document as the store
    keeps it, the errors its operations raise, and whether a call to the
    store succeeds. */
module PollTypes {

  datatype Option<+T> = None | Some(value: T)

  datatype Result<+T> = Ok(value: T) | Err(error: Error)

  /** What the server's operations throw. */
  datatype Error =
    | InternalServerError          // InternalServerErrorException, raised when creating a poll fails
    | BadRequest(message: string)  // BadRequestException with its message
    | StoreFailure(reason: string) // a rejected Redis command, re-raised unchanged
    | MissingDocument              // the error reply to a sub-path write on a key that does not exist
    | NullPoll                     // TypeError: a field read on the null that a missing key decodes to

  /** Whether one Redis command succeeds; the reason is what the client rejects with. */
  datatype Link = Up | Down(reason: string)

  datatype Nomination = Nomination(userID: string, text: string)

  /** The poll document. Fields that the initial document does not carry are
      optional: `None` is an absent JSON field. */
  datatype Poll = Poll(
    id: string,
    topic: string,
    votesPerVoter: int,
    participants: map<string, string>,
    nominations: Option<map<string, Nomination>>,
    adminID: string,
    hasStarted: Option<bool>,
    rankings: Option<map<string, seq<string>>>)

  /** JavaScript truthiness of an optional boolean field: an absent field is
      falsy, a present one is its value. */
  predicate Truthy(b: Option<bool>): (t: bool)
    ensures b.None? ==> !t
    ensures b.Some? ==> (t <==> b.value)
  {
    b == Some(true)
  }

  /** An absent object field read as the empty object. */
  function OrEmpty<K, V>(m: Option<map<K, V>>): map<K, V> {
    match m
    case Some(v) => v
    case None => map[]
  }
}
