/** The polls service: lifecycle guards over the repository and the claims of
    the access token it hands out. Ids come in as parameters (they are freshly
    generated in the server), and signing a token is modelled by the claims it
    signs. */
module Service {
  import opened PollTypes
  import opened Repository

  datatype CreatePollFields = CreatePollFields(topic: string, votesPerVoter: int, name: string)

  datatype JoinPollFields = JoinPollFields(pollID: string, name: string)

  datatype AddNominationFields = AddNominationFields(pollID: string, userID: string, text: string)

  datatype SubmitRankingsFields = SubmitRankingsFields(pollID: string, userID: string, rankings: seq<string>)

  /** What jwtService.sign is given: the payload {pollID, name} and the subject. */
  datatype TokenClaims = TokenClaims(pollID: string, name: string, subject: string)

  /** The `{poll, accessToken}` that creating or joining a poll returns. */
  datatype Session = Session(poll: Poll, accessToken: TokenClaims)

  const NotStartedMessage: string := "Participants con not rank until the poll has started"

  /** A read-back seen through a `Promise<Poll | void>`. */
  function Snapshot(r: Result<Poll>): (s: Result<Option<Poll>>)
    ensures s.Ok? <==> r.Ok?
    ensures r.Ok? ==> s.value == Some(r.value)
    ensures r.Err? ==> s.error == r.error
  {
    match r
    case Ok(p) => Ok(Some(p))
    case Err(e) => Err(e)
  }

  class PollsService {
    const repo: PollsRepository

    ghost predicate Valid()
      reads this, repo
    {
      repo.Valid()
    }

    constructor (repo: PollsRepository)
      requires repo.Valid()
      ensures this.repo == repo && Valid()
    {
      this.repo := repo;
    }

    /** Creates the poll with the creator as admin, and signs a token whose
        subject is the creator and whose pollID is the created poll's id. */
    method CreatePoll(fields: CreatePollFields, pollID: string, userID: string, link: Link)
      returns (r: Result<Session>)
      requires Valid()
      modifies repo
      ensures Valid()
      ensures r.Ok? <==> link.Up?
      ensures link.Down? ==> r == Err(InternalServerError) && repo.store == old(repo.store)
      ensures r.Ok? ==> r.value.poll == InitialPoll(CreatePollData(fields.votesPerVoter, fields.topic, pollID, userID))
      ensures r.Ok? ==> repo.store == old(repo.store)[Key(pollID) := Entry(r.value.poll, repo.ttl)]
      ensures r.Ok? ==> r.value.poll.adminID == userID && r.value.poll.id == pollID
      ensures r.Ok? ==> r.value.accessToken == TokenClaims(pollID, fields.name, userID)
    {
      var created := repo.CreatePoll(CreatePollData(fields.votesPerVoter, fields.topic, pollID, userID), link);
      match created
      case Err(e) => r := Err(e);
      case Ok(createdPoll) =>
        r := Ok(Session(createdPoll, TokenClaims(createdPoll.id, fields.name, userID)));
    }

    /** Joining only reads the store: the joiner gets a token for a new user id
        and the fetched poll, and is not added to its participants. */
    method JoinPoll(fields: JoinPollFields, userID: string, link: Link) returns (r: Result<Session>)
      requires Valid()
      ensures link.Down? ==> r == Err(StoreFailure(link.reason))
      ensures link.Up? && Key(fields.pollID) !in repo.store ==> r == Err(NullPoll)
      ensures r.Ok? <==> link.Up? && Key(fields.pollID) in repo.store
      ensures r.Ok? ==> r.value.poll == repo.store[Key(fields.pollID)].doc
      ensures r.Ok? ==> r.value.accessToken == TokenClaims(fields.pollID, fields.name, userID)
    {
      var joined := repo.GetPoll(fields.pollID, link);
      match joined
      case Err(e) => r := Err(e);
      case Ok(None) => r := Err(NullPoll);
      case Ok(Some(joinedPoll)) =>
        LookUpCarriesId(repo.store, fields.pollID, link);
        r := Ok(Session(joinedPoll, TokenClaims(joinedPoll.id, fields.name, userID)));
    }

    /** Exactly the repository's participant write, result included. */
    method RejoinPoll(fields: ParticipantData, write: Link, read: Link) returns (r: Result<Poll>)
      requires Valid()
      modifies repo
      ensures Valid()
      ensures repo.store == PathWrite(old(repo.store), fields.pollID, SetParticipant(fields.userID, fields.name), write)
      ensures r == ReadBack(old(repo.store), fields.pollID, SetParticipant(fields.userID, fields.name), write, read)
    {
      r := repo.AddParticipant(fields, write, read);
    }

    /** Exactly the repository's participant write, result included. */
    method AddParticipant(data: ParticipantData, write: Link, read: Link) returns (r: Result<Poll>)
      requires Valid()
      modifies repo
      ensures Valid()
      ensures repo.store == PathWrite(old(repo.store), data.pollID, SetParticipant(data.userID, data.name), write)
      ensures r == ReadBack(old(repo.store), data.pollID, SetParticipant(data.userID, data.name), write, read)
    {
      r := repo.AddParticipant(data, write, read);
    }

    /** Removal is refused (nothing changes, nothing is returned) once the poll
        has started; on an unstarted poll it returns the post-removal snapshot. */
    method RemoveParticipant(pollID: string, userID: string, read: Link, write: Link, readBack: Link)
      returns (r: Result<Option<Poll>>)
      requires Valid()
      modifies repo
      ensures Valid()
      ensures read.Down? ==> r == Err(StoreFailure(read.reason)) && repo.store == old(repo.store)
      ensures read.Up? && Key(pollID) !in old(repo.store) ==> r == Err(NullPoll) && repo.store == old(repo.store)
      ensures read.Up? && Key(pollID) in old(repo.store) && Truthy(old(repo.store)[Key(pollID)].doc.hasStarted) ==>
                r == Ok(None) && repo.store == old(repo.store)
      ensures read.Up? && Key(pollID) in old(repo.store) && !Truthy(old(repo.store)[Key(pollID)].doc.hasStarted) ==>
                && repo.store == PathWrite(old(repo.store), pollID, DeleteParticipant(userID), write)
                && r == Snapshot(ReadBack(old(repo.store), pollID, DeleteParticipant(userID), write, readBack))
    {
      var found := repo.GetPoll(pollID, read);
      match found
      case Err(e) => r := Err(e);
      case Ok(None) => r := Err(NullPoll);
      case Ok(Some(poll)) =>
        if !Truthy(poll.hasStarted) {
          var updatedPoll := repo.RemoveParticipant(pollID, userID, write, readBack);
          r := Snapshot(updatedPoll);
        } else {
          r := Ok(None);
        }
    }

    method GetPoll(pollID: string, link: Link) returns (r: Result<Option<Poll>>)
      ensures r == LookUp(repo.store, pollID, link)
    {
      r := repo.GetPoll(pollID, link);
    }

    /** Stores the nomination {userID, text} under the fresh nomination id. */
    method AddNomination(fields: AddNominationFields, nominationID: string, write: Link, read: Link)
      returns (r: Result<Poll>)
      requires Valid()
      modifies repo
      ensures Valid()
      ensures repo.store == PathWrite(old(repo.store), fields.pollID,
                                      SetNomination(nominationID, Nomination(fields.userID, fields.text)), write)
      ensures r == ReadBack(old(repo.store), fields.pollID,
                            SetNomination(nominationID, Nomination(fields.userID, fields.text)), write, read)
    {
      r := repo.AddNomination(fields.pollID, nominationID, Nomination(fields.userID, fields.text), write, read);
    }

    method RemoveNomination(pollID: string, nominationID: string, write: Link, read: Link) returns (r: Result<Poll>)
      requires Valid()
      modifies repo
      ensures Valid()
      ensures repo.store == PathWrite(old(repo.store), pollID, DeleteNomination(nominationID), write)
      ensures r == ReadBack(old(repo.store), pollID, DeleteNomination(nominationID), write, read)
    {
      r := repo.RemoveNomination(pollID, nominationID, write, read);
    }

    method StartPoll(pollID: string, write: Link, read: Link) returns (r: Result<Poll>)
      requires Valid()
      modifies repo
      ensures Valid()
      ensures repo.store == PathWrite(old(repo.store), pollID, Start, write)
      ensures r == ReadBack(old(repo.store), pollID, Start, write, read)
    {
      r := repo.StartPoll(pollID, write, read);
    }

    /** Refuses with BadRequest, changing nothing, only when no poll is
        fetched; whether the poll has started is not looked at. */
    method SubmitRankings(data: SubmitRankingsFields, read: Link, write: Link, readBack: Link)
      returns (r: Result<Poll>)
      requires Valid()
      modifies repo
      ensures Valid()
      ensures read.Down? ==> r == Err(StoreFailure(read.reason)) && repo.store == old(repo.store)
      ensures read.Up? && Key(data.pollID) !in old(repo.store) ==>
                r == Err(BadRequest(NotStartedMessage)) && repo.store == old(repo.store)
      ensures read.Up? && Key(data.pollID) in old(repo.store) ==>
                && repo.store == PathWrite(old(repo.store), data.pollID, SetRankings(data.userID, data.rankings), write)
                && r == ReadBack(old(repo.store), data.pollID, SetRankings(data.userID, data.rankings), write, readBack)
    {
      var hasPollStarted := repo.GetPoll(data.pollID, read);
      match hasPollStarted
      case Err(e) => r := Err(e);
      case Ok(None) => r := Err(BadRequest(NotStartedMessage));
      case Ok(Some(_)) =>
        r := repo.AddParticipantRankings(data.pollID, data.userID, data.rankings, write, readBack);
    }

    /** Deletes the poll; a later lookup finds nothing. */
    method CancelPoll(pollID: string, link: Link) returns (r: Result<()>)
      requires Valid()
      modifies repo
      ensures Valid()
      ensures link.Up? ==> r == Ok(()) && repo.store == old(repo.store) - {Key(pollID)}
      ensures link.Up? ==> LookUp(repo.store, pollID, Up) == Ok(None)
      ensures link.Down? ==> r == Err(StoreFailure(link.reason)) && repo.store == old(repo.store)
    {
      r := repo.DeletePoll(pollID, link);
    }
  }
}
