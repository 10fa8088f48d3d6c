# Poll session logic, modelled in Dafny

This project models the poll-session logic of a real-time ranked-voting web
app. Participants create a poll, join it, nominate options and submit ranked
ballots. There are four pieces:

- **The poll store** (`Repository`, repository.dfy). The server keeps every
  poll as a RedisJSON document under the key `"polls:" + pollID`, with a TTL on
  the key. Here that table is a `map` from key to `Entry(doc, ttl)`, held by the
  class `PollsRepository`. Its methods change the map in place.
  - `CreatePoll` writes the whole initial document and its TTL in one step.
  - `AddParticipant` writes one sub-path (`.participants.<userID>`) and then
    reads the whole document back.
  - `GetPoll` only reads. A missing key reads as JSON `null` (`Ok(None)`).
- **The polls service** (`Service`, service.dfy). The class `PollsService`
  holds the repository. It adds the lifecycle guards and hands out token claims:
  - participant removal is refused once the poll has started;
  - ranking submission is refused only when no poll is returned;
  - creation makes the creator the admin;
  - joining only reads the store.
- **The admin guard** (`AdminGuard`, guard.dfy). `CanActivate` is a pure
  decision over the socket handshake, the token verifier and one store lookup.
  It returns `Allowed` or the exact `WsUnauthorizedException` message.
- **The ballot builder** (`Voting`, voting.dfy). These are the voting page's
  `toggleNomination` and `getRank`, and its "votes remaining" and "submit
  enabled" expressions. `Toggle` is pure. The class `VotingPage` holds the
  `rankings` state that `toggleNomination` replaces.

Every Redis command takes a `Link` argument: `Up`, or `Down(reason)` for a
rejected command. This is how the model represents I/O failure. A participant
write takes two links, one for the write and one for the read-back. So "the
write landed but the read-back failed" is a reachable state: the store has
changed and the error is re-raised. The random ids from nanoid are method
parameters. `jwtService.sign` is represented by the claims it would sign
(`TokenClaims`). `jwtService.verify` is a function parameter of the guard
(`None` means verification throws).

The repository methods that the service calls but whose code is not here
(`removeParticipant`, `addNomination`, `removeNomination`, `startPoll`,
`addParticipantRankings`) are modelled on the pattern that
`addParticipant` shows:
- a write to one sub-path of an existing key, then a read-back;
- the TTL is never touched;
- a sub-path write on a missing key fails with `MissingDocument`;
- an absent container (`nominations`, `rankings`) is created by the write.

`deletePoll`, whose code is not here either, is modelled as a whole-key
delete instead: one command, no read-back, and success whether or not the
key exists.

Properties of the service are proved only about its own guards and delegation.

The code and the design disagree in several places. The model follows the code:

- The design says "submit-ranking" is allowed only after the poll has started.
  `submitRankings` tests only that a poll was fetched, whatever its error
  message says. `Service.PollsService.SubmitRankings` states that `hasStarted`
  plays no part.
- The design says the admin is always a participant. `createPoll` stores
  `participants: {}`, so the admin is not a participant yet
  (`Repository.InitialPollShape`).
- The design says every store failure becomes a generic error. Only
  `createPoll` wraps its failure (`InternalServerError`). `getPoll` and
  `addParticipant` re-raise the client's rejection unchanged (`StoreFailure`).
- The design puts conditions on the lifecycle that the service does not check:
  - `startPoll` has no minimum number of nominations;
  - `addNomination` and `removeNomination` check neither `hasStarted` nor who
    the author or the admin is;
  - `removeParticipant` does not look at who asks, and after the start it
    refuses every removal, the admin's included.
- `createPoll` neither rejects nor retries a poll id that is already taken,
  and it does not read the document back. Writing an existing id replaces
  the whole document, so a started poll becomes unstarted again
  (`Repository.RecreateResetsStart`). `deletePoll` removes the poll entirely.

## Model

| member | source | states |
|---|---|---|
| Repository.Key | server/src/polls/polls.repository.ts:48 | the key of a poll is "polls:" followed by the poll id |
| Repository.KeyInjective | server/src/polls/polls.repository.ts:69 | two poll ids share a key only when they are equal |
| Repository.LookUp | server/src/polls/polls.repository.ts:71-90 | the read gives the stored document, null when the key is missing, or the client's rejection re-raised unchanged |
| Repository.LookUpCarriesId | server/src/polls/polls.repository.ts:66-86 | in a well-keyed store, the document read for pollID has id pollID |
| Repository.InitialPoll | server/src/polls/polls.repository.ts:34-40 | the document createPoll writes carries the creator's topic and votesPerVoter, and no nominations, hasStarted or rankings field |
| Repository.PollsRepository.constructor | server/src/polls/polls.repository.ts:20-25 | a new repository has the configured TTL (POLL_DURATION) and an empty, well-keyed store |
| Repository.InitialPollShape | server/src/polls/polls.repository.ts:34-40 | the initial document has the given id, adminID = userID, no participants (the admin is not one), no nominations, not started |
| Repository.PollsRepository.CreatePoll | server/src/polls/polls.repository.ts:27-64 | on success it returns exactly the initial document and stores it, with TTL = the configured ttl, under "polls:"+pollID, in one step; on failure it raises InternalServerError and the store is unchanged |
| Repository.PollsRepository.GetPoll | server/src/polls/polls.repository.ts:66-91 | it returns LookUp of the store and, having no modifies clause, changes nothing |
| Repository.PollsRepository.AddParticipant | server/src/polls/polls.repository.ts:93-133 | the store becomes the path-scoped write of participants[userID] = name; the result is the read-back after the write, or the rejection re-raised |
| Repository.PathWrite | server/src/polls/polls.repository.ts:103-111 | a sub-path write keeps the key set and every key's TTL, leaves every other key unchanged, and changes nothing when the command fails or the key is missing |
| Repository.ReadBack | server/src/polls/polls.repository.ts:113-132 | the result is Ok exactly when the write and the read succeed on an existing key, and is then the document as stored after the write |
| Repository.AddParticipantFrame | server/src/polls/polls.repository.ts:103-111 | the write sets participants[userID] = name and changes no other participant, no other field and not the TTL |
| Repository.AddParticipantReadBack | server/src/polls/polls.repository.ts:113-126 | a successful read-back contains userID ↦ name |
| Repository.AddParticipantIdempotent | server/src/polls/polls.repository.ts:106-111 | adding the same (userID, name) twice equals adding it once |
| Repository.AddParticipantOverwrites | server/src/polls/polls.repository.ts:106-111 | re-adding a userID under a second name equals writing only the second name |
| Repository.PathWriteKeepsWellKeyed | server/src/polls/polls.repository.ts:103 | sub-path writes keep every document under the key of its own id |
| Repository.ApplyKeepsIdentity | server/src/polls/polls.repository.ts:103-111 | no sub-path write changes id, topic, votesPerVoter or adminID |
| Repository.StartedStaysStarted | server/src/polls/polls.service.ts:137-139 | once hasStarted is true, no sub-path write makes it false |
| Repository.RecreateResetsStart | server/src/polls/polls.repository.ts:48-56 | creating a poll under an id whose poll has started replaces it with an unstarted document |
| Repository.Apply | server/src/polls/polls.repository.ts:103-111 | a sub-path write gives the addressed entry the written value (or removes it), sets hasStarted for a start, creates an absent container, and leaves every other container unchanged |
| Repository.PollsRepository.WriteAt | server/src/polls/polls.repository.ts:105-126 | the store becomes the path-scoped write of the edit, and the result is the read-back after it or the rejection re-raised |
| Repository.PollsRepository.RemoveParticipant | server/src/polls/polls.service.ts:105-110 | deletes participants[userID] by a path-scoped write and returns the read-back; the server's implementation is not available, so the body follows addParticipant's pattern |
| Repository.PollsRepository.AddNomination | server/src/polls/polls.service.ts:124-130 | sets nominations[nominationID] by a path-scoped write and returns the read-back; the server's implementation is not available, so the body follows addParticipant's pattern |
| Repository.PollsRepository.RemoveNomination | server/src/polls/polls.service.ts:133-135 | deletes nominations[nominationID] by a path-scoped write and returns the read-back; the server's implementation is not available, so the body follows addParticipant's pattern |
| Repository.PollsRepository.StartPoll | server/src/polls/polls.service.ts:137-139 | sets hasStarted = true by a path-scoped write and returns the read-back; the server's implementation is not available, so the body follows addParticipant's pattern |
| Repository.PollsRepository.AddParticipantRankings | server/src/polls/polls.service.ts:151 | sets rankings[userID] by a path-scoped write and returns the read-back; the server's implementation is not available, so the body follows addParticipant's pattern |
| Repository.PollsRepository.DeletePoll | server/src/polls/polls.service.ts:166-168 | removes the poll's key in one command, after which the poll is not found, and succeeds whether or not the key existed; a rejected command changes nothing; the server's implementation is not available, so it is modelled as a whole-key delete with no read-back |
| PollTypes.Truthy | server/src/polls/polls.service.ts:105 | an absent hasStarted is falsy and a present one is its value |
| Service.Snapshot | server/src/polls/polls.service.ts:99-112 | a read-back seen as Poll or void keeps its value or its error |
| Service.PollsService.constructor | server/src/polls/polls.service.ts:22-25 | the service holds the given repository and is ready for every method that needs a valid store |
| Service.PollsService.CreatePoll | server/src/polls/polls.service.ts:27-55 | the stored poll's adminID is the generated userID; the token claims have subject = userID and pollID = the created poll's id; a store failure is InternalServerError and nothing is stored |
| Service.PollsService.JoinPoll | server/src/polls/polls.service.ts:57-84 | the store is only read (no modifies clause), so the joiner is not added to participants; the result is the stored poll with token claims (pollID, name, fresh userID); a missing poll is a null-access error and a rejected read is re-raised |
| Service.PollsService.RejoinPoll | server/src/polls/polls.service.ts:86-93 | exactly the effect and result of the repository's participant write |
| Service.PollsService.AddParticipant | server/src/polls/polls.service.ts:95-97 | exactly the effect and result of the repository's participant write |
| Service.PollsService.RemoveParticipant | server/src/polls/polls.service.ts:99-112 | on a started poll the store is unchanged and nothing is returned; on an unstarted poll it returns the post-removal snapshot; a missing poll is a null-access error with no change |
| Service.PollsService.GetPoll | server/src/polls/polls.service.ts:114-116 | passes the store's read through unchanged |
| Service.PollsService.AddNomination | server/src/polls/polls.service.ts:118-131 | stores the nomination {userID, text} with the caller's values under the fresh nomination id |
| Service.PollsService.RemoveNomination | server/src/polls/polls.service.ts:133-135 | delegates the nomination delete unchanged |
| Service.PollsService.StartPoll | server/src/polls/polls.service.ts:137-139 | delegates the start write unchanged |
| Service.PollsService.SubmitRankings | server/src/polls/polls.service.ts:141-152 | when no poll is fetched it raises BadRequest with the source's message and changes nothing; otherwise it writes the ranking whatever hasStarted is |
| Service.PollsService.CancelPoll | server/src/polls/polls.service.ts:166-168 | deletes the poll; a later lookup finds nothing |
| AdminGuard.Present | server/src/polls/gateway-admin.guard.ts:33-35 | a token is truthy exactly when it is present and not the empty string |
| AdminGuard.Token | server/src/polls/gateway-admin.guard.ts:32-33 | the token is handshake.auth.token when it is a non-empty string, otherwise handshake.headers['token'] |
| AdminGuard.CanActivate | server/src/polls/gateway-admin.guard.ts:27-63 | allows exactly when a token is present, it verifies, and its sub equals the poll's adminID; no token gives 'No token provided'; every other refusal gives 'Admin privileges required' |
| AdminGuard.NoTokenConsultsNothing | server/src/polls/gateway-admin.guard.ts:35-38 | without a token the verdict depends on neither the verifier nor the store |
| AdminGuard.NonAdminRefused | server/src/polls/gateway-admin.guard.ts:55-57 | a verified subject that is not the admin is refused with 'Admin privileges required' |
| AdminGuard.LookupFailuresRefused | server/src/polls/gateway-admin.guard.ts:60-62 | a failed verification, a rejected lookup or a missing poll is refused with the same message |
| Voting.FindIndex | client/src/pages/Voting.tsx:14 | the first index holding the id, or -1 exactly when the id is absent |
| Voting.Resolve | client/src/pages/Voting.tsx:21-22 | a slice index resolves into 0..length: in range it is kept, a negative one counts back from the end, and past either end it is clamped |
| Voting.Slice | client/src/pages/Voting.tsx:21-22 | slice with in-range bounds is the subsequence; a negative end counts back from the length |
| Voting.Toggle | client/src/pages/Voting.tsx:13-25 | an absent id with votes remaining is appended at the end; a present id's first entry is removed and the rest keep their order; an absent id with no votes left gives rankings[0..len-1] ++ rankings |
| Voting.VotingPage.constructor | client/src/pages/Voting.tsx:9 | the page starts with no ranked nominations and the poll's votesPerVoter |
| Voting.VotingPage.ToggleNomination | client/src/pages/Voting.tsx:13-25 | the rankings state becomes Toggle of the old rankings, with bound votesPerVoter or 0 |
| Voting.ToggleRoundTrip | client/src/pages/Voting.tsx:17-23 | toggling an absent id while votes remain, then toggling it again, restores the list |
| Voting.ToggleKeepsValidBallot | client/src/pages/Voting.tsx:15-23 | through the append and remove branches the list stays duplicate-free and no longer than votesPerVoter |
| Voting.ToggleRemovesOneCopy | client/src/pages/Voting.tsx:19-23 | toggling a present id removes exactly one copy of it and keeps every other entry |
| Voting.ToggleOnFullBallotOverflows | client/src/pages/Voting.tsx:14-24 | toggling an absent id on a full ballot of two or more entries gives 2·len−1 entries with a duplicate |
| Voting.ToggleOverflowExample | client/src/pages/Voting.tsx:14-24 | with votesPerVoter 2 and ["A","B"], toggling "C" gives ["A","A","B"] |
| Voting.ToggleIntended | client/src/pages/Voting.tsx:17-24 | the corrected toggle ignores an absent id once no votes remain, always keeps the ballot valid, and agrees with Toggle elsewhere |
| Voting.GetRank | client/src/pages/Voting.tsx:27-31 | undefined exactly for an absent id; otherwise a 1-based position holding the id, with no earlier copy |
| Voting.GetRankOfEntry | client/src/pages/Voting.tsx:27-31 | on a duplicate-free list, getRank(rankings[i]) = i+1 |
| Voting.VoteBound | client/src/pages/Voting.tsx:15 | the bound toggleNomination uses is the poll's votesPerVoter, or 0 when there is no poll |
| Voting.VotesRemaining | client/src/pages/Voting.tsx:45 | positive exactly when fewer ids are ranked than votesPerVoter, zero exactly when they are equal |
| Voting.SubmitEnabled | client/src/pages/Voting.tsx:64 | with a poll, submit is enabled exactly when no votes remain (or the count is negative); with none, exactly when 100 or more ids are ranked |
| Voting.SubmitEnabledWhenNoVotesRemain | client/src/pages/Voting.tsx:45-64 | on a valid ballot the votes remaining are never negative and submit is enabled exactly when none remain; with no poll the bound is 100 |

## Findings

| source | as written | input that shows it | evidently intended | confidence | as-written member | corrected member |
|---|---|---|---|---|---|---|
| client/src/pages/Voting.tsx:14-24 | an absent id with no votes left takes the else branch with position −1, and `slice(0,-1)` ++ `slice(0,len)` puts everything but the last entry back in front of the list | votesPerVoter 2, rankings ["A","B"], toggle "C" gives ["A","A","B"], and "votes remaining" shows −1 | the click is ignored and the list stays ["A","B"] | high; not executed | Voting.ToggleOnFullBallotOverflows | Voting.ToggleIntended |

`VotingPage.ToggleNomination` keeps the behaviour as written, because it models
the page as it is. `ToggleIntended` is the corrected definition, proved to
always keep the ballot valid.

## Left out

- The instant-runoff tally (`getResults`) is not part of this model, and so neither are `computeResults` and the repository's `addResults`, which only store its output.
- Redis itself is not modelled: the ioredis transport, `MULTI`/`send_command`, RedisJSON path syntax (user ids containing `.`), key expiry as time passes, and what `EXPIRE` does with a TTL that is not a positive integer (the entry just records the configured value).
- Concurrency between participants is not modelled: every operation is one sequential step, so the store's sub-path atomicity is not captured.
- JWT signing and verification are not modelled: sign becomes the claims it signs, and verify is a function parameter. The nanoid generators become fresh-id parameters.
- The repository methods not shown (`removeParticipant`, `addNomination`, `removeNomination`, `startPoll`, `addParticipantRankings`) follow `addParticipant`'s pattern. That they create an absent container and fail with `MissingDocument` on a missing key is a model choice. `deletePoll`, not shown either, is modelled as a whole-key delete that succeeds on a missing key; that too is a model choice.
- server/src/polls/types.ts declares only `CreatePollFields`, `JoinPollFields` and `RejoinPollFields`. It does not declare `CreatePollData`, `AddParticipantData`, `AddParticipantFields`, `AddNominationFields`, `SubmitRankingsFields`, `AuthPayload` or `SocketWithAuth`. The model's `CreatePollData`, `ParticipantData` (for `AddParticipantData`), `AddNominationFields`, `SubmitRankingsFields`, `Payload` (for `AuthPayload`) and `Handshake` (for the socket's handshake) take their fields from how the code uses them.
- A poll document's `results` field is left out, since only `addResults` writes it.
- `ControllerAuthGuard`, the socket gateway, the HTTP controller, module wiring, bootstrap and logging are not modelled: they are plumbing or output only.
- React rendering and routing are not modelled, and neither is the submit action itself (`actions.submitRankings`).
- Voting.VoteBound: `votesPerVoter || 0` is modelled for integers; JavaScript's treatment of a NaN or fractional votesPerVoter is not.
- StartedStaysStarted: covers only the sub-path writes. Re-creating a poll id with `createPoll` resets `hasStarted` (`Repository.RecreateResetsStart`), and `deletePoll` removes the poll altogether.
