/** The poll store: a Redis table from "polls:" + pollID to a JSON poll
    document with a time-to-live on the key, modelled as a map held by the
    repository object. */
module Repository {
  import opened PollTypes

  /** One Redis key: the JSON document and the TTL (seconds) set on the key. */
  datatype Entry = Entry(doc: Poll, ttl: int)

  type Store = map<string, Entry>

  const Prefix: string := "polls:"

  /** The Redis key a poll is stored under. */
  function Key(pollID: string): (k: string)
    ensures |k| == |Prefix| + |pollID|
    ensures k[..|Prefix|] == Prefix && k[|Prefix|..] == pollID
  {
    Prefix + pollID
  }

  /** Distinct polls never share a key. */
  lemma KeyInjective(a: string, b: string)
    ensures Key(a) == Key(b) <==> a == b
  {
    if Key(a) == Key(b) {
      assert a == Key(a)[|Prefix|..];
    }
  }

  /** Every document sits under the key of its own id. */
  ghost predicate WellKeyed(store: Store) {
    forall k | k in store :: k == Key(store[k].doc.id)
  }

  /** `JSON.GET key .` parsed: the document, null (`None`) when the key does
      not exist, or the client's rejection. */
  function LookUp(store: Store, pollID: string, link: Link): (r: Result<Option<Poll>>)
    ensures link.Down? ==> r == Err(StoreFailure(link.reason))
    ensures r.Ok? <==> link.Up?
    ensures r.Ok? && r.value.Some? <==> link.Up? && Key(pollID) in store
    ensures r.Ok? && r.value.Some? ==> r.value.value == store[Key(pollID)].doc
  {
    if link.Down? then Err(StoreFailure(link.reason))
    else if Key(pollID) in store then Ok(Some(store[Key(pollID)].doc))
    else Ok(None)
  }

  /** In a well-keyed store the document found for a poll id carries that id. */
  lemma LookUpCarriesId(store: Store, pollID: string, link: Link)
    requires WellKeyed(store)
    requires LookUp(store, pollID, link).Ok? && LookUp(store, pollID, link).value.Some?
    ensures LookUp(store, pollID, link).value.value.id == pollID
  {
    KeyInjective(store[Key(pollID)].doc.id, pollID);
  }

  datatype CreatePollData = CreatePollData(votesPerVoter: int, topic: string, pollID: string, userID: string)

  /** The arguments of a participant write: `AddParticipantData`, and also the
      service's `RejoinPollFields` and `AddParticipantFields`. */
  datatype ParticipantData = ParticipantData(pollID: string, userID: string, name: string)

  /** The document createPoll writes: five fields, no participants yet. The
      topic and votesPerVoter are the creator's; the fields later writes add
      (nominations, hasStarted, rankings) are absent. */
  function InitialPoll(data: CreatePollData): (p: Poll)
    ensures p.topic == data.topic && p.votesPerVoter == data.votesPerVoter
    ensures p.nominations.None? && p.hasStarted.None? && p.rankings.None?
  {
    Poll(id := data.pollID, topic := data.topic, votesPerVoter := data.votesPerVoter,
         participants := map[], nominations := None, adminID := data.userID,
         hasStarted := None, rankings := None)
  }

  /** The creator is the admin but not yet a participant; nothing has started. */
  lemma InitialPollShape(data: CreatePollData)
    ensures InitialPoll(data).id == data.pollID && InitialPoll(data).adminID == data.userID
    ensures InitialPoll(data).adminID !in InitialPoll(data).participants
    ensures InitialPoll(data).participants == map[] && OrEmpty(InitialPoll(data).nominations) == map[]
    ensures !Truthy(InitialPoll(data).hasStarted)
  {
  }

  /** A write to one sub-path of a poll document. */
  datatype Edit =
    | SetParticipant(userID: string, name: string)          // .participants.<userID>
    | DeleteParticipant(userID: string)                     // .participants.<userID>
    | SetNomination(nominationID: string, nomination: Nomination)  // .nominations.<nominationID>
    | DeleteNomination(nominationID: string)                // .nominations.<nominationID>
    | Start                                                 // .hasStarted
    | SetRankings(userID: string, rankings: seq<string>)    // .rankings.<userID>

  /** The document after one sub-path write; an absent container is created.
      The addressed entry takes the written value (or is gone after a delete),
      and every container the edit does not address is left as it was. */
  function Apply(d: Poll, e: Edit): (r: Poll)
    ensures e.SetParticipant? ==> e.userID in r.participants && r.participants[e.userID] == e.name
    ensures e.DeleteParticipant? ==> e.userID !in r.participants
    ensures e.SetNomination? ==> e.nominationID in OrEmpty(r.nominations) && OrEmpty(r.nominations)[e.nominationID] == e.nomination
    ensures e.DeleteNomination? ==> r.nominations.Some? && e.nominationID !in r.nominations.value
    ensures e.Start? ==> Truthy(r.hasStarted)
    ensures e.SetRankings? ==> e.userID in OrEmpty(r.rankings) && OrEmpty(r.rankings)[e.userID] == e.rankings
    ensures !(e.SetParticipant? || e.DeleteParticipant?) ==> r.participants == d.participants
    ensures !(e.SetNomination? || e.DeleteNomination?) ==> r.nominations == d.nominations
    ensures !e.Start? ==> r.hasStarted == d.hasStarted
    ensures !e.SetRankings? ==> r.rankings == d.rankings
  {
    match e
    case SetParticipant(u, n) => d.(participants := d.participants[u := n])
    case DeleteParticipant(u) => d.(participants := d.participants - {u})
    case SetNomination(id, n) => d.(nominations := Some(OrEmpty(d.nominations)[id := n]))
    case DeleteNomination(id) => d.(nominations := Some(OrEmpty(d.nominations) - {id}))
    case Start => d.(hasStarted := Some(true))
    case SetRankings(u, r) => d.(rankings := Some(OrEmpty(d.rankings)[u := r]))
  }

  /** No sub-path write changes a document's id, topic, votesPerVoter or admin. */
  lemma ApplyKeepsIdentity(d: Poll, e: Edit)
    ensures Apply(d, e).id == d.id && Apply(d, e).adminID == d.adminID
    ensures Apply(d, e).topic == d.topic && Apply(d, e).votesPerVoter == d.votesPerVoter
  {
  }

  /** hasStarted only ever goes from false to true under a sub-path write. */
  lemma StartedStaysStarted(d: Poll, e: Edit)
    requires Truthy(d.hasStarted)
    ensures Truthy(Apply(d, e).hasStarted)
  {
  }

  /** createPoll does not look for an existing key: re-creating a started
      poll's id replaces its document with one that has not started. */
  lemma RecreateResetsStart(store: Store, data: CreatePollData, ttl: int)
    requires Key(data.pollID) in store && Truthy(store[Key(data.pollID)].doc.hasStarted)
    ensures !Truthy(store[Key(data.pollID) := Entry(InitialPoll(data), ttl)][Key(data.pollID)].doc.hasStarted)
  {
    InitialPollShape(data);
  }

  /** The store after a path-scoped write: applied to the addressed document
      when the command succeeds and the key exists, and nowhere else. */
  function PathWrite(store: Store, pollID: string, e: Edit, write: Link): (s: Store)
    ensures s.Keys == store.Keys
    ensures forall k | k in store :: s[k].ttl == store[k].ttl
    ensures forall k | k in store && k != Key(pollID) :: s[k] == store[k]
    ensures write.Down? || Key(pollID) !in store ==> s == store
  {
    var key := Key(pollID);
    if write.Down? || key !in store then store
    else store[key := store[key].(doc := Apply(store[key].doc, e))]
  }

  /** A path-scoped write keeps every document under the key of its id. */
  lemma PathWriteKeepsWellKeyed(store: Store, pollID: string, e: Edit, write: Link)
    requires WellKeyed(store)
    ensures WellKeyed(PathWrite(store, pollID, e, write))
  {
    var s := PathWrite(store, pollID, e, write);
    forall k | k in s
      ensures k == Key(s[k].doc.id)
    {
      ApplyKeepsIdentity(store[k].doc, e);
    }
  }

  /** What a write followed by `JSON.GET key .` returns: the rejection of the
      write, the error reply for a missing key, the rejection of the read, or
      the document as it is after the write. */
  function ReadBack(store: Store, pollID: string, e: Edit, write: Link, read: Link): (r: Result<Poll>)
    ensures r.Ok? <==> write.Up? && read.Up? && Key(pollID) in store
    ensures write.Down? ==> r == Err(StoreFailure(write.reason))
    ensures write.Up? && Key(pollID) !in store ==> r == Err(MissingDocument)
    ensures write.Up? && Key(pollID) in store && read.Down? ==> r == Err(StoreFailure(read.reason))
    ensures r.Ok? ==> r.value == PathWrite(store, pollID, e, write)[Key(pollID)].doc
  {
    var key := Key(pollID);
    if write.Down? then Err(StoreFailure(write.reason))
    else if key !in store then Err(MissingDocument)
    else if read.Down? then Err(StoreFailure(read.reason))
    else Ok(Apply(store[key].doc, e))
  }

  /** Adding a participant sets exactly `participants[userID] = name`: every
      other participant, every other field, the key's TTL and every other key
      are left as they were. */
  lemma AddParticipantFrame(store: Store, data: ParticipantData, write: Link)
    requires write.Up? && Key(data.pollID) in store
    ensures var s := PathWrite(store, data.pollID, SetParticipant(data.userID, data.name), write);
            var before, after := store[Key(data.pollID)], s[Key(data.pollID)];
            && after.doc.participants.Keys == before.doc.participants.Keys + {data.userID}
            && after.doc.participants[data.userID] == data.name
            && (forall u | u in before.doc.participants && u != data.userID ::
                  after.doc.participants[u] == before.doc.participants[u])
            && after.doc == before.doc.(participants := after.doc.participants)
            && after.ttl == before.ttl
  {
  }

  /** The read-back of a successful participant write holds `userID -> name`. */
  lemma AddParticipantReadBack(store: Store, data: ParticipantData, write: Link, read: Link)
    requires ReadBack(store, data.pollID, SetParticipant(data.userID, data.name), write, read).Ok?
    ensures var p := ReadBack(store, data.pollID, SetParticipant(data.userID, data.name), write, read).value;
            data.userID in p.participants && p.participants[data.userID] == data.name
  {
  }

  /** Adding the same participant twice is the same as adding it once. */
  lemma AddParticipantIdempotent(store: Store, data: ParticipantData, write: Link)
    ensures var e := SetParticipant(data.userID, data.name);
            PathWrite(PathWrite(store, data.pollID, e, write), data.pollID, e, write)
              == PathWrite(store, data.pollID, e, write)
  {
    var e := SetParticipant(data.userID, data.name);
    var key := Key(data.pollID);
    if write.Up? && key in store {
      var once := PathWrite(store, data.pollID, e, write);
      assert Apply(once[key].doc, e) == once[key].doc;
    }
  }

  /** Re-adding a user under another name overwrites that single entry. */
  lemma AddParticipantOverwrites(store: Store, pollID: string, userID: string, first: string, second: string, write: Link)
    ensures PathWrite(PathWrite(store, pollID, SetParticipant(userID, first), write), pollID, SetParticipant(userID, second), write)
              == PathWrite(store, pollID, SetParticipant(userID, second), write)
  {
    var key := Key(pollID);
    if write.Up? && key in store {
      var d := store[key].doc;
      assert d.participants[userID := first][userID := second] == d.participants[userID := second];
    }
  }

  /** The poll repository: the table and the configured TTL. */
  class PollsRepository {
    /** POLL_DURATION, read from the configuration when the repository is built. */
    const ttl: int
    var store: Store

    ghost predicate Valid()
      reads this
    {
      WellKeyed(store)
    }

    constructor (ttl: int)
      ensures this.ttl == ttl && store == map[] && Valid()
    {
      this.ttl := ttl;
      store := map[];
    }

    /** MULTI [JSON.SET key . doc, EXPIRE key ttl] EXEC: the whole initial
        document and its TTL in one step, or nothing and InternalServerError. */
    method CreatePoll(data: CreatePollData, link: Link) returns (r: Result<Poll>)
      requires Valid()
      modifies this
      ensures Valid()
      ensures link.Up? ==> r == Ok(InitialPoll(data))
      ensures link.Up? ==> store == old(store)[Key(data.pollID) := Entry(InitialPoll(data), ttl)]
      ensures link.Down? ==> r == Err(InternalServerError) && store == old(store)
    {
      var initialPoll := InitialPoll(data);
      var key := Key(data.pollID);
      if link.Down? {
        return Err(InternalServerError);
      }
      store := store[key := Entry(initialPoll, ttl)];
      r := Ok(initialPoll);
    }

    /** JSON.GET key .; reading changes nothing, and a rejection is re-raised. */
    method GetPoll(pollID: string, link: Link) returns (r: Result<Option<Poll>>)
      ensures r == LookUp(store, pollID, link)
    {
      var key := Key(pollID);
      if link.Down? {
        return Err(StoreFailure(link.reason));
      }
      r := if key in store then Ok(Some(store[key].doc)) else Ok(None);
    }

    /** JSON.SET on one sub-path, then JSON.GET of the whole document. */
    method WriteAt(pollID: string, e: Edit, write: Link, read: Link) returns (r: Result<Poll>)
      requires Valid()
      modifies this
      ensures Valid()
      ensures store == PathWrite(old(store), pollID, e, write)
      ensures r == ReadBack(old(store), pollID, e, write, read)
    {
      PathWriteKeepsWellKeyed(store, pollID, e, write);
      var key := Key(pollID);
      if write.Down? {
        return Err(StoreFailure(write.reason));
      }
      if key !in store {
        return Err(MissingDocument);
      }
      store := store[key := store[key].(doc := Apply(store[key].doc, e))];
      if read.Down? {
        return Err(StoreFailure(read.reason));
      }
      r := Ok(store[key].doc);
    }

    /** JSON.SET key .participants.<userID> name, then the read-back. */
    method AddParticipant(data: ParticipantData, write: Link, read: Link) returns (r: Result<Poll>)
      requires Valid()
      modifies this
      ensures Valid()
      ensures store == PathWrite(old(store), data.pollID, SetParticipant(data.userID, data.name), write)
      ensures r == ReadBack(old(store), data.pollID, SetParticipant(data.userID, data.name), write, read)
    {
      r := WriteAt(data.pollID, SetParticipant(data.userID, data.name), write, read);
    }

    method RemoveParticipant(pollID: string, userID: string, write: Link, read: Link) returns (r: Result<Poll>)
      requires Valid()
      modifies this
      ensures Valid()
      ensures store == PathWrite(old(store), pollID, DeleteParticipant(userID), write)
      ensures r == ReadBack(old(store), pollID, DeleteParticipant(userID), write, read)
    {
      r := WriteAt(pollID, DeleteParticipant(userID), write, read);
    }

    method AddNomination(pollID: string, nominationID: string, nomination: Nomination, write: Link, read: Link)
      returns (r: Result<Poll>)
      requires Valid()
      modifies this
      ensures Valid()
      ensures store == PathWrite(old(store), pollID, SetNomination(nominationID, nomination), write)
      ensures r == ReadBack(old(store), pollID, SetNomination(nominationID, nomination), write, read)
    {
      r := WriteAt(pollID, SetNomination(nominationID, nomination), write, read);
    }

    method RemoveNomination(pollID: string, nominationID: string, write: Link, read: Link) returns (r: Result<Poll>)
      requires Valid()
      modifies this
      ensures Valid()
      ensures store == PathWrite(old(store), pollID, DeleteNomination(nominationID), write)
      ensures r == ReadBack(old(store), pollID, DeleteNomination(nominationID), write, read)
    {
      r := WriteAt(pollID, DeleteNomination(nominationID), write, read);
    }

    method StartPoll(pollID: string, write: Link, read: Link) returns (r: Result<Poll>)
      requires Valid()
      modifies this
      ensures Valid()
      ensures store == PathWrite(old(store), pollID, Start, write)
      ensures r == ReadBack(old(store), pollID, Start, write, read)
    {
      r := WriteAt(pollID, Start, write, read);
    }

    method AddParticipantRankings(pollID: string, userID: string, rankings: seq<string>, write: Link, read: Link)
      returns (r: Result<Poll>)
      requires Valid()
      modifies this
      ensures Valid()
      ensures store == PathWrite(old(store), pollID, SetRankings(userID, rankings), write)
      ensures r == ReadBack(old(store), pollID, SetRankings(userID, rankings), write, read)
    {
      r := WriteAt(pollID, SetRankings(userID, rankings), write, read);
    }

    /** Deletes the poll's key; afterwards the poll is not found. */
    method DeletePoll(pollID: string, link: Link) returns (r: Result<()>)
      requires Valid()
      modifies this
      ensures Valid()
      ensures link.Up? ==> r == Ok(()) && store == old(store) - {Key(pollID)}
      ensures link.Up? ==> LookUp(store, pollID, Up) == Ok(None)
      ensures link.Down? ==> r == Err(StoreFailure(link.reason)) && store == old(store)
    {
      if link.Down? {
        return Err(StoreFailure(link.reason));
      }
      store := store - {Key(pollID)};
      r := Ok(());
    }
  }
}
