/** The challenge repository: listing, lookup, append, replace and delete by
    id, joining and leaving, and recording a participant's day. The loaded
    list is a field the methods reassign, standing for the saved storage; a
    challenge or participant edited in place is written back as a new value
    at its index. */
module ChallengeStore {
  import opened Common
  import opened Entities
  import opened ChallengeProgress

  /** The predicate `c => c.id === id`. */
  function ChallengeIdIs(id: string): Challenge -> bool {
    (c: Challenge) => c.id == id
  }

  /** The predicate `c => c.id !== id`. */
  function ChallengeIdIsNot(id: string): Challenge -> bool {
    (c: Challenge) => c.id != id
  }

  /** The predicate `challenge => challenge.isPublic`. */
  predicate IsPublic(c: Challenge) {
    c.isPublic
  }

  /** The predicate `p => p.userId === userId`. */
  function UserIs(userId: string): Participant -> bool {
    (p: Participant) => p.userId == userId
  }

  /** The predicate `p => p.userId !== userId`. */
  function UserIsNot(userId: string): Participant -> bool {
    (p: Participant) => p.userId != userId
  }

  /** The user takes part in `c`. */
  predicate Participates(c: Challenge, userId: string) {
    exists i :: 0 <= i < |c.participants| && c.participants[i].userId == userId
  }

  /** The predicate of `getByUserId`: the user created the challenge or
      takes part in it. */
  function Involves(userId: string): Challenge -> bool {
    (c: Challenge) => c.creatorId == userId || Participates(c, userId)
  }

  /** The participant `joinChallenge` adds. */
  function NewParticipant(userId: string, joinedAt: string): Participant {
    Participant(userId, joinedAt, 0, [])
  }

  /** Leaving right after joining, as a new participant, gives back the
      participant list from before. */
  lemma LeaveUndoesJoin(ps: seq<Participant>, userId: string, joinedAt: string)
    requires forall i :: 0 <= i < |ps| ==> ps[i].userId != userId
    ensures Filter(ps + [NewParticipant(userId, joinedAt)], UserIsNot(userId)) == ps
  {
    FilterUndoesAppend(ps, NewParticipant(userId, joinedAt), UserIsNot(userId));
  }

  /** The challenge `updateProgress` works on, if any, spans at least one
      day. */
  predicate RangeIsValid(cs: seq<Challenge>, challengeId: string) {
    match FirstIndex(cs, ChallengeIdIs(challengeId))
    case None => true
    case Some(i) => cs[i].startDate <= cs[i].endDate
  }

  class LocalStorageChallengeRepository {
    /** The saved challenges. */
    var challenges: seq<Challenge>

    constructor(stored: seq<Challenge>)
      ensures challenges == stored
    {
      challenges := stored;
    }

    /** `getAll`: the stored list as it is. */
    method GetAll() returns (r: seq<Challenge>)
      ensures r == challenges
    {
      r := challenges;
    }

    /** `getPublic`: the public challenges in stored order. */
    method GetPublic() returns (r: seq<Challenge>)
      ensures r == Filter(challenges, IsPublic)
      ensures forall i :: 0 <= i < |r| ==> r[i] in challenges && r[i].isPublic
      ensures forall i :: 0 <= i < |challenges| && challenges[i].isPublic ==> challenges[i] in r
    {
      r := Filter(challenges, IsPublic);
    }

    /** `getByUserId`: the challenges the user created or takes part in, in
      stored order. */
    method GetByUserId(userId: string) returns (r: seq<Challenge>)
      ensures r == Filter(challenges, Involves(userId))
      ensures forall i :: 0 <= i < |r| ==>
        r[i] in challenges && (r[i].creatorId == userId || Participates(r[i], userId))
      ensures forall i :: 0 <= i < |challenges| ==>
        (challenges[i].creatorId == userId || Participates(challenges[i], userId)) ==> challenges[i] in r
    {
      r := Filter(challenges, Involves(userId));
    }

    /** `getById`: the first challenge with the id, or none. */
    method GetById(id: string) returns (r: Option<Challenge>)
      ensures r.Some? ==> r.value.id == id && r.value in challenges
      ensures r.Some? ==> exists i :: 0 <= i < |challenges| && challenges[i] == r.value &&
                                      (forall j :: 0 <= j < i ==> challenges[j].id != id)
      ensures r.None? <==> forall i :: 0 <= i < |challenges| ==> challenges[i].id != id
    {
      r := Find(challenges, ChallengeIdIs(id));
      if r.Some? {
        var i := FirstIndex(challenges, ChallengeIdIs(id)).value;
        assert challenges[i] == r.value;
      }
    }

    /** `create`: the draft with the given id and creation time, pushed at
      the end and returned. */
    method Create(draft: ChallengeDraft, id: string, createdAt: string) returns (c: Challenge)
      modifies this
      ensures c == Challenge(id, draft.title, draft.description, draft.creatorId, draft.startDate,
        draft.endDate, draft.category, draft.isPublic, draft.participants, draft.habitTemplate, createdAt)
      ensures challenges == old(challenges) + [c]
    {
      c := Challenge(id, draft.title, draft.description, draft.creatorId, draft.startDate,
        draft.endDate, draft.category, draft.isPublic, draft.participants, draft.habitTemplate, createdAt);
      challenges := challenges + [c];
    }

    /** `update`: the first challenge with the id is overwritten, or not
      found with nothing saved. */
    method Update(c: Challenge) returns (r: Result<Challenge>)
      modifies this
      ensures FirstIndex(old(challenges), ChallengeIdIs(c.id)).None? ==>
        r == Err(ChallengeNotFound(c.id)) && challenges == old(challenges)
      ensures FirstIndex(old(challenges), ChallengeIdIs(c.id)).Some? ==>
        r == Ok(c) && challenges == old(challenges)[FirstIndex(old(challenges), ChallengeIdIs(c.id)).value := c]
      ensures r.Ok? ==> Find(challenges, ChallengeIdIs(c.id)) == Some(c)
    {
      var index := FirstIndex(challenges, ChallengeIdIs(c.id));
      if index.Some? {
        ReplaceFirstThenFind(challenges, c, ChallengeIdIs(c.id));
        challenges := challenges[index.value := c];
        r := Ok(c);
      } else {
        r := Err(ChallengeNotFound(c.id));
      }
    }

    /** `delete`: every challenge with the id is dropped; the answer says
      whether any was. */
    method Delete(id: string) returns (removed: bool)
      modifies this
      ensures challenges == Filter(old(challenges), ChallengeIdIsNot(id))
      ensures removed <==> exists i :: 0 <= i < |old(challenges)| && old(challenges)[i].id == id
      ensures forall i :: 0 <= i < |challenges| ==> challenges[i].id != id
    {
      var filtered := Filter(challenges, ChallengeIdIsNot(id));
      if |filtered| != |challenges| {
        challenges := filtered;
        removed := true;
      } else {
        removed := false;
      }
    }

    /** `joinChallenge`: not found; or the user's existing participant
      record, with nothing changed; or a new participant with no progress
      appended to the first challenge with the id. */
    method JoinChallenge(challengeId: string, userId: string, joinedAt: string) returns (r: Result<Participant>)
      modifies this
      ensures FirstIndex(old(challenges), ChallengeIdIs(challengeId)).None? ==>
        r == Err(ChallengeNotFound(challengeId)) && challenges == old(challenges)
      ensures FirstIndex(old(challenges), ChallengeIdIs(challengeId)).Some? ==>
        var i := FirstIndex(old(challenges), ChallengeIdIs(challengeId)).value;
        var c := old(challenges)[i];
        if Participates(c, userId) then
          && r == Ok(Find(c.participants, UserIs(userId)).value)
          && challenges == old(challenges)
        else
          && r == Ok(NewParticipant(userId, joinedAt))
          && challenges == old(challenges)[i := c.(participants := c.participants + [r.value])]
      ensures r.Ok? ==> r.value.userId == userId
    {
      var index := FirstIndex(challenges, ChallengeIdIs(challengeId));
      if index.None? {
        return Err(ChallengeNotFound(challengeId));
      }
      var challenge := challenges[index.value];
      if exists k :: 0 <= k < |challenge.participants| && challenge.participants[k].userId == userId {
        var existing := Find(challenge.participants, UserIs(userId));
        return Ok(existing.value);
      }
      var participant := NewParticipant(userId, joinedAt);
      challenge := challenge.(participants := challenge.participants + [participant]);
      challenges := challenges[index.value := challenge];
      r := Ok(participant);
    }

    /** `leaveChallenge`: false for an unknown challenge; otherwise every
      participant record of the user is dropped from the first challenge
      with the id, and the answer says whether there was any. */
    method LeaveChallenge(challengeId: string, userId: string) returns (left: bool)
      modifies this
      ensures FirstIndex(old(challenges), ChallengeIdIs(challengeId)).None? ==>
        !left && challenges == old(challenges)
      ensures FirstIndex(old(challenges), ChallengeIdIs(challengeId)).Some? ==>
        var i := FirstIndex(old(challenges), ChallengeIdIs(challengeId)).value;
        var c := old(challenges)[i];
        && (left <==> Participates(c, userId))
        && challenges == old(challenges)[i := c.(participants := Filter(c.participants, UserIsNot(userId)))]
        && !Participates(challenges[i], userId)
    {
      var index := FirstIndex(challenges, ChallengeIdIs(challengeId));
      if index.None? {
        return false;
      }
      var challenge := challenges[index.value];
      var originalLength := |challenge.participants|;
      var remaining := Filter(challenge.participants, UserIsNot(userId));
      if |remaining| != originalLength {
        challenge := challenge.(participants := remaining);
        challenges := challenges[index.value := challenge];
        left := true;
      } else {
        left := false;
      }
    }

    /** `updateProgress`: not found, or not a participant, with nothing
      saved; otherwise the first participant record of the user in the first
      challenge with the id gets the day added (completed) or removed, and
      its progress recomputed over the challenge's days. */
    method UpdateProgress(challengeId: string, userId: string, date: Day, completed: bool) returns (r: Result<Participant>)
      requires RangeIsValid(challenges, challengeId)
      modifies this
      ensures FirstIndex(old(challenges), ChallengeIdIs(challengeId)).None? ==>
        r == Err(ChallengeNotFound(challengeId)) && challenges == old(challenges)
      ensures FirstIndex(old(challenges), ChallengeIdIs(challengeId)).Some? ==>
        var i := FirstIndex(old(challenges), ChallengeIdIs(challengeId)).value;
        var c := old(challenges)[i];
        match FirstIndex(c.participants, UserIs(userId))
        case None =>
          r == Err(NotAParticipant(userId, challengeId)) && challenges == old(challenges)
        case Some(k) =>
          && r == Ok(UpdatedParticipant(c.participants[k], date, completed, TotalDays(c)))
          && challenges == old(challenges)[i := c.(participants := c.participants[k := r.value])]
      ensures r.Ok? ==> r.value.userId == userId && r.value.progress <= 100
    {
      var index := FirstIndex(challenges, ChallengeIdIs(challengeId));
      if index.None? {
        return Err(ChallengeNotFound(challengeId));
      }
      var challenge := challenges[index.value];
      var participantIndex := FirstIndex(challenge.participants, UserIs(userId));
      if participantIndex.None? {
        return Err(NotAParticipant(userId, challengeId));
      }
      var participant := challenge.participants[participantIndex.value];
      if completed {
        if date !in participant.completedDays {
          participant := participant.(completedDays := participant.completedDays + [date]);
        }
      } else {
        participant := participant.(completedDays := Filter(participant.completedDays, DayIsNot(date)));
      }
      var totalDays := challenge.endDate - challenge.startDate + 1;
      participant := participant.(progress := ProgressPercent(|participant.completedDays|, totalDays));
      challenge := challenge.(participants := challenge.participants[participantIndex.value := participant]);
      challenges := challenges[index.value := challenge];
      r := Ok(participant);
    }
  }
}
