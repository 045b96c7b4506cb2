/**
 * The multiplayer lobby (backend/src/sockets/roomHandler.ts, compiled to
 * backend/dist/sockets/roomHandler.js): an in-memory table from room code
 * to room, changed by the socket events `create_room`, `join_room`,
 * `start_game`, `submit_progress` and `disconnect`.
 *
 * The socket.io server is outside the model: each handler is a method of
 * the `RoomRegistry` and returns the events it emits. The random room code
 * and the randomly chosen problem are parameters.
 */
module Rooms {
  import opened Shared

  datatype Participant = Participant(userId: string, characterName: string, score: int, testsPassed: int)

  /** `RoomState` of roomHandler.ts; `problemId` is `None` until a game starts with a problem. */
  datatype Room = Room(
    id: string,
    hostId: string,
    participants: seq<Participant>,
    status: RoomStatus,
    problemId: Option<string>)

  /**
   * An emitted event: `room_updated`, `game_started` and
   * `leaderboard_updated` go to everybody in the room, `error` only to the
   * socket that sent the request.
   */
  datatype Event =
    | RoomUpdated(room: Room)
    | GameStarted(problemId: Option<string>)
    | LeaderboardUpdated(leaderboard: seq<Participant>)
    | ErrorReply(message: string)

  // ---------------------------------------------------------------------------
  // Participant lists
  // ---------------------------------------------------------------------------

  /** The user ids of a participant list. */
  function Ids(ps: seq<Participant>): set<string> {
    set i | 0 <= i < |ps| :: ps[i].userId
  }

  /** No user id occurs twice in the list. */
  predicate DistinctIds(ps: seq<Participant>) {
    forall i, j :: 0 <= i < j < |ps| ==> ps[i].userId != ps[j].userId
  }

  /** `participants.find(p => p.userId === userId)`, as the index of the first participant with that id. */
  function FindIndex(ps: seq<Participant>, userId: string): (r: Option<nat>)
    ensures r.Some? ==> r.value < |ps| && ps[r.value].userId == userId
                        && forall j :: 0 <= j < r.value ==> ps[j].userId != userId
    ensures r.None? <==> userId !in Ids(ps)
  {
    if ps == [] then None
    else if ps[0].userId == userId then Some(0)
    else
      match FindIndex(ps[1..], userId)
      case None =>
        assert Ids(ps) == {ps[0].userId} + Ids(ps[1..]) by {
          assert forall i :: 0 < i < |ps| ==> ps[i] == ps[1..][i - 1];
        }
        None
      case Some(k) => Some(k + 1)
  }

  /** A newcomer: score 0, no test passed. */
  function Newcomer(userId: string, characterName: string): Participant {
    Participant(userId, characterName, 0, 0)
  }

  /** The participants after `join_room` (roomHandler.ts:45-47): a newcomer is appended unless the id is present. */
  function Joined(ps: seq<Participant>, userId: string, characterName: string): seq<Participant> {
    if FindIndex(ps, userId).None? then ps + [Newcomer(userId, characterName)] else ps
  }

  /**
   * Joining keeps every participant where it was, adds the user if and only
   * if it was absent (at the end, with 0 points), keeps ids distinct, and a
   * second join of the same user changes nothing.
   */
  lemma JoinedMeaning(ps: seq<Participant>, userId: string, name: string, name': string)
    ensures var r := Joined(ps, userId, name);
            && r[..|ps|] == ps
            && Ids(r) == Ids(ps) + {userId}
            && (|r| == |ps| + 1 <==> userId !in Ids(ps))
            && (userId !in Ids(ps) ==> r[|ps|] == Newcomer(userId, name))
            && (DistinctIds(ps) ==> DistinctIds(r))
            && (userId in Ids(ps) ==> r == ps)
            && Joined(r, userId, name') == r
  {
    var r := Joined(ps, userId, name);
    if userId !in Ids(ps) {
      assert r[|ps|].userId == userId;
      assert Ids(r) == Ids(ps) + {userId} by {
        assert forall i :: 0 <= i < |ps| ==> r[i] == ps[i];
      }
    }
  }

  /** `a` may stand before `b` on the leaderboard: more points, or as many points and at least as many tests passed. */
  predicate RanksAtLeast(a: Participant, b: Participant) {
    a.score > b.score || (a.score == b.score && a.testsPassed >= b.testsPassed)
  }

  /** Sorted by score descending, then by tests passed descending. */
  predicate Sorted(ps: seq<Participant>) {
    forall i, j :: 0 <= i < j < |ps| ==> RanksAtLeast(ps[i], ps[j])
  }

  /** The ids of a list with one participant in front. */
  lemma IdsCons(a: Participant, t: seq<Participant>)
    ensures Ids([a] + t) == {a.userId} + Ids(t)
    ensures DistinctIds([a] + t) <==> a.userId !in Ids(t) && DistinctIds(t)
  {
    var s := [a] + t;
    forall x | x in Ids(s) ensures x in {a.userId} + Ids(t) {
      var i :| 0 <= i < |s| && s[i].userId == x;
      if i > 0 { assert t[i - 1].userId == x; }
    }
    forall x | x in Ids(t) ensures x in Ids(s) {
      var i :| 0 <= i < |t| && t[i].userId == x;
      assert s[i + 1].userId == x;
    }
    assert s[0].userId == a.userId;
    assert forall i :: 0 <= i < |t| ==> s[i + 1] == t[i];
  }

  /** Put `p` into the list `s`, in front of the first participant it ranks at least as high as. */
  function Insert(p: Participant, s: seq<Participant>): (r: seq<Participant>)
    ensures multiset(r) == multiset(s) + multiset{p}
  {
    if s == [] then [p]
    else if RanksAtLeast(p, s[0]) then [p] + s
    else
      assert s == [s[0]] + s[1..];
      [s[0]] + Insert(p, s[1..])
  }

  /** A participant ranking at least as high as `p` and every member of `s` ranks at least as high as every member of the insertion. */
  lemma {:induction false} InsertBelow(q: Participant, p: Participant, s: seq<Participant>)
    requires RanksAtLeast(q, p)
    requires forall k :: 0 <= k < |s| ==> RanksAtLeast(q, s[k])
    ensures forall k :: 0 <= k < |Insert(p, s)| ==> RanksAtLeast(q, Insert(p, s)[k])
  {
    if s != [] && !RanksAtLeast(p, s[0]) {
      InsertBelow(q, p, s[1..]);
    }
  }

  /** Inserting into a sorted list keeps it sorted. */
  lemma {:induction false} InsertSorted(p: Participant, s: seq<Participant>)
    requires Sorted(s)
    ensures Sorted(Insert(p, s))
  {
    if s != [] && !RanksAtLeast(p, s[0]) {
      var t := Insert(p, s[1..]);
      InsertSorted(p, s[1..]);
      InsertBelow(s[0], p, s[1..]);
      var r := [s[0]] + t;
      assert r == Insert(p, s);
      forall i, j | 0 <= i < j < |r| ensures RanksAtLeast(r[i], r[j]) {
        assert r[j] == t[j - 1];
        if i > 0 { assert r[i] == t[i - 1]; }
      }
    }
  }

  /** Inserting adds exactly the newcomer's id, and keeps ids distinct when that id is new. */
  lemma {:induction false} InsertIds(p: Participant, s: seq<Participant>)
    ensures Ids(Insert(p, s)) == Ids(s) + {p.userId}
    ensures DistinctIds(s) && p.userId !in Ids(s) ==> DistinctIds(Insert(p, s))
  {
    if s == [] {
      IdsCons(p, s);
    } else if RanksAtLeast(p, s[0]) {
      IdsCons(p, s);
    } else {
      InsertIds(p, s[1..]);
      assert s == [s[0]] + s[1..];
      IdsCons(s[0], s[1..]);
      IdsCons(s[0], Insert(p, s[1..]));
    }
  }

  /**
   * The leaderboard order of `room.participants.sort((a, b) => b.score - a.score
   * || b.testsPassed - a.testsPassed)` (roomHandler.ts:75): a stable insertion
   * sort; the result is a permutation of the input.
   */
  function Ranked(ps: seq<Participant>): (r: seq<Participant>)
    ensures multiset(r) == multiset(ps)
  {
    if ps == [] then []
    else
      assert ps == [ps[0]] + ps[1..];
      Insert(ps[0], Ranked(ps[1..]))
  }

  /** The leaderboard is sorted. */
  lemma {:induction false} RankedSorted(ps: seq<Participant>)
    ensures Sorted(Ranked(ps))
  {
    if ps != [] {
      RankedSorted(ps[1..]);
      InsertSorted(ps[0], Ranked(ps[1..]));
    }
  }

  /** The leaderboard has the same ids as the room. */
  lemma {:induction false} RankedIds(ps: seq<Participant>)
    ensures Ids(Ranked(ps)) == Ids(ps)
  {
    if ps != [] {
      var rest := Ranked(ps[1..]);
      RankedIds(ps[1..]);
      InsertIds(ps[0], rest);
      assert Ranked(ps) == Insert(ps[0], rest);
      IdsCons(ps[0], ps[1..]);
      assert [ps[0]] + ps[1..] == ps;
    }
  }

  /** Distinct ids in the room stay distinct on the leaderboard. */
  lemma {:induction false} RankedDistinct(ps: seq<Participant>)
    requires DistinctIds(ps)
    ensures DistinctIds(Ranked(ps))
  {
    if ps != [] {
      var rest := Ranked(ps[1..]);
      IdsCons(ps[0], ps[1..]);
      assert [ps[0]] + ps[1..] == ps;
      RankedDistinct(ps[1..]);
      RankedIds(ps[1..]);
      InsertIds(ps[0], rest);
      assert Ranked(ps) == Insert(ps[0], rest);
    }
  }

  /** The leaderboard is sorted, with the same ids as the room, distinct if they were. */
  lemma RankedMeaning(ps: seq<Participant>)
    ensures Sorted(Ranked(ps))
    ensures Ids(Ranked(ps)) == Ids(ps)
    ensures DistinctIds(ps) ==> DistinctIds(Ranked(ps))
  {
    RankedSorted(ps);
    RankedIds(ps);
    if DistinctIds(ps) {
      RankedDistinct(ps);
    }
  }

  /**
   * The sort is stable: a leaderboard that is already in order (ties
   * included) is left exactly as it is.
   */
  lemma {:induction false} RankedKeepsSortedList(ps: seq<Participant>)
    requires Sorted(ps)
    ensures Ranked(ps) == ps
  {
    if ps != [] {
      RankedKeepsSortedList(ps[1..]);
      if |ps| > 1 {
        assert RanksAtLeast(ps[0], ps[1..][0]);
      }
      assert [ps[0]] + ps[1..] == ps;
    }
  }

  /** The participant at `i` with the reported progress (roomHandler.ts:72-73). */
  function WithProgress(ps: seq<Participant>, i: nat, testsPassed: int, score: int): seq<Participant>
    requires i < |ps|
  {
    ps[i := ps[i].(testsPassed := testsPassed, score := score)]
  }

  /**
   * A progress report changes only the reporting participant's score and
   * tests passed: everybody else, and everybody's id and name, stay in place,
   * so the ids stay the same and stay distinct.
   */
  lemma ProgressMeaning(ps: seq<Participant>, userId: string, testsPassed: int, score: int)
    requires userId in Ids(ps)
    ensures var i := FindIndex(ps, userId).value;
            var r := WithProgress(ps, i, testsPassed, score);
            && |r| == |ps|
            && r[i] == Participant(userId, ps[i].characterName, score, testsPassed)
            && (forall j :: 0 <= j < |ps| && j != i ==> r[j] == ps[j])
            && Ids(r) == Ids(ps)
            && (DistinctIds(ps) ==> DistinctIds(r))
  {
    var i := FindIndex(ps, userId).value;
    var u := WithProgress(ps, i, testsPassed, score);
    forall x | x in Ids(u) ensures x in Ids(ps) {
      var j :| 0 <= j < |u| && u[j].userId == x;
      assert ps[j].userId == x;
    }
    forall x | x in Ids(ps) ensures x in Ids(u) {
      var j :| 0 <= j < |ps| && ps[j].userId == x;
      assert u[j].userId == x;
    }
  }

  /** Everything a room of the table keeps true: keyed by its own code, never finished, distinct ids, host present. */
  predicate RoomValid(code: string, room: Room) {
    && room.id == code
    && room.status != Finished
    && DistinctIds(room.participants)
    && room.hostId in Ids(room.participants)
  }

  /** The room `create_room` stores (roomHandler.ts:21-26): waiting, with the host as its only participant. */
  function NewRoom(code: string, userId: string, characterName: string): Room {
    Room(code, userId, [Newcomer(userId, characterName)], Waiting, None)
  }

  /** `activeRooms` and the handlers that change it. */
  class RoomRegistry {
    var activeRooms: map<string, Room>

    ghost predicate Valid()
      reads this
    {
      forall code :: code in activeRooms ==> RoomValid(code, activeRooms[code])
    }

    /** `new Map<string, RoomState>()`. */
    constructor ()
      ensures Valid() && activeRooms == map[]
    {
      activeRooms := map[];
    }

    /**
     * `create_room` (roomHandler.ts:18-32): store a fresh waiting room under
     * `roomCode`, replacing any room already there.
     */
    method CreateRoom(roomCode: string, userId: string, characterName: string) returns (events: seq<Event>)
      requires Valid()
      modifies this
      ensures Valid()
      ensures activeRooms == old(activeRooms)[roomCode := NewRoom(roomCode, userId, characterName)]
      ensures events == [RoomUpdated(NewRoom(roomCode, userId, characterName))]
    {
      var roomState := NewRoom(roomCode, userId, characterName);
      assert Ids(roomState.participants) == {userId} by {
        assert roomState.participants[0].userId == userId;
      }
      activeRooms := activeRooms[roomCode := roomState];
      events := [RoomUpdated(roomState)];
    }

    /**
     * `join_room` (roomHandler.ts:34-51): an unknown code or a room that is
     * not waiting gets an error and nothing changes; otherwise the user is
     * added unless already present.
     */
    method JoinRoom(roomCode: string, userId: string, characterName: string) returns (events: seq<Event>)
      requires Valid()
      modifies this
      ensures Valid()
      ensures roomCode !in old(activeRooms) ==>
                activeRooms == old(activeRooms) && events == [ErrorReply("Room not found")]
      ensures roomCode in old(activeRooms) && old(activeRooms)[roomCode].status != Waiting ==>
                activeRooms == old(activeRooms) && events == [ErrorReply("Game already in progress")]
      ensures roomCode in old(activeRooms) && old(activeRooms)[roomCode].status == Waiting ==>
                var room := old(activeRooms)[roomCode];
                var room' := room.(participants := Joined(room.participants, userId, characterName));
                activeRooms == old(activeRooms)[roomCode := room'] && events == [RoomUpdated(room')]
    {
      if roomCode !in activeRooms {
        return [ErrorReply("Room not found")];
      }
      var room := activeRooms[roomCode];
      if room.status != Waiting {
        return [ErrorReply("Game already in progress")];
      }
      JoinedMeaning(room.participants, userId, characterName, characterName);
      if FindIndex(room.participants, userId).None? {
        room := room.(participants := room.participants + [Newcomer(userId, characterName)]);
      }
      activeRooms := activeRooms[roomCode := room];
      events := [RoomUpdated(room)];
    }

    /**
     * `start_game` (roomHandler.ts:53-65): an existing room, whatever its
     * status and whoever asks, goes in progress with the chosen problem
     * (`None` when there is no problem to choose); an unknown code is ignored.
     */
    method StartGame(roomCode: string, chosenProblemId: Option<string>) returns (events: seq<Event>)
      requires Valid()
      modifies this
      ensures Valid()
      ensures roomCode !in old(activeRooms) ==> activeRooms == old(activeRooms) && events == []
      ensures roomCode in old(activeRooms) ==>
                var room' := old(activeRooms)[roomCode].(status := InProgress, problemId := chosenProblemId);
                activeRooms == old(activeRooms)[roomCode := room']
                && events == [GameStarted(chosenProblemId), RoomUpdated(room')]
    {
      if roomCode in activeRooms {
        var room := activeRooms[roomCode];
        room := room.(status := InProgress, problemId := chosenProblemId);
        activeRooms := activeRooms[roomCode := room];
        events := [GameStarted(chosenProblemId), RoomUpdated(room)];
      } else {
        events := [];
      }
    }

    /**
     * `submit_progress` (roomHandler.ts:67-79): record the participant's
     * score and tests passed and re-sort the leaderboard; an unknown room or
     * participant is ignored.
     */
    method SubmitProgress(roomCode: string, userId: string, testsPassed: int, score: int) returns (events: seq<Event>)
      requires Valid()
      modifies this
      ensures Valid()
      ensures (roomCode !in old(activeRooms) || userId !in Ids(old(activeRooms)[roomCode].participants)) ==>
                activeRooms == old(activeRooms) && events == []
      ensures roomCode in old(activeRooms) && userId in Ids(old(activeRooms)[roomCode].participants) ==>
                var room := old(activeRooms)[roomCode];
                var i := FindIndex(room.participants, userId).value;
                var leaderboard := Ranked(WithProgress(room.participants, i, testsPassed, score));
                activeRooms == old(activeRooms)[roomCode := room.(participants := leaderboard)]
                && events == [LeaderboardUpdated(leaderboard)]
    {
      events := [];
      if roomCode in activeRooms {
        var room := activeRooms[roomCode];
        var found := FindIndex(room.participants, userId);
        if found.Some? {
          var i := found.value;
          ProgressMeaning(room.participants, userId, testsPassed, score);
          var updated := WithProgress(room.participants, i, testsPassed, score);
          RankedMeaning(updated);
          room := room.(participants := Ranked(updated));
          activeRooms := activeRooms[roomCode := room];
          events := [LeaderboardUpdated(room.participants)];
        }
      }
    }

    /** `disconnect` (roomHandler.ts:81-84): nothing changes and nothing is emitted. */
    method Disconnect() returns (events: seq<Event>)
      requires Valid()
      ensures events == []
    {
      events := [];
    }
  }
}
