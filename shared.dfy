/**
 * The enumerations shared by the judge service, the backend and the lobby
 * (shared/types.ts), and the optional-value wrapper used for the source's
 * `undefined`, `None` and "not found" results.
 */
module Shared {

  /** `Option`: a JavaScript `undefined` / Python `None`, or a value. */
  datatype Option<+T> = None | Some(value: T)

  /** `AttemptStatus` of shared/types.ts: the verdict of one judged submission. */
  datatype AttemptStatus = Accepted | WrongAnswer | Tle | Mle | Error | Pending

  /** `RoomStatus` of shared/types.ts: the life cycle of a multiplayer room. */
  datatype RoomStatus = Waiting | InProgress | Finished

  /** `RankTier` of shared/types.ts, lowest first. */
  datatype RankTier = Recruit | Coder | Hacker | Architect | Legend

  /** The position of a tier on the ladder, Recruit = 0 ... Legend = 4. */
  function TierRank(t: RankTier): (n: nat)
    ensures n <= 4
    ensures n == 0 <==> t == Recruit
    ensures n == 4 <==> t == Legend
  {
    match t
    case Recruit => 0
    case Coder => 1
    case Hacker => 2
    case Architect => 3
    case Legend => 4
  }

}
