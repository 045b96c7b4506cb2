# Code Reality: judge, scoring and lobby core in Dafny

This project models the core of Code Reality, a coding-game platform, in three parts:

- **The Python judge service** (`judge-service/main.py`). `execute_python_code` runs a submission once per test case and compares the output with the expected output. It stops at the first failing case and reports a `JudgeResult`. The `/judge` endpoint sends Python submissions to it and rejects every other language.
- **The backend's `submitCode` controller** (`backend/src/controllers/judgeController.ts`). In order, it:
  1. rejects requests without a user (401);
  2. looks up the problem (404 if it is missing);
  3. posts the problem's test cases to the judge (500 if the judge cannot be reached);
  4. records a numbered attempt;
  5. for an accepted submission, adds a bonus that shrinks with every earlier attempt to the user's ranking and moves the ranking up the Recruit/Coder/Hacker/Architect/Legend ladder.
- **The multiplayer lobby** (`backend/src/sockets/roomHandler.ts`). This is an in-memory table of rooms changed by the socket events `create_room`, `join_room`, `start_game`, `submit_progress` and `disconnect`. On `submit_progress` the leaderboard is re-sorted by score, then by tests passed.

Module layout:

- `shared.dfy`, module `Shared`: the enumerations of `shared/types.ts` and an `Option` type.
- `judge.dfy`, module `Judge`: the judge service.
  - Each `subprocess.run` is replaced by an input `RunOutcome`: it exited with a code, output and duration; it timed out; or it raised.
  - `ExecutePythonCode` keeps the source's loop, its `break` and its local variables. It is proved equal to a reference fold over per-case verdicts (`Verdict`). The lemmas then say what that verdict means.
- `scoring.dfy`, module `Scoring`: `submitCode` as a method of the class `Store`, which holds the problems, attempts and rankings tables.
  - The judge service is a function parameter that returns `None` when the HTTP call fails.
  - The bonus, the tier ladder and attempt numbering are functions with lemmas.
- `rooms.dfy`, module `Rooms`: the lobby as the class `RoomRegistry`, which holds the `activeRooms` map.
  - Each socket handler is a method that returns the events it emits.
  - The leaderboard sort is a stable insertion sort, proved sorted, a permutation, id-preserving, and the identity on an already sorted list.

### Behaviour worth knowing

- **Comparison.**
  - The JSON comparison at `main.py:91-99` never runs, because `json` is not imported in `main.py`. The `NameError` is caught by the bare `except:`, so the comparison actually used is the fallback: the program's output is stripped, and spaces are removed from it and from the expected output.
  - As a result, `"5 "` is accepted for `"5"`.
  - The expected output is not stripped, so an expected `"5\n"` is never matched.
- **Judging stops at the first failing case.** The reported time is the sum of the times of the cases whose run exited, up to and including the first failing one; a case that timed out or raised adds nothing. The judge reports only `accepted`, `wrong_answer`, `tle` and `error`, and memory is always 0.
- **`create_room` overwrites.** It stores the room under its code even when that code is already in use, so the room that was there, with its participants, is replaced.
- **Anyone can start any existing room.** `start_game` accepts an existing room whoever asks and whatever its status.

## Model

| member | source | states |
|---|---|---|
| Shared.TierRank | shared/types.ts:9 | The position of a tier on the ladder, from 0 to 4. It is 0 exactly for Recruit and 4 exactly for Legend. `Scoring.TierOrderFollowsThresholds` ties the order in between to the thresholds. |
| Judge.StripRightMeaning | judge-service/main.py:85 | Python's right strip keeps a prefix, removes only whitespace and leaves no trailing whitespace. |
| Judge.StripLeftMeaning | judge-service/main.py:85 | Python's left strip keeps a suffix, removes only whitespace and leaves no leading whitespace. |
| Judge.Strip | judge-service/main.py:88 | `str.strip()` never lengthens the text, and the result neither starts nor ends with whitespace. |
| Judge.StripMeaning | judge-service/main.py:88 | `str.strip()` returns a contiguous piece of the text that is preceded only by whitespace and followed only by whitespace. |
| Judge.RemoveSpacesMeaning | judge-service/main.py:102-103 | `replace(" ", "")` leaves no space, keeps every other character with its multiplicity, and leaves a text without spaces unchanged. |
| Judge.CaseVerdictOf | judge-service/main.py:72-117 | A case passes if and only if the run exited with code 0 and its stripped output matches once spaces are dropped. Otherwise it fails in one of three ways. A non-zero exit is `error` with the stripped stderr. A mismatch is `wrong_answer` with the "Got: …, Expected: …" message. A timeout is `tle` with no message. Any other exception is `error` with its text. Only a run that exited contributes time. |
| Judge.ExecutePythonCode | judge-service/main.py:34-128 | The loop with its `break` and the final status choice compute exactly the reference verdict `Verdict` of the per-case outcomes. |
| Judge.Judge | judge-service/main.py:130-142 | `python` submissions get the verdict of running them. Any other language gets `error`, 0 passed, the case count, no time or memory, and "Language X not supported yet." |
| Judge.FoldMeaning | judge-service/main.py:71-119 | From any state the loop reaches, the fold counts the leading passes and reports the first failure's status, message and time. If there is no failure it reports `accepted` with the total time. |
| Judge.VerdictMeaning | judge-service/main.py:71-128 | The count passed is the number of leading cases that pass, out of all cases. If some case fails, the status, message and time include exactly the first failing case. Otherwise the result is `accepted` with no message and all the time. Memory is always 0. |
| Judge.AcceptedIffAllPass | judge-service/main.py:119 | The status is `accepted` if and only if every case passes, if and only if the count passed equals the number of cases. |
| Judge.PassedIsFirstFailure | judge-service/main.py:71-119 | If every case before `k` passes and case `k` fails, then `testsPassed` is `k` and the status is case `k`'s own. |
| Judge.StatusesProduced | judge-service/main.py:84-119 | The judge reports only `accepted`, `wrong_answer`, `tle` or `error`. It never reports `mle` or `pending`. |
| Judge.MessagePresence | judge-service/main.py:84-117 | There is an error message if and only if the status is neither `accepted` nor `tle`. |
| Judge.TimeOfFailingRun | judge-service/main.py:73-117 | On a failure, the time is the sum over the passing cases, plus the failing case's own time only if that run exited. |
| Judge.EmptyRunAccepted | judge-service/main.py:119 | With no test cases the verdict is `accepted`, 0 of 0, with no time and no message. |
| Judge.StripRightDropsTrailingSpace | judge-service/main.py:88 | Appending whitespace does not change the right strip. |
| Judge.TrailingWhitespaceIgnored | judge-service/main.py:88-104 | Whitespace printed after the answer never changes whether the output matches. |
| Judge.RemoveSpacesAppend | judge-service/main.py:102-103 | Removing spaces distributes over concatenation. |
| Judge.SpaceInExpectedIgnored | judge-service/main.py:103-104 | Inserting a space anywhere in the expected output does not change whether the output matches. |
| Judge.NewlineExamples | judge-service/main.py:88-104 | The program's trailing newline is ignored (`"5\n"` matches `"5"`), but an expected `"5\n"` is not matched even by the identical output. |
| Judge.TrailingSpaceExample | judge-service/main.py:88-104 | Output `"5 "` matches expected `"5"`. |
| Judge.ListSpaceExample | judge-service/main.py:102-104 | Output `"[1, 2]"` matches expected `"[1,2]"`. |
| Judge.TabExample | judge-service/main.py:88-104 | Output `"[1,2]\t"` does not match the identical expected text, because only the output is stripped. |
| Scoring.Bonus | backend/src/controllers/judgeController.ts:71 | The bonus is at most 100, a multiple of 5, and 0 exactly from the 20th earlier attempt on. |
| Scoring.BonusStep | backend/src/controllers/judgeController.ts:71 | Each further earlier attempt lowers the bonus by 5 until it is 0. |
| Scoring.BonusNonIncreasing | backend/src/controllers/judgeController.ts:71 | More earlier attempts never give a larger bonus. |
| Scoring.ClosedFormStep | backend/src/controllers/judgeController.ts:71 | Proof helper of `BonusTotalClosedForm` (which models this line): the integer identity that carries its induction from `m` to `m + 1` bonuses. |
| Scoring.BonusTotalClosedForm | backend/src/controllers/judgeController.ts:71 | When a user's first `k` ≤ 20 attempts on a problem are all accepted, their bonuses sum to `k(205 - 5k)/2`. |
| Scoring.BonusTotalBounded | backend/src/controllers/judgeController.ts:47-72 | When a user's first attempts on a problem are all accepted, their bonuses total at most 1050 points, exactly 1050 once there are 20 or more. |
| Scoring.BonusTotalMonotone | backend/src/controllers/judgeController.ts:71 | More accepted first attempts never earn fewer points. |
| Scoring.BonusSumBounded | backend/src/controllers/judgeController.ts:47-72 | Accepted submissions made after at least `m` earlier attempts, at strictly increasing counts, earn at most 1050 minus the bonuses of counts 0 to `m - 1`. |
| Scoring.AcceptedBonusesBounded | backend/src/controllers/judgeController.ts:47-72 | Whatever mix of failed and accepted attempts a user makes on one problem, the accepted ones earn at most 1050 bonus points in total. |
| Scoring.NewTier | backend/src/controllers/judgeController.ts:73-77 | Above 100 points, the tier is the highest whose threshold (100/200/500/1000) the new total strictly exceeds. At or below 100 points, the previous tier is kept. |
| Scoring.TierOrderFollowsThresholds | backend/src/controllers/judgeController.ts:74-77 | A tier is higher on the ladder exactly when its threshold (100/200/500/1000) is higher, and two tiers share a ladder position only if they are the same tier. |
| Scoring.TierBoundaries | backend/src/controllers/judgeController.ts:74-77 | The thresholds are strict: 1000 is Architect and 1001 is Legend, 500 is Hacker, 200 is Coder, and 100 keeps the tier. |
| Scoring.Award | backend/src/controllers/judgeController.ts:71-86 | An accepted submission adds the bonus to both the total and the skill score, and the tier follows the new total. The user and the other scores are unchanged. |
| Scoring.AwardMonotone | backend/src/controllers/judgeController.ts:71-86 | Scores never decrease. A ranking whose tier matches its total keeps its tier matching and never drops a tier. |
| Scoring.AwardCanDemoteStaleTier | backend/src/controllers/judgeController.ts:73-77 | A ranking whose tier is above what its total earns can be lowered: a 600-point Legend becomes an Architect. |
| Scoring.CountAttempts | backend/src/controllers/judgeController.ts:47 | The count of a user's attempts on a problem is at most the table size, and it is 0 exactly when there is no such attempt. |
| Scoring.RecordKeepsNumbering | backend/src/controllers/judgeController.ts:47-63 | Appending an attempt numbered one past the earlier count keeps every attempt numbered 1, 2, 3, … per user and problem. |
| Scoring.Store.constructor | backend/src/controllers/judgeController.ts:8 | An empty attempts table with rankings keyed by their user is a valid store. |
| Scoring.Store.SubmitCode | backend/src/controllers/judgeController.ts:8-95 | The early returns come in order: 401 "Unauthorized" and 404 "Problem not found", neither calling the judge nor changing anything, then 500 "Execution engine unavailable" after posting the problem's cases. Otherwise the next-numbered attempt is appended and returned with 200. The user's ranking row, if any, is updated by `Award` only when the status is `accepted`. Attempt numbering and ranking keys stay valid. |
| Rooms.FindIndex | backend/src/sockets/roomHandler.ts:45 | `find` by user id returns the first participant with that id, or nothing if and only if no participant has it. |
| Rooms.JoinedMeaning | backend/src/sockets/roomHandler.ts:45-47 | Joining appends a 0-point newcomer if and only if the user was absent, and keeps everyone else in place. A user already present leaves the list unchanged. The ids gain exactly the user, distinct ids stay distinct, and joining again changes nothing. |
| Rooms.IdsCons | backend/src/sockets/roomHandler.ts:75 | Proof helper of `InsertIds` and `RankedIds` (which model the sort on this line): the ids of a list with one participant in front, and when they are distinct. |
| Rooms.Insert | backend/src/sockets/roomHandler.ts:75 | One insertion step of the leaderboard sort adds exactly the inserted participant to the list. |
| Rooms.InsertBelow | backend/src/sockets/roomHandler.ts:75 | Anyone ranking at least as high as the inserted participant and as everyone in the list still does after the insertion. |
| Rooms.InsertSorted | backend/src/sockets/roomHandler.ts:75 | Inserting into a sorted leaderboard keeps it sorted. |
| Rooms.InsertIds | backend/src/sockets/roomHandler.ts:75 | Inserting adds exactly the participant's id, and keeps ids distinct when that id is new. |
| Rooms.Ranked | backend/src/sockets/roomHandler.ts:75 | The sorted leaderboard is a permutation of the participants. |
| Rooms.RankedSorted | backend/src/sockets/roomHandler.ts:75 | The leaderboard is ordered by score descending, then by tests passed descending. |
| Rooms.RankedIds | backend/src/sockets/roomHandler.ts:75 | The leaderboard has exactly the ids of the room's participants. |
| Rooms.RankedDistinct | backend/src/sockets/roomHandler.ts:75 | Distinct participant ids stay distinct on the leaderboard. |
| Rooms.RankedMeaning | backend/src/sockets/roomHandler.ts:75 | The leaderboard is ordered by score descending, then tests passed descending, with the same ids, distinct if they were. |
| Rooms.RankedKeepsSortedList | backend/src/sockets/roomHandler.ts:75 | Like the stable `Array.prototype.sort`, sorting a list already in order, ties included, leaves it unchanged. |
| Rooms.ProgressMeaning | backend/src/sockets/roomHandler.ts:70-73 | A progress report sets the reporting participant's score and tests passed and changes nobody else, so the ids stay the same and stay distinct. |
| Rooms.RoomRegistry.constructor | backend/src/sockets/roomHandler.ts:12 | The registry starts with no rooms. |
| Rooms.RoomRegistry.CreateRoom | backend/src/sockets/roomHandler.ts:18-32 | The code now maps to a waiting room whose host is its only, 0-point participant, replacing any room there, and `room_updated` is emitted. |
| Rooms.RoomRegistry.JoinRoom | backend/src/sockets/roomHandler.ts:34-51 | An unknown code gives "Room not found" and a room that is not waiting gives "Game already in progress", both without change. Otherwise the user is added unless present and `room_updated` is emitted. |
| Rooms.RoomRegistry.StartGame | backend/src/sockets/roomHandler.ts:53-65 | An existing room goes in progress with the chosen problem, and `game_started` then `room_updated` are emitted. An unknown code changes nothing. |
| Rooms.RoomRegistry.SubmitProgress | backend/src/sockets/roomHandler.ts:67-79 | The participant's score and tests passed are set, the room's list becomes the re-sorted leaderboard, and `leaderboard_updated` is emitted. An unknown room or user changes nothing. Every room stays keyed by its code, unfinished, with distinct ids and its host present. |
| Rooms.RoomRegistry.Disconnect | backend/src/sockets/roomHandler.ts:81-84 | A disconnect emits nothing, and the table is not in its frame. |

## Left out

- Running code: the temporary directory, the generated runner script (which calls, with the JSON-decoded input, the user function whose name sorts last, since `inspect.getmembers` returns members sorted by name), the `python3` subprocess and its timeout of `timeLimitMs / 1000` seconds. Each run's result is an input `RunOutcome`, one per test case. Outcomes of cases after the first failure are ignored, as those cases are never run.
- The JSON comparison (`main.py:91-99`): it never runs, because `json` is not imported in `main.py`.
- Judge.ExecutePythonCode: time is the sum of per-case whole milliseconds. The source sums float seconds measured by `time.time()` and truncates once with `int(overall_exec_time * 1000)`.
- The `/health` endpoint, FastAPI and pydantic validation, including the default limits of 2000 ms and 256 MB.
- Scoring.Store.SubmitCode:
  - the outer `try/catch` that answers 500 "Internal server error" when a database call throws;
  - the race between `attempt.count` and `attempt.create` under concurrent submissions, because the model runs one request at a time;
  - the model takes the judge's reply to have a known status, and the source stores whatever the judge returned;
  - numbers are unbounded integers, not JavaScript doubles.
- The creation of ranking rows, done by the dashboard controller, which is not part of this model. `submitCode` updates an existing row only.
- The random room code (`Math.random().toString(36)`) and the random choice among up to ten problems in `start_game`. Both are parameters of the methods.
- The socket.io layer: connections, `socket.join`, and delivery of emitted events. The methods return the events in emission order, each with its payload. `game_started` carries the chosen problem's id instead of the whole problem.
- Rooms.RoomRegistry: rooms are values in the map, so the model does not capture that a `room_updated` payload aliases the stored room object.
- Rooms.RoomRegistry.StartGame: every handler is modelled as one atomic step, and the wait for `prisma.problem.findMany` in `start_game` is taken at its end. The model does not capture another handler running during that wait. For example, a `create_room` that replaces the room under the same code would leave the source updating and emitting the old, detached room. A failed query, which in the source leaves the room unchanged and emits nothing, is not modelled either.
- Rooms.RankedKeepsSortedList: stability is stated as "a sorted list is left unchanged", not as the full order-preservation of ties.
- Rooms.Ranked: the comparator's subtraction is modelled on unbounded integers, so `NaN` scores are not modelled.
