/**
 * The submission handler of the backend
 * (backend/src/controllers/judgeController.ts, compiled to
 * backend/dist/controllers/judgeController.js): authorise, look the problem
 * up, ask the judge service, record the attempt, and on an accepted verdict
 * award a decaying bonus to the user's ranking and move the tier.
 *
 * The database is a `Store` object whose tables are fields; the HTTP call to
 * the judge service is a function from the request to its reply, `None`
 * when the call throws.
 */
module Scoring {
  import opened Shared
  import Judge

  /** A problem row with its test cases and limits. */
  datatype Problem = Problem(id: string, testCases: seq<Judge.TestCase>, timeLimitMs: int, memoryLimitMb: int)

  /** An attempt row as `submitCode` creates it. */
  datatype Attempt = Attempt(
    userId: string,
    problemId: string,
    language: string,
    code: string,
    status: AttemptStatus,
    testsPassed: nat,
    testsTotal: nat,
    execTimeMs: nat,
    memoryMb: nat,
    attemptNumber: nat)

  /** A ranking row. */
  datatype Ranking = Ranking(
    userId: string,
    skillScore: int,
    consistencyScore: int,
    codeQualityScore: int,
    totalScore: int,
    tier: RankTier)

  /** The JSON body sent back: `{success: false, error}` or `{success: true, data: attempt}`. */
  datatype Body = Failed(error: string) | Created(attempt: Attempt)

  datatype Response = Response(httpStatus: nat, body: Body)

  // ---------------------------------------------------------------------------
  // The bonus
  // ---------------------------------------------------------------------------

  /**
   * The points an accepted submission earns when the user already made
   * `prevAttempts` attempts on the problem: `Math.max(0, 100 - prevAttempts * 5)`
   * (judgeController.ts:71).
   */
  function Bonus(prevAttempts: nat): (b: nat)
    ensures b <= 100 && b % 5 == 0
    ensures b == 0 <==> prevAttempts >= 20
  {
    if 100 - prevAttempts * 5 > 0 then 100 - prevAttempts * 5 else 0
  }

  /** Each further attempt lowers the bonus by 5 until it reaches 0. */
  lemma BonusStep(n: nat)
    ensures Bonus(n + 1) == if Bonus(n) == 0 then 0 else Bonus(n) - 5
  {
  }

  /** The bonus never grows with the number of earlier attempts. */
  lemma BonusNonIncreasing(m: nat, n: nat)
    requires m <= n
    ensures Bonus(n) <= Bonus(m)
  {
  }

  /**
   * The points earned by `k` accepted submissions of one problem when they
   * are the user's first `k` attempts on it (earlier counts 0, 1, ..., k - 1).
   */
  function BonusTotal(k: nat): nat {
    if k == 0 then 0 else BonusTotal(k - 1) + Bonus(k - 1)
  }

  /** One step of the closed form: the product for `m + 1` in terms of the product for `m`. */
  lemma ClosedFormStep(m: int)
    ensures (m + 1) * (205 - 5 * (m + 1)) == m * (205 - 5 * m) + 200 - 10 * m
  {
    var x := 205 - 5 * m;
    assert 205 - 5 * (m + 1) == x - 5;
    assert (m + 1) * (x - 5) == m * (x - 5) + (x - 5);
    assert m * (x - 5) == m * x - 5 * m;
  }

  /** When a user's first `k` <= 20 attempts on a problem are all accepted, their bonuses sum to `k(205 - 5k)/2`. */
  lemma {:induction false} BonusTotalClosedForm(k: nat)
    requires k <= 20
    ensures 2 * BonusTotal(k) == k * (205 - 5 * k)
  {
    if k > 0 {
      var m := k - 1;
      BonusTotalClosedForm(m);
      assert Bonus(m) == 100 - 5 * m;
      assert 2 * BonusTotal(k) == 2 * BonusTotal(m) + 2 * Bonus(m);
      ClosedFormStep(m);
    }
  }

  lemma QuadraticBound(k: nat)
    requires k <= 20
    ensures k * (205 - 5 * k) <= 2100
  {
    var m := 20 - k;
    assert k * (205 - 5 * k) == (20 - m) * (105 + 5 * m);
    assert (20 - m) * (105 + 5 * m) == 2100 - 5 * m - 5 * (m * m);
    assert m * m >= 0;
  }

  /**
   * When a user's first attempts on a problem are all accepted, their
   * bonuses add up to at most 1050 points, reached after 20 of them.
   */
  lemma {:induction false} BonusTotalBounded(k: nat)
    ensures BonusTotal(k) <= 1050
    ensures k >= 20 ==> BonusTotal(k) == 1050
  {
    if k <= 20 {
      BonusTotalClosedForm(k);
      BonusTotalClosedForm(20);
      QuadraticBound(k);
    } else {
      BonusTotalBounded(k - 1);
    }
  }

  /** More accepted first attempts never earn fewer points. */
  lemma {:induction false} BonusTotalMonotone(m: nat, n: nat)
    requires m <= n
    ensures BonusTotal(m) <= BonusTotal(n)
    decreases n - m
  {
    if m < n {
      BonusTotalMonotone(m, n - 1);
    }
  }

  /**
   * The points earned by accepted submissions of one problem whose counts
   * of earlier attempts (failed ones included) are `ns`.
   */
  function BonusSum(ns: seq<nat>): nat {
    if ns == [] then 0 else Bonus(ns[0]) + BonusSum(ns[1..])
  }

  /**
   * Accepted submissions made after at least `m` earlier attempts, at
   * strictly increasing counts, earn together with the bonuses of counts
   * 0 .. m - 1 at most 1050 points.
   */
  lemma {:induction false} BonusSumBounded(ns: seq<nat>, m: nat)
    requires forall i :: 0 <= i < |ns| ==> ns[i] >= m
    requires forall i, j :: 0 <= i < j < |ns| ==> ns[i] < ns[j]
    ensures BonusSum(ns) + BonusTotal(m) <= 1050
    decreases |ns|
  {
    if ns == [] {
      BonusTotalBounded(m);
    } else {
      BonusSumBounded(ns[1..], ns[0] + 1);
      BonusTotalMonotone(m, ns[0]);
    }
  }

  /**
   * Whatever mix of failed and accepted attempts a user makes on one
   * problem, the accepted ones earn at most 1050 bonus points in total:
   * every attempt raises the count of earlier attempts, so the accepted
   * submissions have strictly increasing counts.
   */
  lemma AcceptedBonusesBounded(ns: seq<nat>)
    requires forall i, j :: 0 <= i < j < |ns| ==> ns[i] < ns[j]
    ensures BonusSum(ns) <= 1050
  {
    BonusSumBounded(ns, 0);
  }

  // ---------------------------------------------------------------------------
  // The tier ladder
  // ---------------------------------------------------------------------------

  /** The total a ranking must strictly exceed to reach tier `t` (Recruit needs nothing). */
  function Threshold(t: RankTier): int {
    match t
    case Recruit => 0
    case Coder => 100
    case Hacker => 200
    case Architect => 500
    case Legend => 1000
  }

  /** The ladder order is the order of the thresholds: a higher tier needs a strictly higher total. */
  lemma TierOrderFollowsThresholds(t: RankTier, u: RankTier)
    ensures TierRank(t) < TierRank(u) <==> Threshold(t) < Threshold(u)
    ensures TierRank(t) == TierRank(u) <==> t == u
  {
  }

  /** A total of `total` earns tier `t`. */
  predicate Earns(total: int, t: RankTier) {
    t == Recruit || total > Threshold(t)
  }

  /**
   * The tier after an accepted submission (judgeController.ts:73-77): above
   * 100 points the highest tier whose threshold the new total strictly
   * exceeds; at or below 100 points the previous tier is kept.
   */
  function NewTier(newTotal: int, tier: RankTier): (t: RankTier)
    ensures newTotal > 100 ==> Earns(newTotal, t) && forall u :: Earns(newTotal, u) ==> TierRank(u) <= TierRank(t)
    ensures newTotal <= 100 ==> t == tier
  {
    if newTotal > 1000 then Legend
    else if newTotal > 500 then Architect
    else if newTotal > 200 then Hacker
    else if newTotal > 100 then Coder
    else tier
  }

  /** The thresholds are strict: exactly 1000 points is Architect, 1001 is Legend, exactly 100 keeps the tier. */
  lemma TierBoundaries(tier: RankTier)
    ensures NewTier(1000, tier) == Architect && NewTier(1001, tier) == Legend
    ensures NewTier(500, tier) == Hacker && NewTier(200, tier) == Coder
    ensures NewTier(100, tier) == tier && NewTier(101, tier) == Coder
  {
  }

  /** A ranking whose tier is the one its total earns, Recruit at or below 100 points. */
  predicate TierMatchesTotal(r: Ranking) {
    r.tier == NewTier(r.totalScore, Recruit)
  }

  /**
   * The ranking update of an accepted submission (judgeController.ts:71-86):
   * total and skill score grow by the bonus, the tier follows the new total,
   * nothing else changes.
   */
  function Award(r: Ranking, prevAttempts: nat): (r': Ranking)
    ensures r'.totalScore == r.totalScore + Bonus(prevAttempts)
    ensures r'.skillScore == r.skillScore + Bonus(prevAttempts)
    ensures r'.tier == NewTier(r'.totalScore, r.tier)
    ensures r'.userId == r.userId && r'.consistencyScore == r.consistencyScore
            && r'.codeQualityScore == r.codeQualityScore
  {
    var bonus := Bonus(prevAttempts);
    var newTotal := r.totalScore + bonus;
    r.(totalScore := newTotal, skillScore := r.skillScore + bonus, tier := NewTier(newTotal, r.tier))
  }

  /**
   * An award never lowers a score, and for a ranking whose tier matches its
   * total (as the Recruit ranking with 0 points the dashboard creates does)
   * it keeps the tier matching and never lowers it.
   */
  lemma AwardMonotone(r: Ranking, prevAttempts: nat)
    ensures Award(r, prevAttempts).totalScore >= r.totalScore
    ensures Award(r, prevAttempts).skillScore >= r.skillScore
    ensures TierMatchesTotal(r) ==>
              TierMatchesTotal(Award(r, prevAttempts)) && TierRank(Award(r, prevAttempts).tier) >= TierRank(r.tier)
  {
  }

  /**
   * For a ranking whose tier does not match its total, an award can lower
   * the tier: a Legend with 600 points becomes an Architect.
   */
  lemma AwardCanDemoteStaleTier()
    ensures Award(Ranking("u", 600, 0, 0, 600, Legend), 0).tier == Architect
  {
  }

  // ---------------------------------------------------------------------------
  // Attempts
  // ---------------------------------------------------------------------------

  /** `prisma.attempt.count({where: {userId, problemId}})`. */
  function CountAttempts(attempts: seq<Attempt>, userId: string, problemId: string): (n: nat)
    ensures n <= |attempts|
    ensures n == 0 <==> forall i :: 0 <= i < |attempts| ==>
                          attempts[i].userId != userId || attempts[i].problemId != problemId
  {
    if attempts == [] then 0
    else
      var last := attempts[|attempts| - 1];
      CountAttempts(attempts[..|attempts| - 1], userId, problemId)
        + (if last.userId == userId && last.problemId == problemId then 1 else 0)
  }

  /**
   * Attempts are numbered 1, 2, 3, ... per user and problem: each one's
   * number is the count of that user's attempts on that problem up to and
   * including it.
   */
  predicate AttemptsNumbered(attempts: seq<Attempt>) {
    forall i :: 0 <= i < |attempts| ==>
      attempts[i].attemptNumber == CountAttempts(attempts[..i + 1], attempts[i].userId, attempts[i].problemId)
  }

  /** The attempt `submitCode` records (judgeController.ts:50-63): the judge's fields verbatim, numbered after the earlier ones. */
  function NewAttempt(userId: string, problemId: string, language: string, code: string,
                      result: Judge.JudgeResult, prevAttempts: nat): Attempt
  {
    Attempt(userId, problemId, language, code, result.status, result.testsPassed, result.testsTotal,
            result.execTimeMs, result.memoryMb, prevAttempts + 1)
  }

  /** Recording an attempt numbered after the earlier ones of its user and problem keeps the numbering. */
  lemma {:induction false} RecordKeepsNumbering(attempts: seq<Attempt>, a: Attempt)
    requires AttemptsNumbered(attempts)
    requires a.attemptNumber == CountAttempts(attempts, a.userId, a.problemId) + 1
    ensures AttemptsNumbered(attempts + [a])
  {
    var s := attempts + [a];
    forall i | 0 <= i < |s|
      ensures s[i].attemptNumber == CountAttempts(s[..i + 1], s[i].userId, s[i].problemId)
    {
      if i < |attempts| {
        assert s[..i + 1] == attempts[..i + 1];
      } else {
        assert s[..i + 1] == s;
        assert s[..|s| - 1] == attempts;
      }
    }
  }

  /** `!userId` in JavaScript: a missing user id or the empty string. */
  predicate Authorized(userId: Option<string>) {
    userId.Some? && userId.value != ""
  }

  /** The request `submitCode` posts to the judge service (judgeController.ts:32-38). */
  function RequestFor(problem: Problem, language: string, code: string): Judge.JudgeRequest {
    Judge.JudgeRequest(language, code, problem.testCases, problem.timeLimitMs, problem.memoryLimitMb)
  }

  /** The database tables `submitCode` reads and writes. */
  class Store {
    var problems: map<string, Problem>
    var attempts: seq<Attempt>
    var rankings: map<string, Ranking>

    /** Rankings are keyed by their user, attempts are numbered per user and problem. */
    ghost predicate Valid()
      reads this
    {
      && AttemptsNumbered(attempts)
      && (forall u :: u in rankings ==> rankings[u].userId == u)
    }

    constructor (problems: map<string, Problem>, rankings: map<string, Ranking>)
      requires forall u :: u in rankings ==> rankings[u].userId == u
      ensures Valid()
      ensures this.problems == problems && this.rankings == rankings && attempts == []
    {
      this.problems := problems;
      this.attempts := [];
      this.rankings := rankings;
    }

    /**
     * `submitCode` (judgeController.ts:8-95). `judgeService` answers the
     * request posted to the judge, `None` when the call throws; `posted` is
     * the request that was posted, `None` when the judge was not called.
     */
    method SubmitCode(userId: Option<string>, problemId: string, language: string, code: string,
                      judgeService: Judge.JudgeRequest -> Option<Judge.JudgeResult>)
      returns (response: Response, posted: Option<Judge.JudgeRequest>)
      requires Valid()
      modifies this
      ensures Valid()
      ensures problems == old(problems)
      ensures !Authorized(userId) ==>
                && response == Response(401, Failed("Unauthorized")) && posted.None?
                && attempts == old(attempts) && rankings == old(rankings)
      ensures Authorized(userId) && problemId !in problems ==>
                && response == Response(404, Failed("Problem not found")) && posted.None?
                && attempts == old(attempts) && rankings == old(rankings)
      ensures Authorized(userId) && problemId in problems ==>
                posted == Some(RequestFor(problems[problemId], language, code))
      ensures Authorized(userId) && problemId in problems && judgeService(posted.value).None? ==>
                && response == Response(500, Failed("Execution engine unavailable"))
                && attempts == old(attempts) && rankings == old(rankings)
      ensures Authorized(userId) && problemId in problems && judgeService(posted.value).Some? ==>
                var uid := userId.value;
                var result := judgeService(posted.value).value;
                var prev := CountAttempts(old(attempts), uid, problemId);
                var attempt := NewAttempt(uid, problemId, language, code, result, prev);
                && attempts == old(attempts) + [attempt]
                && response == Response(200, Created(attempt))
                && rankings == if result.status == Accepted && uid in old(rankings)
                               then old(rankings)[uid := Award(old(rankings)[uid], prev)]
                               else old(rankings)
    {
      if !Authorized(userId) {
        return Response(401, Failed("Unauthorized")), None;
      }
      var uid := userId.value;
      if problemId !in problems {
        return Response(404, Failed("Problem not found")), None;
      }
      var problem := problems[problemId];
      posted := Some(RequestFor(problem, language, code));
      var reply := judgeService(posted.value);
      if reply.None? {
        return Response(500, Failed("Execution engine unavailable")), posted;
      }
      var judgeResult := reply.value;
      var prevAttempts := CountAttempts(attempts, uid, problemId);
      var attempt := NewAttempt(uid, problemId, language, code, judgeResult, prevAttempts);
      RecordKeepsNumbering(attempts, attempt);
      attempts := attempts + [attempt];
      if judgeResult.status == Accepted {
        if uid in rankings {
          var ranking := rankings[uid];
          rankings := rankings[uid := Award(ranking, prevAttempts)];
        }
      }
      response := Response(200, Created(attempt));
    }
  }
}
