/** The per-user, per-day limiter in front of the AI endpoints
    (WebSite/BackEnd/app/services/ai_usage_service.py). */
module AiUsageService {
  import opened Common
  import Models

  /** Counters keyed by (user, day). */
  type Usage = map<(Id, Time), int>

  /** Every counter is within the limit. */
  predicate WithinLimit(usage: Usage, limit: int) {
    forall k :: k in usage ==> 1 <= usage[k] <= limit
  }

  /** The outcome of `enforce_ai_limit` and the counters after it. */
  datatype Outcome = Outcome(result: Result<()>, usage: Usage)

  /** `enforce_ai_limit`: a limit of 0 or less disables the limiter; the first
      call of the day starts the counter at 1; a counter already at the limit
      refuses with 429 and stays; otherwise it goes up by one. */
  function Enforce(usage: Usage, userId: Id, today: Time, limit: int): (o: Outcome)
    ensures limit <= 0 ==> o == Outcome(Ok(()), usage)
    ensures o.result.Err? ==> o.result.error == AppError(429, "ai_rate_limited") && o.usage == usage
    ensures o.result.Err? <==> limit > 0 && (userId, today) in usage && usage[(userId, today)] >= limit
    ensures o.usage.Keys == usage.Keys + (if limit > 0 then {(userId, today)} else {})
    ensures forall k :: k in usage && k != (userId, today) ==> o.usage[k] == usage[k]
    ensures limit > 0 && o.result.Ok? ==>
      o.usage[(userId, today)] == (if (userId, today) in usage then usage[(userId, today)] + 1 else 1)
  {
    var key := (userId, today);
    if limit <= 0 then Outcome(Ok(()), usage)
    else if key !in usage then Outcome(Ok(()), usage[key := 1])
    else if usage[key] >= limit then Outcome(Err(AppError(429, "ai_rate_limited")), usage)
    else Outcome(Ok(()), usage[key := usage[key] + 1])
  }

  /** With a positive limit no counter ever passes it. */
  lemma EnforceWithinLimit(usage: Usage, userId: Id, today: Time, limit: int)
    requires limit >= 1 && WithinLimit(usage, limit)
    ensures WithinLimit(Enforce(usage, userId, today, limit).usage, limit)
  {
  }

  /** The counters after a series of calls by one user on one day. */
  function EnforceAll(usage: Usage, userId: Id, today: Time, limit: int, calls: nat): Outcome
    decreases calls
  {
    var o := Enforce(usage, userId, today, limit);
    if calls <= 1 then o else EnforceAll(o.usage, userId, today, limit, calls - 1)
  }

  /** Starting from no use that day, `limit` calls are all let through and the
      next one is refused. */
  lemma {:induction false} LimitReached(usage: Usage, userId: Id, today: Time, limit: int, n: nat)
    requires limit >= 1 && (userId, today) !in usage && 1 <= n <= limit
    ensures var o := EnforceAll(usage, userId, today, limit, n);
      o.result.Ok? && (userId, today) in o.usage && o.usage[(userId, today)] == n
    ensures n == limit ==>
      Enforce(EnforceAll(usage, userId, today, limit, n).usage, userId, today, limit).result.Err?
    decreases n
  {
    if n > 1 {
      LimitReachedStep(usage, userId, today, limit, n - 1);
    }
  }

  lemma {:induction false} LimitReachedStep(usage: Usage, userId: Id, today: Time, limit: int, n: nat)
    requires limit >= 1 && (userId, today) !in usage && 1 <= n < limit
    ensures var o := EnforceAll(usage, userId, today, limit, n + 1);
      o.result.Ok? && (userId, today) in o.usage && o.usage[(userId, today)] == n + 1
    decreases n
  {
    var o1 := Enforce(usage, userId, today, limit);
    assert o1.usage[(userId, today)] == 1;
    if n == 1 {
    } else {
      LimitReachedFrom(o1.usage, userId, today, limit, 1, n);
    }
  }

  /** From a counter at `c`, `k` more calls take it to `c + k` while that stays
      within the limit. */
  lemma {:induction false} LimitReachedFrom(usage: Usage, userId: Id, today: Time, limit: int, c: nat, k: nat)
    requires (userId, today) in usage && usage[(userId, today)] == c
    requires 1 <= k && c + k <= limit
    ensures var o := EnforceAll(usage, userId, today, limit, k);
      o.result.Ok? && (userId, today) in o.usage && o.usage[(userId, today)] == c + k
    decreases k
  {
    var o1 := Enforce(usage, userId, today, limit);
    if k > 1 {
      LimitReachedFrom(o1.usage, userId, today, limit, c + 1, k - 1);
    }
  }

  /** The method behind `enforce_ai_limit`, on the store. */
  method EnforceAiLimit(db: Models.Db, userId: Id, today: Time, limit: int) returns (r: Result<()>)
    modifies db`aiUsage
    ensures Outcome(r, db.aiUsage) == Enforce(old(db.aiUsage), userId, today, limit)
  {
    if limit <= 0 {
      return Ok(());
    }
    var key := (userId, today);
    if key !in db.aiUsage {
      db.aiUsage := db.aiUsage[key := 1];
      return Ok(());
    }
    if db.aiUsage[key] >= limit {
      return Err(AppError(429, "ai_rate_limited"));
    }
    db.aiUsage := db.aiUsage[key := db.aiUsage[key] + 1];
    r := Ok(());
  }
}
