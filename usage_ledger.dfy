/**
 * Token and cost extraction from one record, and the per-day ledger that counts
 * each message `uuid` at most once.
 */
module UsageLedger {
  import opened Wrappers
  import opened Records

  /** What one record contributes: a token count and a cost. */
  datatype Charge = Charge(tokens: int, cost: real)

  /** The four subcounts added up, a missing one counting as 0 (`usage.x || 0`). */
  function TokenCount(u: Usage): int {
    u.inputTokens.GetOr(0) + u.outputTokens.GetOr(0)
    + u.cacheCreationInputTokens.GetOr(0) + u.cacheReadInputTokens.GetOr(0)
  }

  /** Each subcount times its rate, a missing rate counting as 0. */
  function CostOf(u: Usage, rates: Rates): real {
    (u.inputTokens.GetOr(0) as real) * rates.inputCostPerToken.GetOr(0.0)
    + (u.outputTokens.GetOr(0) as real) * rates.outputCostPerToken.GetOr(0.0)
    + (u.cacheCreationInputTokens.GetOr(0) as real) * rates.cacheCreationInputTokenCost.GetOr(0.0)
    + (u.cacheReadInputTokens.GetOr(0) as real) * rates.cacheReadInputTokenCost.GetOr(0.0)
  }

  /** The record predates the tracked day. An unparseable or missing timestamp never does. */
  predicate IsBeforeDay(r: Record, todayStart: int) {
    match TimeOf(r.timestamp)
    case Some(t) => t < todayStart
    case None => false
  }

  /** The record's model has a truthy name that the pricing table knows. */
  predicate IsPriced(m: Message, pricing: Pricing) {
    IsTruthy(m.model) && m.model.value in pricing
  }

  /** `getTokensAndCostFromMessage`. */
  function TokensAndCost(r: Record, todayStart: int, pricing: Pricing): (c: Charge)
    ensures r.message.None? || r.message.value.usage.None? || IsBeforeDay(r, todayStart) ==> c == Charge(0, 0.0)
    ensures c.cost != 0.0 ==> r.message.Some? && IsPriced(r.message.value, pricing)
  {
    if r.message.None? || r.message.value.usage.None? then Charge(0, 0.0)
    else if IsBeforeDay(r, todayStart) then Charge(0, 0.0)
    else
      var m := r.message.value;
      var u := m.usage.value;
      Charge(TokenCount(u), if IsPriced(m, pricing) then CostOf(u, pricing[m.model.value]) else 0.0)
  }

  /** The token count does not depend on the pricing table: unpriced usage still counts. */
  lemma TokensIgnorePricing(r: Record, todayStart: int, p1: Pricing, p2: Pricing)
    ensures TokensAndCost(r, todayStart, p1).tokens == TokensAndCost(r, todayStart, p2).tokens
  {
  }

  /**
   * A record with usage on or after the day start is charged the sum of its four subcounts,
   * a missing one counting as 0, and the rated cost when its model is priced, 0 otherwise.
   */
  lemma ChargeOfUsage(r: Record, todayStart: int, pricing: Pricing)
    requires r.message.Some? && r.message.value.usage.Some? && !IsBeforeDay(r, todayStart)
    ensures var u := r.message.value.usage.value;
            var c := TokensAndCost(r, todayStart, pricing);
            && c.tokens == u.inputTokens.GetOr(0) + u.outputTokens.GetOr(0)
                           + u.cacheCreationInputTokens.GetOr(0) + u.cacheReadInputTokens.GetOr(0)
            && c.cost == if IsPriced(r.message.value, pricing) then CostOf(u, pricing[r.message.value.model.value]) else 0.0
  {
  }

  /**
   * 1000 input and 500 output tokens at 0.000003 and 0.000015 per token cost 0.0105;
   * the same usage under a model the table does not know costs 0 and still counts 1500 tokens.
   */
  lemma CostExample(ts: int)
    ensures var u := Usage(Some(1000), Some(500), Some(0), Some(0));
            var m := Message(None, Some("assistant"), Some("message"), Some("m"), None, Some(u));
            var pricing := map["m" := Rates(Some(0.000003), Some(0.000015), None, None)];
            && TokensAndCost(Record(Some(m), Millis(ts), Some("u")), ts, pricing) == Charge(1500, 0.0105)
            && TokensAndCost(Record(Some(m.(model := Some("other"))), Millis(ts), Some("u")), ts, pricing) == Charge(1500, 0.0)
  {
  }

  /** Non-negative subcounts and rates give a non-negative charge. */
  lemma ChargeIsNonNegative(r: Record, todayStart: int, pricing: Pricing)
    requires r.message.Some? && r.message.value.usage.Some? ==> UsageIsNonNegative(r.message.value.usage.value)
    requires forall m :: m in pricing ==> RatesAreNonNegative(pricing[m])
    ensures TokensAndCost(r, todayStart, pricing).tokens >= 0
    ensures TokensAndCost(r, todayStart, pricing).cost >= 0.0
  {
    if r.message.Some? && r.message.value.usage.Some? && !IsBeforeDay(r, todayStart) {
      var m := r.message.value;
      if IsPriced(m, pricing) {
        CostIsNonNegative(m.usage.value, pricing[m.model.value]);
      }
    }
  }

  predicate UsageIsNonNegative(u: Usage) {
    && u.inputTokens.GetOr(0) >= 0 && u.outputTokens.GetOr(0) >= 0
    && u.cacheCreationInputTokens.GetOr(0) >= 0 && u.cacheReadInputTokens.GetOr(0) >= 0
  }

  predicate RatesAreNonNegative(rates: Rates) {
    && rates.inputCostPerToken.GetOr(0.0) >= 0.0 && rates.outputCostPerToken.GetOr(0.0) >= 0.0
    && rates.cacheCreationInputTokenCost.GetOr(0.0) >= 0.0 && rates.cacheReadInputTokenCost.GetOr(0.0) >= 0.0
  }

  lemma CostIsNonNegative(u: Usage, rates: Rates)
    requires UsageIsNonNegative(u) && RatesAreNonNegative(rates)
    ensures CostOf(u, rates) >= 0.0
  {
    ProductIsNonNegative(u.inputTokens.GetOr(0) as real, rates.inputCostPerToken.GetOr(0.0));
    ProductIsNonNegative(u.outputTokens.GetOr(0) as real, rates.outputCostPerToken.GetOr(0.0));
    ProductIsNonNegative(u.cacheCreationInputTokens.GetOr(0) as real, rates.cacheCreationInputTokenCost.GetOr(0.0));
    ProductIsNonNegative(u.cacheReadInputTokens.GetOr(0) as real, rates.cacheReadInputTokenCost.GetOr(0.0));
  }

  lemma ProductIsNonNegative(a: real, b: real)
    requires a >= 0.0 && b >= 0.0
    ensures a * b >= 0.0
  {
  }

  // ---------------------------------------------------------------------------
  // The ledger
  // ---------------------------------------------------------------------------

  /** The ledger's state: `todayTokens`, `todayCost` and `processedMessages`. */
  datatype Totals = Totals(tokens: int, cost: real, processed: set<string>)

  /** The ledger right after construction or a reset. */
  const NoTotals := Totals(0, 0.0, {})

  /** The record passes the guard: tokens > 0, a truthy `uuid`, and that `uuid` not yet processed. */
  predicate Counts(t: Totals, r: Record, todayStart: int, pricing: Pricing) {
    && TokensAndCost(r, todayStart, pricing).tokens > 0
    && IsTruthy(r.uuid)
    && r.uuid.value !in t.processed
  }

  /** The record would be counted by a ledger that had not seen its `uuid`. */
  predicate IsCountable(r: Record, todayStart: int, pricing: Pricing) {
    TokensAndCost(r, todayStart, pricing).tokens > 0 && IsTruthy(r.uuid)
  }

  /** Applying one record to the ledger (the guarded block shared by every accounting loop). */
  function Step(t: Totals, r: Record, todayStart: int, pricing: Pricing): (u: Totals)
    ensures t.processed <= u.processed
    ensures IsCountable(r, todayStart, pricing) ==> r.uuid.value in u.processed
    ensures !Counts(t, r, todayStart, pricing) ==> u == t
  {
    var c := TokensAndCost(r, todayStart, pricing);
    if Counts(t, r, todayStart, pricing) then
      Totals(t.tokens + c.tokens, t.cost + c.cost, t.processed + {r.uuid.value})
    else t
  }

  /** Applying a record a second time changes nothing. */
  lemma StepIdempotent(t: Totals, r: Record, todayStart: int, pricing: Pricing)
    ensures Step(Step(t, r, todayStart, pricing), r, todayStart, pricing) == Step(t, r, todayStart, pricing)
  {
  }

  /** Only the top-level `uuid` is the deduplication key: `message.id` plays no part. */
  lemma DedupIgnoresMessageId(t: Totals, r: Record, id: Option<string>, todayStart: int, pricing: Pricing)
    requires r.message.Some?
    ensures Step(t, r.(message := Some(r.message.value.(id := id))), todayStart, pricing) == Step(t, r, todayStart, pricing)
  {
  }

  /** Applying a sequence of records in order. */
  function Fold(t: Totals, rs: seq<Record>, todayStart: int, pricing: Pricing): Totals {
    if rs == [] then t
    else Step(Fold(t, rs[..|rs| - 1], todayStart, pricing), rs[|rs| - 1], todayStart, pricing)
  }

  /** Applying `a` then `b` is applying `a + b`. */
  lemma {:induction false} FoldAppend(t: Totals, a: seq<Record>, b: seq<Record>, todayStart: int, pricing: Pricing)
    ensures Fold(t, a + b, todayStart, pricing) == Fold(Fold(t, a, todayStart, pricing), b, todayStart, pricing)
  {
    if b != [] {
      assert (a + b)[..|a + b| - 1] == a + b[..|b| - 1];
      FoldAppend(t, a, b[..|b| - 1], todayStart, pricing);
    } else {
      assert a + b == a;
    }
  }

  /** After a fold, every countable record's `uuid` is processed. */
  lemma {:induction false} FoldProcessesCountable(t: Totals, rs: seq<Record>, todayStart: int, pricing: Pricing)
    ensures t.processed <= Fold(t, rs, todayStart, pricing).processed
    ensures forall k :: 0 <= k < |rs| && IsCountable(rs[k], todayStart, pricing) ==>
              rs[k].uuid.value in Fold(t, rs, todayStart, pricing).processed
  {
    if rs != [] {
      var init := rs[..|rs| - 1];
      FoldProcessesCountable(t, init, todayStart, pricing);
      forall k | 0 <= k < |rs| - 1 ensures rs[k] == init[k] { }
    }
  }

  /** Records none of which passes the guard leave the ledger as it is. */
  lemma {:induction false} FoldOfBlocked(t: Totals, rs: seq<Record>, todayStart: int, pricing: Pricing)
    requires forall k :: 0 <= k < |rs| ==> !Counts(t, rs[k], todayStart, pricing)
    ensures Fold(t, rs, todayStart, pricing) == t
  {
    if rs != [] {
      FoldOfBlocked(t, rs[..|rs| - 1], todayStart, pricing);
    }
  }

  /** Re-applying a whole batch of records is a no-op: the ledger is idempotent under replay. */
  lemma ReplayIsNoOp(t: Totals, rs: seq<Record>, todayStart: int, pricing: Pricing)
    ensures Fold(Fold(t, rs, todayStart, pricing), rs, todayStart, pricing) == Fold(t, rs, todayStart, pricing)
  {
    var u := Fold(t, rs, todayStart, pricing);
    FoldProcessesCountable(t, rs, todayStart, pricing);
    FoldOfBlocked(u, rs, todayStart, pricing);
  }

  // ---------------------------------------------------------------------------
  // What the totals are made of
  // ---------------------------------------------------------------------------

  /** One counted message: its `uuid` and what it added to the totals. */
  datatype Entry = Entry(uuid: string, tokens: int, cost: real)

  function SumTokens(log: seq<Entry>): int {
    if log == [] then 0 else SumTokens(log[..|log| - 1]) + log[|log| - 1].tokens
  }

  function SumCost(log: seq<Entry>): real {
    if log == [] then 0.0 else SumCost(log[..|log| - 1]) + log[|log| - 1].cost
  }

  function Ids(log: seq<Entry>): set<string> {
    set k | 0 <= k < |log| :: log[k].uuid
  }

  predicate DistinctIds(log: seq<Entry>) {
    forall i, j :: 0 <= i < j < |log| ==> log[i].uuid != log[j].uuid
  }

  /**
   * The ledger invariant: the totals are the sums over a log of counted messages,
   * the processed set is exactly the log's uuids, no uuid is in the log twice,
   * and every counted message added a positive number of tokens.
   */
  predicate Accounts(t: Totals, log: seq<Entry>) {
    && t.tokens == SumTokens(log)
    && t.cost == SumCost(log)
    && t.processed == Ids(log)
    && DistinctIds(log)
    && forall k :: 0 <= k < |log| ==> log[k].tokens > 0
  }

  /** What one step adds to the log. */
  function NewEntries(t: Totals, r: Record, todayStart: int, pricing: Pricing): seq<Entry> {
    if Counts(t, r, todayStart, pricing) then
      var c := TokensAndCost(r, todayStart, pricing);
      [Entry(r.uuid.value, c.tokens, c.cost)]
    else []
  }

  /** What a fold adds to the log, in order. */
  function Counted(t: Totals, rs: seq<Record>, todayStart: int, pricing: Pricing): seq<Entry> {
    if rs == [] then []
    else
      var init := rs[..|rs| - 1];
      Counted(t, init, todayStart, pricing) + NewEntries(Fold(t, init, todayStart, pricing), rs[|rs| - 1], todayStart, pricing)
  }

  lemma NoTotalsAccounts()
    ensures Accounts(NoTotals, [])
  {
  }

  /** One step keeps the ledger invariant. */
  lemma StepAccounts(t: Totals, log: seq<Entry>, r: Record, todayStart: int, pricing: Pricing)
    requires Accounts(t, log)
    ensures Accounts(Step(t, r, todayStart, pricing), log + NewEntries(t, r, todayStart, pricing))
  {
    if Counts(t, r, todayStart, pricing) {
      var log' := log + NewEntries(t, r, todayStart, pricing);
      assert log'[..|log'| - 1] == log;
      assert Ids(log') == Ids(log) + {r.uuid.value} by {
        forall x | x in Ids(log') ensures x in Ids(log) + {r.uuid.value} {
          var k :| 0 <= k < |log'| && log'[k].uuid == x;
          if k < |log| { assert log[k] == log'[k]; }
        }
        forall x | x in Ids(log) ensures x in Ids(log') {
          var k :| 0 <= k < |log| && log[k].uuid == x;
          assert log'[k] == log[k];
        }
        assert log'[|log|].uuid == r.uuid.value;
      }
      forall i, j | 0 <= i < j < |log'| ensures log'[i].uuid != log'[j].uuid {
        if j == |log| {
          assert log'[i] == log[i];
          assert log[i].uuid in Ids(log);
        }
      }
    } else {
      assert log + [] == log;
    }
  }

  /**
   * A fold keeps the ledger invariant: the totals grow by exactly the counted messages,
   * each `uuid` counted at most once.
   */
  lemma {:induction false} FoldAccounts(t: Totals, log: seq<Entry>, rs: seq<Record>, todayStart: int, pricing: Pricing)
    requires Accounts(t, log)
    ensures Accounts(Fold(t, rs, todayStart, pricing), log + Counted(t, rs, todayStart, pricing))
  {
    if rs == [] {
      assert log + [] == log;
    } else {
      var init := rs[..|rs| - 1];
      FoldAccounts(t, log, init, todayStart, pricing);
      var mid := Fold(t, init, todayStart, pricing);
      StepAccounts(mid, log + Counted(t, init, todayStart, pricing), rs[|rs| - 1], todayStart, pricing);
      assert log + Counted(t, rs, todayStart, pricing)
          == (log + Counted(t, init, todayStart, pricing)) + NewEntries(mid, rs[|rs| - 1], todayStart, pricing);
    }
  }

  /** The uuids of the countable records of `rs`. */
  function CountableIds(rs: seq<Record>, todayStart: int, pricing: Pricing): set<string> {
    set k | 0 <= k < |rs| && IsCountable(rs[k], todayStart, pricing) :: rs[k].uuid.value
  }

  /** A fold counts exactly the countable uuids of the batch that the ledger had not processed before. */
  lemma {:induction false} CountedIds(t: Totals, rs: seq<Record>, todayStart: int, pricing: Pricing)
    ensures Fold(t, rs, todayStart, pricing).processed == t.processed + CountableIds(rs, todayStart, pricing)
  {
    if rs != [] {
      var init := rs[..|rs| - 1];
      var last := rs[|rs| - 1];
      CountedIds(t, init, todayStart, pricing);
      var a := CountableIds(init, todayStart, pricing);
      var extra := if IsCountable(last, todayStart, pricing) then {last.uuid.value} else {};
      assert CountableIds(rs, todayStart, pricing) == a + extra by {
        forall x | x in CountableIds(rs, todayStart, pricing) ensures x in a + extra {
          var k :| 0 <= k < |rs| && IsCountable(rs[k], todayStart, pricing) && rs[k].uuid.value == x;
          if k < |init| { assert rs[k] == init[k]; }
        }
        forall x | x in a ensures x in CountableIds(rs, todayStart, pricing) {
          var k :| 0 <= k < |init| && IsCountable(init[k], todayStart, pricing) && init[k].uuid.value == x;
          assert rs[k] == init[k];
        }
      }
    }
  }

  /** The record at `j` is the first countable record of `rs` with this `uuid`. */
  predicate FirstCountableWith(rs: seq<Record>, j: int, uuid: string, todayStart: int, pricing: Pricing)
    requires 0 <= j < |rs|
  {
    && IsCountable(rs[j], todayStart, pricing) && rs[j].uuid.value == uuid
    && forall i :: 0 <= i < j ==> !(IsCountable(rs[i], todayStart, pricing) && rs[i].uuid.value == uuid)
  }

  /**
   * Every message a fold counts comes from the first countable record of the batch with its
   * `uuid`, a `uuid` the ledger had not processed before, and carries that record's charge.
   */
  lemma {:induction false} CountedAreFirstOccurrences(t: Totals, rs: seq<Record>, todayStart: int, pricing: Pricing, k: int)
    requires 0 <= k < |Counted(t, rs, todayStart, pricing)|
    ensures var e := Counted(t, rs, todayStart, pricing)[k];
            && e.uuid !in t.processed
            && exists j :: 0 <= j < |rs| && FirstCountableWith(rs, j, e.uuid, todayStart, pricing)
                           && e.tokens == TokensAndCost(rs[j], todayStart, pricing).tokens
                           && e.cost == TokensAndCost(rs[j], todayStart, pricing).cost
  {
    var init := rs[..|rs| - 1];
    var last := rs[|rs| - 1];
    var before := Counted(t, init, todayStart, pricing);
    var e := Counted(t, rs, todayStart, pricing)[k];
    if k < |before| {
      assert e == before[k];
      CountedAreFirstOccurrences(t, init, todayStart, pricing, k);
      var j :| 0 <= j < |init| && FirstCountableWith(init, j, e.uuid, todayStart, pricing)
               && e.tokens == TokensAndCost(init[j], todayStart, pricing).tokens
               && e.cost == TokensAndCost(init[j], todayStart, pricing).cost;
      assert forall i :: 0 <= i <= j ==> rs[i] == init[i];
      assert FirstCountableWith(rs, j, e.uuid, todayStart, pricing);
    } else {
      var mid := Fold(t, init, todayStart, pricing);
      assert Counts(mid, last, todayStart, pricing);
      assert e.uuid == last.uuid.value;
      CountedIds(t, init, todayStart, pricing);
      forall i | 0 <= i < |rs| - 1 ensures !(IsCountable(rs[i], todayStart, pricing) && rs[i].uuid.value == e.uuid) {
        assert rs[i] == init[i];
        if IsCountable(init[i], todayStart, pricing) {
          assert init[i].uuid.value in CountableIds(init, todayStart, pricing);
        }
      }
      assert FirstCountableWith(rs, |rs| - 1, e.uuid, todayStart, pricing);
    }
  }

  /** From an empty ledger, the totals are the sums over distinct counted uuids. */
  lemma FreshFoldAccounts(rs: seq<Record>, todayStart: int, pricing: Pricing)
    ensures Accounts(Fold(NoTotals, rs, todayStart, pricing), Counted(NoTotals, rs, todayStart, pricing))
    ensures Fold(NoTotals, rs, todayStart, pricing).processed == CountableIds(rs, todayStart, pricing)
  {
    var log := Counted(NoTotals, rs, todayStart, pricing);
    FoldAccounts(NoTotals, [], rs, todayStart, pricing);
    assert [] + log == log;
    CountedIds(NoTotals, rs, todayStart, pricing);
    assert NoTotals.processed + CountableIds(rs, todayStart, pricing) == CountableIds(rs, todayStart, pricing);
  }
}
