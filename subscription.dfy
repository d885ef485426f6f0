/** The subscription and quota bookkeeping kept in the browser's storage: a
    free plan with five generation calls a day, paid plans without a limit,
    an event log of the latest hundred events and three usage counters.
    The clock is an input: `today` is the day's date string, `now` the time
    in milliseconds and `stamp` the event's time stamp text. */
module Subscription {
  import opened Outcomes
  import opened Text

  datatype Plan = Free | Pro | Enterprise

  /** `apiCallsLimit`: a number of calls, or `Infinity`. */
  datatype Limit = Calls(n: int) | Unlimited

  datatype UserSubscription = UserSubscription(
    plan: Plan,
    apiCallsUsed: int,
    apiCallsLimit: Limit,
    /** End of the paid period, in milliseconds since the epoch. */
    subscriptionEnd: Option<int>,
    isActive: bool,
    subscriptionId: Option<string>,
    customerId: Option<string>)

  /** One logged event; `plan` is the payload of an upgrade event. */
  datatype Event = Event(name: string, plan: Option<Plan>, timestamp: string, userId: string)

  datatype StatKind = QuestionsGenerated | ApiCallsUsed | PlanUpgrades

  datatype UsageStats = UsageStats(questionsGenerated: int, apiCallsUsed: int, planUpgrades: int)

  const FreeLimit: int := 5
  const EventCap: nat := 100
  const MonthMillis: int := 30 * 24 * 60 * 60 * 1000
  const UpgradeEvent: string := "subscription_upgrade"
  const CancelEvent: string := "subscription_cancelled"

  const DefaultSubscription: UserSubscription :=
    UserSubscription(Free, 0, Calls(FreeLimit), None, true, None, None)

  /** `getSubscription`: the stored record, or the default free plan when
      nothing (or nothing readable) is stored. */
  function Loaded(stored: Option<UserSubscription>): (s: UserSubscription)
    ensures stored.None? ==>
      s.plan == Free && s.apiCallsUsed == 0 && s.apiCallsLimit == Calls(5) && s.isActive
      && s.subscriptionEnd.None? && s.subscriptionId.None? && s.customerId.None?
    ensures stored.Some? ==> s == stored.value
  {
    if stored.Some? then stored.value else DefaultSubscription
  }

  /** The free plan's quota holds: a finite limit that usage never passes. */
  predicate QuotaOk(s: UserSubscription)
  {
    s.plan == Free ==> s.apiCallsLimit.Calls? && 0 <= s.apiCallsUsed <= s.apiCallsLimit.n
  }

  /** `used < limit`, where every number is below `Infinity`. */
  predicate Below(used: int, limit: Limit)
  {
    limit.Unlimited? || used < limit.n
  }

  // ---------------------------------------------------------------------
  // The decisions, as functions of the stored record

  /** `checkDailyReset` on the stored record: on a new day a free plan's
      usage drops to zero (and the record is saved, the default one too);
      a paid plan, or the same day again, leaves the store as it was. */
  function AfterReset(stored: Option<UserSubscription>, lastReset: Option<string>, today: string)
    : (r: Option<UserSubscription>)
    ensures lastReset == Some(today) ==> r == stored
    ensures lastReset != Some(today) && Loaded(stored).plan == Free ==>
      r.Some? && r.value.apiCallsUsed == 0
      && r.value == Loaded(stored).(apiCallsUsed := r.value.apiCallsUsed)
    ensures Loaded(stored).plan != Free ==> r == stored
  {
    if lastReset == Some(today) then stored
    else
      var s := Loaded(stored);
      if s.plan == Free then Some(s.(apiCallsUsed := 0)) else stored
  }

  /** `canUseAPI` after the reset: inactive plans never, free plans while
      under the limit, paid plans always. */
  function Permits(s: UserSubscription): (ok: bool)
    ensures !s.isActive ==> !ok
    ensures s.isActive && s.plan != Free ==> ok
    ensures s.isActive && s.plan == Free && QuotaOk(s) ==> (ok <==> s.apiCallsUsed < s.apiCallsLimit.n)
  {
    s.isActive && (s.plan == Free ==> Below(s.apiCallsUsed, s.apiCallsLimit))
  }

  /** What `useAPICall` saves after a permitted call: one more call on the
      free plan, nothing on a paid one. */
  function Charged(s: UserSubscription): (r: UserSubscription)
    ensures s.plan == Free ==> r.apiCallsUsed == s.apiCallsUsed + 1 && r == s.(apiCallsUsed := r.apiCallsUsed)
    ensures s.plan != Free ==> r == s
  {
    if s.plan == Free then s.(apiCallsUsed := s.apiCallsUsed + 1) else s
  }

  /** `getRemainingAPICalls` after the reset: `max(0, limit - used)` on the
      free plan, unlimited on paid plans. */
  function Remaining(s: UserSubscription): (r: Limit)
    ensures s.plan != Free ==> r.Unlimited?
    ensures s.plan == Free && s.apiCallsLimit.Calls? ==>
      r.Calls? && r.n >= 0 && r.n >= s.apiCallsLimit.n - s.apiCallsUsed
      && (r.n == 0 || r.n == s.apiCallsLimit.n - s.apiCallsUsed)
  {
    if s.plan == Free then
      match s.apiCallsLimit
      case Calls(n) => Calls(if n - s.apiCallsUsed > 0 then n - s.apiCallsUsed else 0)
      case Unlimited => Unlimited
    else Unlimited
  }

  /** `upgradeToPro` / `upgradeToEnterprise`: the plan, no limit, thirty days
      from `now`, active, and ids made from `now`; usage is kept. */
  function Upgraded(s: UserSubscription, plan: Plan, now: nat): (r: UserSubscription)
    requires plan != Free
    ensures r.plan == plan && r.apiCallsLimit.Unlimited? && r.isActive
    ensures r.apiCallsUsed == s.apiCallsUsed
    ensures r.subscriptionEnd == Some(now + MonthMillis)
    ensures r.subscriptionId == Some((if plan == Pro then "pro_" else "ent_") + NatToString(now))
    ensures r.customerId == Some("cust_" + NatToString(now))
  {
    var prefix := if plan == Pro then "pro_" else "ent_";
    s.(plan := plan, apiCallsLimit := Unlimited, subscriptionEnd := Some(now + MonthMillis),
       isActive := true, subscriptionId := Some(prefix + NatToString(now)),
       customerId := Some("cust_" + NatToString(now)))
  }

  /** `cancelSubscription`: back to the default free plan, whatever came before. */
  function Cancelled(s: UserSubscription): (r: UserSubscription)
    ensures r == Loaded(None)
  {
    s.(plan := Free, apiCallsLimit := Calls(FreeLimit), apiCallsUsed := 0, isActive := true,
       subscriptionEnd := None, subscriptionId := None, customerId := None)
  }

  /** `events.splice(0, events.length - 100)` when there are more than 100:
      the last `cap` entries, oldest dropped first. */
  function KeepLast(events: seq<Event>, cap: nat): (r: seq<Event>)
    ensures |r| == if |events| < cap then |events| else cap
    ensures forall k :: 0 <= k < |r| ==> r[k] == events[|events| - |r| + k]
  {
    if |events| > cap then events[|events| - cap..] else events
  }

  /** `customerId || 'anonymous'`. */
  function UserIdOf(s: UserSubscription): (id: string)
    ensures s.customerId.Some? && s.customerId.value != "" ==> id == s.customerId.value
    ensures s.customerId.None? || s.customerId.value == "" ==> id == "anonymous"
  {
    if s.customerId.Some? && s.customerId.value != "" then s.customerId.value else "anonymous"
  }

  /** `stats[type]++`. */
  function Bumped(st: UsageStats, kind: StatKind): (r: UsageStats)
    ensures r.questionsGenerated == st.questionsGenerated + (if kind == QuestionsGenerated then 1 else 0)
    ensures r.apiCallsUsed == st.apiCallsUsed + (if kind == ApiCallsUsed then 1 else 0)
    ensures r.planUpgrades == st.planUpgrades + (if kind == PlanUpgrades then 1 else 0)
  {
    match kind
    case QuestionsGenerated => st.(questionsGenerated := st.questionsGenerated + 1)
    case ApiCallsUsed => st.(apiCallsUsed := st.apiCallsUsed + 1)
    case PlanUpgrades => st.(planUpgrades := st.planUpgrades + 1)
  }

  // ---------------------------------------------------------------------
  // Properties of the decisions

  /** Every step keeps the free plan's quota. */
  lemma QuotaPreserved(stored: Option<UserSubscription>, lastReset: Option<string>, today: string,
                       plan: Plan, now: nat)
    requires QuotaOk(Loaded(stored))
    requires plan != Free
    ensures QuotaOk(Loaded(AfterReset(stored, lastReset, today)))
    ensures Permits(Loaded(stored)) ==> QuotaOk(Charged(Loaded(stored)))
    ensures QuotaOk(Upgraded(Loaded(stored), plan, now))
    ensures QuotaOk(Cancelled(Loaded(stored)))
  {
  }

  /** The reset is idempotent on one day. */
  lemma ResetIdempotent(stored: Option<UserSubscription>, lastReset: Option<string>, today: string)
    ensures AfterReset(AfterReset(stored, lastReset, today), Some(today), today)
            == AfterReset(stored, lastReset, today)
  {
  }

  /** `n` calls of `useAPICall` on one day, after that day's reset: how many
      are permitted, and the record they leave. */
  function Successes(s: UserSubscription, n: nat): nat
    decreases n
  {
    if n == 0 then 0
    else if Permits(s) then 1 + Successes(Charged(s), n - 1)
    else Successes(s, n - 1)
  }

  function AfterCalls(s: UserSubscription, n: nat): UserSubscription
    decreases n
  {
    if n == 0 then s
    else if Permits(s) then AfterCalls(Charged(s), n - 1)
    else AfterCalls(s, n - 1)
  }

  /** On an active free plan with a sound quota, `n` calls in one day succeed
      exactly `min(n, limit - used)` times and usage ends at the number of
      calls before plus the successes, never past the limit. */
  lemma {:induction false} DailyQuota(s: UserSubscription, n: nat)
    requires s.plan == Free && s.isActive && QuotaOk(s)
    ensures Successes(s, n) == if n < s.apiCallsLimit.n - s.apiCallsUsed then n else s.apiCallsLimit.n - s.apiCallsUsed
    ensures AfterCalls(s, n).apiCallsUsed == s.apiCallsUsed + Successes(s, n)
    ensures QuotaOk(AfterCalls(s, n))
    decreases n
  {
    if n > 0 {
      if Permits(s) {
        DailyQuota(Charged(s), n - 1);
      } else {
        DailyQuota(s, n - 1);
      }
    }
  }

  /** On a paid active plan every call succeeds and nothing is counted. */
  lemma {:induction false} PaidUnlimited(s: UserSubscription, n: nat)
    requires s.plan != Free && s.isActive
    ensures Successes(s, n) == n && AfterCalls(s, n) == s
    decreases n
  {
    if n > 0 {
      PaidUnlimited(s, n - 1);
    }
  }

  /** Remaining calls and permission agree on a sound free plan. */
  lemma RemainingAgrees(s: UserSubscription)
    requires s.isActive && QuotaOk(s)
    ensures Permits(s) <==> Remaining(s) != Calls(0)
  {
  }

  /** Cancelling after an upgrade restores exactly the default plan. */
  lemma UpgradeThenCancel(s: UserSubscription, plan: Plan, now: nat)
    requires plan != Free
    ensures Cancelled(Upgraded(s, plan, now)) == DefaultSubscription
  {
  }

  // ---------------------------------------------------------------------
  // The store

  /** The stored keys: the subscription record, the last reset date, the
      event log and the usage counters. */
  class SubscriptionStore {
    var record: Option<UserSubscription>
    var lastReset: Option<string>
    var events: seq<Event>
    var stats: UsageStats

    function Current(): UserSubscription
      reads this
    {
      Loaded(record)
    }

    predicate Valid()
      reads this
    {
      QuotaOk(Current()) && |events| <= EventCap
    }

    /** An empty store. */
    constructor ()
      ensures Valid() && Current() == DefaultSubscription
      ensures record.None? && lastReset.None? && events == [] && stats == UsageStats(0, 0, 0)
    {
      record, lastReset, events, stats := None, None, [], UsageStats(0, 0, 0);
    }

    method CheckDailyReset(today: string)
      requires Valid()
      modifies this
      ensures Valid()
      ensures record == AfterReset(old(record), old(lastReset), today)
      ensures lastReset == Some(today)
      ensures events == old(events) && stats == old(stats)
    {
      if lastReset != Some(today) {
        var s := Current();
        if s.plan == Free {
          record := Some(s.(apiCallsUsed := 0));
        }
        lastReset := Some(today);
      }
    }

    method CanUseAPI(today: string) returns (ok: bool)
      requires Valid()
      modifies this
      ensures Valid()
      ensures record == AfterReset(old(record), old(lastReset), today) && lastReset == Some(today)
      ensures ok == Permits(Current())
      ensures events == old(events) && stats == old(stats)
    {
      CheckDailyReset(today);
      var s := Current();
      if !s.isActive {
        return false;
      }
      if s.plan == Free {
        return s.apiCallsUsed < s.apiCallsLimit.n;
      }
      return true;
    }

    method UseAPICall(today: string) returns (ok: bool)
      requires Valid()
      modifies this
      ensures Valid()
      ensures var reset := Loaded(AfterReset(old(record), old(lastReset), today));
        ok == Permits(reset) && Current() == (if ok then Charged(reset) else reset)
      ensures lastReset == Some(today) && events == old(events) && stats == old(stats)
    {
      ok := CanUseAPI(today);
      if !ok {
        return;
      }
      var s := Current();
      if s.plan == Free {
        record := Some(s.(apiCallsUsed := s.apiCallsUsed + 1));
      }
    }

    method GetRemainingAPICalls(today: string) returns (r: Limit)
      requires Valid()
      modifies this
      ensures Valid()
      ensures record == AfterReset(old(record), old(lastReset), today) && lastReset == Some(today)
      ensures r == Remaining(Current())
      ensures events == old(events) && stats == old(stats)
    {
      CheckDailyReset(today);
      var s := Current();
      if s.plan == Free {
        return Calls(if s.apiCallsLimit.n - s.apiCallsUsed > 0 then s.apiCallsLimit.n - s.apiCallsUsed else 0);
      }
      return Unlimited;
    }

    /** `trackEvent`: the event is appended with the current customer id and
        the log cut to its last hundred entries. */
    method TrackEvent(name: string, plan: Option<Plan>, stamp: string)
      requires Valid()
      modifies this
      ensures Valid()
      ensures events == KeepLast(old(events) + [Event(name, plan, stamp, UserIdOf(Current()))], EventCap)
      ensures record == old(record) && lastReset == old(lastReset) && stats == old(stats)
    {
      var log := events + [Event(name, plan, stamp, UserIdOf(Current()))];
      if |log| > EventCap {
        log := log[|log| - EventCap..];
      }
      events := log;
    }

    method Upgrade(plan: Plan, now: nat, stamp: string) returns (ok: bool)
      requires Valid() && plan != Free
      modifies this
      ensures Valid() && ok
      ensures Current() == Upgraded(old(Current()), plan, now)
      ensures events == KeepLast(old(events) + [Event(UpgradeEvent, Some(plan), stamp, "cust_" + NatToString(now))], EventCap)
      ensures lastReset == old(lastReset) && stats == old(stats)
    {
      record := Some(Upgraded(Current(), plan, now));
      TrackEvent(UpgradeEvent, Some(plan), stamp);
      return true;
    }

    method UpgradeToPro(now: nat, stamp: string) returns (ok: bool)
      requires Valid()
      modifies this
      ensures Valid() && ok
      ensures Current() == Upgraded(old(Current()), Pro, now)
      ensures events == KeepLast(old(events) + [Event(UpgradeEvent, Some(Pro), stamp, "cust_" + NatToString(now))], EventCap)
      ensures lastReset == old(lastReset) && stats == old(stats)
    {
      ok := Upgrade(Pro, now, stamp);
    }

    method UpgradeToEnterprise(now: nat, stamp: string) returns (ok: bool)
      requires Valid()
      modifies this
      ensures Valid() && ok
      ensures Current() == Upgraded(old(Current()), Enterprise, now)
      ensures events == KeepLast(old(events) + [Event(UpgradeEvent, Some(Enterprise), stamp, "cust_" + NatToString(now))], EventCap)
      ensures lastReset == old(lastReset) && stats == old(stats)
    {
      ok := Upgrade(Enterprise, now, stamp);
    }

    method CancelSubscription(stamp: string) returns (ok: bool)
      requires Valid()
      modifies this
      ensures Valid() && ok
      ensures Current() == DefaultSubscription
      ensures events == KeepLast(old(events) + [Event(CancelEvent, None, stamp, "anonymous")], EventCap)
      ensures lastReset == old(lastReset) && stats == old(stats)
    {
      record := Some(Cancelled(Current()));
      TrackEvent(CancelEvent, None, stamp);
      return true;
    }

    method IncrementUsageStats(kind: StatKind)
      requires Valid()
      modifies this
      ensures Valid()
      ensures stats == Bumped(old(stats), kind)
      ensures record == old(record) && lastReset == old(lastReset) && events == old(events)
    {
      stats := Bumped(stats, kind);
    }
  }
}
