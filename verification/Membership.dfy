/** Membership benefits: how plans and end times accumulate on an account. */
module Membership {
  import opened Basics
  import opened Sums

  const DAY := 86400

  /** A stored plan; anything unrecognised ranks below every named plan. */
  datatype Plan = Unnamed | Monthly | Yearly | Lifetime

  datatype Member = Member(plan: Plan, expires: int)

  datatype Error = Invalid

  datatype Benefit = Benefit(plan: Plan, days: int)

  function Rank(p: Plan): nat {
    match p
    case Unnamed => 0
    case Monthly => 1
    case Yearly => 2
    case Lifetime => 3
  }

  function CanonicalDays(p: Plan): int {
    match p
    case Monthly => 30
    case Yearly => 365
    case _ => 0
  }

  /** Omitted days select the canonical duration; any other duration must match the plan. */
  function Normalize(b: Benefit): Result<Benefit, Error> {
    if b.plan == Unnamed then Err(Invalid) else
      var days := if b.days == 0 && b.plan != Lifetime then CanonicalDays(b.plan) else b.days;
      if days != CanonicalDays(b.plan) then Err(Invalid) else Ok(Benefit(b.plan, days))
  }

  /** A benefit is valid exactly when it names a plan and either leaves the days out or gives the plan's own. */
  lemma ValidExactly(b: Benefit)
    ensures Normalize(b).Ok? <==>
      || (b.plan == Monthly && (b.days == 0 || b.days == 30))
      || (b.plan == Yearly && (b.days == 0 || b.days == 365))
      || (b.plan == Lifetime && b.days == 0)
    ensures Normalize(b).Ok? ==> Normalize(b).value.plan == b.plan
  {
  }

  predicate Current(m: Member, now: int) {
    m.expires > now
  }

  function Base(m: Member, now: int): int {
    if Current(m, now) then m.expires else now
  }

  function Seconds(p: Plan): int {
    CanonicalDays(p) * DAY
  }

  /** The update for a normalised benefit. */
  function Extend(m: Member, plan: Plan, now: int): Result<Member, Error> {
    if m.plan == Lifetime then Ok(m)
    else if plan == Lifetime then Ok(Member(Lifetime, 0))
    else if Seconds(plan) <= 0 || Base(m, now) > MAX_INT64 - Seconds(plan) then Err(Invalid)
    else Ok(Member(if Current(m, now) && Rank(m.plan) > Rank(plan) then m.plan else plan, Base(m, now) + Seconds(plan)))
  }

  function ApplyBenefit(m: Member, b: Benefit, now: int): Result<Member, Error> {
    match Normalize(b)
    case Err(e) => Err(e)
    case Ok(n) => Extend(m, n.plan, now)
  }

  /** 30 or 365 days from the running end or from now; only a running year outranks a month. */
  lemma BenefitsAddDays(m: Member, b: Benefit, now: int)
    requires m.plan != Lifetime && ApplyBenefit(m, b, now).Ok?
    ensures var n, start := ApplyBenefit(m, b, now).value, if m.expires > now then m.expires else now;
      && (b.plan == Monthly ==> n.expires == start + 30 * 86400)
      && (b.plan == Yearly ==> n.expires == start + 365 * 86400)
      && (b.plan == Lifetime ==> n == Member(Lifetime, 0))
      && n.plan == (if m.expires > now && m.plan == Yearly && b.plan == Monthly then Yearly else b.plan)
  {
  }

  /** Benefits applied one after the other at one instant; stops at the first refusal. */
  function ApplyAll(m: Member, bs: seq<Benefit>, now: int): Result<Member, Error> {
    if bs == [] then Ok(m) else
      match ApplyAll(m, bs[..|bs| - 1], now)
      case Err(e) => Err(e)
      case Ok(before) => ApplyBenefit(before, bs[|bs| - 1], now)
  }

  predicate Valid(bs: seq<Benefit>) {
    forall i :: 0 <= i < |bs| ==> Normalize(bs[i]).Ok?
  }

  // ---------- the order-free description ----------

  function Count(bs: multiset<Benefit>, plan: Plan): nat {
    bs[Benefit(plan, 0)] + if CanonicalDays(plan) == 0 then 0 else bs[Benefit(plan, CanonicalDays(plan))]
  }

  /** Total time in a bag of benefits. */
  function TotalSeconds(bs: multiset<Benefit>): int {
    Count(bs, Monthly) * Seconds(Monthly) + Count(bs, Yearly) * Seconds(Yearly)
  }

  function Best(m: Member, bs: multiset<Benefit>, now: int): Plan {
    if Count(bs, Yearly) > 0 || (Current(m, now) && m.plan == Yearly) then Yearly else Monthly
  }

  /** Lifetime wins; otherwise the total time is added once and the highest plan kept. */
  function Accumulated(m: Member, bs: multiset<Benefit>, now: int): Member {
    if m.plan == Lifetime || |bs| == 0 then m
    else if Count(bs, Lifetime) > 0 then Member(Lifetime, 0)
    else Member(Best(m, bs, now), Base(m, now) + TotalSeconds(bs))
  }

  lemma CountStep(bs: multiset<Benefit>, b: Benefit, plan: Plan)
    requires Normalize(b).Ok? && plan != Unnamed
    ensures Count(bs + multiset{b}, plan) == Count(bs, plan) + if b.plan == plan then 1 else 0
  {
  }

  lemma SplitLast(bs: seq<Benefit>)
    requires bs != []
    ensures multiset(bs) == multiset(bs[..|bs| - 1]) + multiset{bs[|bs| - 1]}
  {
    assert bs == bs[..|bs| - 1] + [bs[|bs| - 1]];
  }

  /** A bag of valid benefits holds only the three named plans. */
  lemma {:induction false} CountsAll(bs: seq<Benefit>)
    requires Valid(bs)
    ensures Count(multiset(bs), Monthly) + Count(multiset(bs), Yearly) + Count(multiset(bs), Lifetime) == |bs|
    decreases bs
  {
    if bs != [] {
      var front, last := bs[..|bs| - 1], bs[|bs| - 1];
      CountsAll(front);
      SplitLast(bs);
      CountStep(multiset(front), last, Monthly);
      CountStep(multiset(front), last, Yearly);
      CountStep(multiset(front), last, Lifetime);
    }
  }

  /** The end time never has to fit once the account is for life. */
  predicate Fits(m: Member, bs: multiset<Benefit>, now: int) {
    m.plan == Lifetime || Base(m, now) + TotalSeconds(bs) <= MAX_INT64
  }

  lemma ExtendAccumulates(m: Member, bs: multiset<Benefit>, last: Benefit, now: int)
    requires Normalize(last).Ok? && Fits(m, bs + multiset{last}, now)
    requires Count(bs, Monthly) + Count(bs, Yearly) + Count(bs, Lifetime) == |bs|
    ensures Extend(Accumulated(m, bs, now), last.plan, now) == Ok(Accumulated(m, bs + multiset{last}, now))
  {
    CountStep(bs, last, Monthly);
    CountStep(bs, last, Yearly);
    CountStep(bs, last, Lifetime);
    hide Count;
  }

  /**
   Any list of valid benefits applied at one instant leaves the account that the bag
   of benefits describes, provided the total time fits 64 bits.
   */
  lemma {:induction false} BenefitsAccumulate(m: Member, bs: seq<Benefit>, now: int)
    requires Valid(bs) && Fits(m, multiset(bs), now)
    ensures ApplyAll(m, bs, now) == Ok(Accumulated(m, multiset(bs), now))
    decreases bs
  {
    if bs != [] {
      var front, last := bs[..|bs| - 1], bs[|bs| - 1];
      SplitLast(bs);
      CountStep(multiset(front), last, Monthly);
      CountStep(multiset(front), last, Yearly);
      CountsAll(front);
      BenefitsAccumulate(m, front, now);
      hide Accumulated, Extend, Count;
      ExtendAccumulates(m, multiset(front), last, now);
    }
  }

  /** The same benefits in any order give the same plan and end time. */
  lemma OrderDoesNotMatter(m: Member, bs: seq<Benefit>, cs: seq<Benefit>, now: int)
    requires Valid(bs) && multiset(bs) == multiset(cs) && Fits(m, multiset(bs), now)
    ensures ApplyAll(m, bs, now) == ApplyAll(m, cs, now)
  {
    forall i | 0 <= i < |cs| ensures Normalize(cs[i]).Ok? {
      assert cs[i] in multiset(bs);
    }
    BenefitsAccumulate(m, bs, now);
    BenefitsAccumulate(m, cs, now);
  }

  lemma LastOneRefused(m: Member, bs: multiset<Benefit>, last: Benefit, now: int)
    requires Normalize(last).Ok? && m.plan != Lifetime && last.plan != Lifetime && Fits(m, bs, now)
    requires Count(bs, Monthly) + Count(bs, Yearly) == |bs| && Count(bs, Lifetime) == 0
    ensures Extend(Accumulated(m, bs, now), last.plan, now).Ok? <==> Fits(m, bs + multiset{last}, now)
  {
    CountStep(bs, last, Monthly);
    CountStep(bs, last, Yearly);
    hide Count;
  }

  /** Without a lifetime plan in play the list is refused exactly when the total time overflows. */
  lemma {:induction false} RefusedExactlyOnOverflow(m: Member, bs: seq<Benefit>, now: int)
    requires Valid(bs) && m.plan != Lifetime && Count(multiset(bs), Lifetime) == 0
    requires now <= MAX_INT64 && m.expires <= MAX_INT64
    ensures ApplyAll(m, bs, now).Ok? <==> Fits(m, multiset(bs), now)
    decreases bs
  {
    if bs != [] {
      var front, last := bs[..|bs| - 1], bs[|bs| - 1];
      SplitLast(bs);
      CountStep(multiset(front), last, Monthly);
      CountStep(multiset(front), last, Yearly);
      CountStep(multiset(front), last, Lifetime);
      RefusedExactlyOnOverflow(m, front, now);
      CountsAll(front);
      hide Accumulated, Extend, Count;
      if Fits(m, multiset(front), now) {
        BenefitsAccumulate(m, front, now);
        LastOneRefused(m, multiset(front), last, now);
      }
    }
  }

  // ---------- across time ----------

  datatype Timed = Timed(benefit: Benefit, now: int)

  /** Refused benefits change nothing. */
  function After(m: Member, step: Timed): Member {
    var r := ApplyBenefit(m, step.benefit, step.now);
    if r.Ok? then r.value else m
  }

  function Run(m: Member, steps: seq<Timed>): Member
    decreases steps
  {
    if steps == [] then m else Run(After(m, steps[0]), steps[1..])
  }

  /** Over any run, lifetime is never lost and the end time never goes back. */
  lemma {:induction false} TimeIsNeverLost(m: Member, steps: seq<Timed>)
    ensures m.plan == Lifetime ==> Run(m, steps) == m
    ensures Run(m, steps).plan == Lifetime || Run(m, steps).expires >= m.expires
    decreases steps
  {
    if steps != [] {
      TimeIsNeverLost(After(m, steps[0]), steps[1..]);
    }
  }

  /** Every benefit arrives while the membership held at that moment is running. */
  predicate Unbroken(m: Member, steps: seq<Timed>)
    decreases steps
  {
    steps == [] || ((m.plan == Lifetime || Current(m, steps[0].now)) && Unbroken(After(m, steps[0]), steps[1..]))
  }

  /** As long as the membership never lapses between benefits, its plan is never lowered. */
  lemma {:induction false} RankIsKeptWhileCurrent(m: Member, steps: seq<Timed>)
    requires Unbroken(m, steps)
    ensures Rank(Run(m, steps).plan) >= Rank(m.plan)
    decreases steps
  {
    if steps != [] {
      RankIsKeptWhileCurrent(After(m, steps[0]), steps[1..]);
    }
  }
}
