/** The loyalty rule ("YummyRewards") shared by both payment confirmations:
    ten points per real of the order total, and a tier derived from the
    accumulated points by fixed thresholds. */
module Loyalty {
  import opened Models

  const GoldThreshold: nat := 5000
  const SilverThreshold: nat := 2000

  /** `int(preco_total * 10)`: the total in reais times ten, truncated. With the
      total in centavos that is the number of whole tens of centavos. */
  function PointsFor(total: Money): (r: nat)
    ensures r * 10 <= total < (r + 1) * 10
  {
    total / 10
  }

  /** The level-up rule: 'Ouro' from 5000 points, 'Prata' from 2000, else 'Bronze'. */
  function TierFor(points: nat): (t: Tier)
    ensures t == Gold <==> points >= GoldThreshold
    ensures t == Silver <==> SilverThreshold <= points < GoldThreshold
    ensures t == Bronze <==> points < SilverThreshold
  {
    if points >= GoldThreshold then Gold
    else if points >= SilverThreshold then Silver
    else Bronze
  }

  function Rank(t: Tier): nat
  {
    match t
    case Bronze => 0
    case Silver => 1
    case Gold => 2
  }

  /** More points never mean a lower tier. */
  lemma TierMonotone(p: nat, q: nat)
    requires p <= q
    ensures Rank(TierFor(p)) <= Rank(TierFor(q))
  {
  }

  /** The loyalty fields of one user. */
  datatype Account = Account(points: nat, tier: Tier)

  /** The award made on a confirmed payment: add the points of the total and
      recompute the tier from the new point count. */
  function Award(a: Account, total: Money): (r: Account)
    ensures r.points == a.points + PointsFor(total)
    ensures r.tier == TierFor(r.points)
  {
    var p := a.points + PointsFor(total);
    Account(p, TierFor(p))
  }

  /** An account is consistent when its tier is the one its points give. The
      new-user defaults (0 points, 'Bronze') are consistent. */
  predicate Consistent(a: Account)
  {
    a.tier == TierFor(a.points)
  }

  /** Awarding never lowers points or tier, and an award to a consistent account
      leaves it consistent. */
  lemma AwardMonotone(a: Account, total: Money)
    requires Consistent(a)
    ensures Award(a, total).points >= a.points
    ensures Rank(Award(a, total).tier) >= Rank(a.tier)
    ensures Consistent(Award(a, total))
  {
    TierMonotone(a.points, Award(a, total).points);
  }

  /** The effect of a payment confirmation on the order status and on the
      credited account: only a pending order is confirmed, and only then are
      points awarded. */
  function Settle(status: Status, a: Account, total: Money): (r: (Status, Account))
    ensures r.0 != PendingPayment
    ensures status == PendingPayment ==>
      && r.0 == Received
      && r.1.points == a.points + PointsFor(total)
      && r.1.tier == TierFor(r.1.points)
    ensures status != PendingPayment ==> r == (status, a)
  {
    if status == PendingPayment then (Received, Award(a, total)) else (status, a)
  }

  /** The gamification step of both payment confirmations, applied to the
      credited user: `pontos` grows by the order's points and `nivel` is
      recomputed. */
  method Reward(user: User, total: Money) returns (earned: nat)
    modifies user`points, user`tier
    ensures earned == PointsFor(total)
    ensures Account(user.points, user.tier) == Award(old(Account(user.points, user.tier)), total)
  {
    earned := total / 10;
    user.points := user.points + earned;
    if user.points >= GoldThreshold {
      user.tier := Gold;
    } else if user.points >= SilverThreshold {
      user.tier := Silver;
    } else {
      user.tier := Bronze;
    }
  }

  /** A second confirmation signal for the same order changes nothing: points
      are awarded exactly once, whichever of the two signals comes first. */
  lemma SettleIdempotent(status: Status, a: Account, total: Money)
    ensures var r := Settle(status, a, total);
            Settle(r.0, r.1, total) == r
  {
  }

  /** Scenario: an order of 55.00 confirmed for a Bronze account with 4500
      points earns 550 points and lifts the account to Gold. */
  lemma ConfirmFiftyFive()
    ensures Award(Account(4500, Bronze), 5500) == Account(5050, Gold)
  {
  }
}
