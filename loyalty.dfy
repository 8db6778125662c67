/** The loyalty part of placing an order (app/api/orders/route.ts:96-122):
    points earned per order, the four-level tier and the member upsert keyed
    by phone number. */
module Loyalty {
  import opened Common

  datatype Tier = Regular | Silver | Gold | Platinum

  /** Position of a tier in the order Regular < Silver < Gold < Platinum. */
  function Rank(t: Tier): nat {
    match t
    case Regular => 0
    case Silver => 1
    case Gold => 2
    case Platinum => 3
  }

  const SilverThreshold := 1000
  const GoldThreshold := 5000
  const PlatinumThreshold := 10000

  /** The tier for a cumulative point balance: exactly one tier per balance,
      chosen by the thresholds 1000, 5000 and 10000. */
  function TierOf(points: int): (t: Tier)
    ensures t == Platinum <==> points >= PlatinumThreshold
    ensures t == Gold <==> GoldThreshold <= points < PlatinumThreshold
    ensures t == Silver <==> SilverThreshold <= points < GoldThreshold
    ensures t == Regular <==> points < SilverThreshold
    ensures Rank(t) == (if points >= SilverThreshold then 1 else 0)
      + (if points >= GoldThreshold then 1 else 0)
      + (if points >= PlatinumThreshold then 1 else 0)
  {
    if points >= PlatinumThreshold then Platinum
    else if points >= GoldThreshold then Gold
    else if points >= SilverThreshold then Silver
    else Regular
  }

  /** The handler's tier choice: start from Regular and reassign on the first
      threshold met, highest first. */
  method ChooseTier(points: int) returns (tier: Tier)
    ensures tier == TierOf(points)
  {
    tier := Regular;
    if points >= 10000 {
      tier := Platinum;
    } else if points >= 5000 {
      tier := Gold;
    } else if points >= 1000 {
      tier := Silver;
    }
  }

  /** More points never mean a lower tier. */
  lemma TierMonotone(p: int, q: int)
    requires p <= q
    ensures Rank(TierOf(p)) <= Rank(TierOf(q))
  {
  }

  /** One point per thousand currency units of the
      final total (after discount), rounded half up. */
  function PointsEarned(total: int): (points: int)
    ensures 2000 * points <= 2 * total + 1000 < 2000 * points + 2000
    ensures total >= 0 ==> points >= 0
  {
    RoundDiv(total, 1000)
  }

  /** A `members` row. `name` is absent when the first order gave none. */
  datatype Member = Member(name: Option<string>, points: int, tier: Tier)

  /** Every stored tier is the tier of the stored points. */
  predicate TiersConsistent(members: map<string, Member>) {
    forall phone :: phone in members ==> members[phone].tier == TierOf(members[phone].points)
  }

  /** The member table after an order with phone `phone`, customer name `name`
      and `earned` points: an existing member gains exactly `earned` points,
      gets the tier of the new balance and keeps a name it already had
      (the update only fills a missing name); an unknown phone becomes a new member holding
      `earned` points. */
  function Credit(members: map<string, Member>, phone: string, name: Option<string>, earned: int): (m: map<string, Member>)
    ensures m.Keys == members.Keys + {phone}
    ensures forall p :: p in members && p != phone ==> m[p] == members[p]
    ensures phone in members ==>
      m[phone].points == members[phone].points + earned &&
      m[phone].name == (if members[phone].name.Some? then members[phone].name else name)
    ensures phone !in members ==> m[phone].points == earned && m[phone].name == name
    ensures m[phone].tier == TierOf(m[phone].points)
  {
    if phone in members then
      var old_ := members[phone];
      var newPoints := old_.points + earned;
      members[phone := Member(if old_.name.Some? then old_.name else name, newPoints, TierOf(newPoints))]
    else
      members[phone := Member(name, earned, TierOf(earned))]
  }

  /** Crediting an order keeps every tier a function of the points. */
  lemma CreditKeepsTiers(members: map<string, Member>, phone: string, name: Option<string>, earned: int)
    requires TiersConsistent(members)
    ensures TiersConsistent(Credit(members, phone, name, earned))
  {
  }

  /** With a non-negative order total no balance and no tier goes down. */
  lemma {:induction false} CreditMonotone(members: map<string, Member>, phone: string, name: Option<string>, total: int)
    requires TiersConsistent(members)
    requires total >= 0
    ensures var m := Credit(members, phone, name, PointsEarned(total));
      forall p :: p in members ==> members[p].points <= m[p].points && Rank(members[p].tier) <= Rank(m[p].tier)
  {
    var m := Credit(members, phone, name, PointsEarned(total));
    forall p | p in members
      ensures members[p].points <= m[p].points && Rank(members[p].tier) <= Rank(m[p].tier)
    {
      if p == phone {
        TierMonotone(members[p].points, m[p].points);
      }
    }
  }
}
