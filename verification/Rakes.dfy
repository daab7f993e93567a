/** What the house and a referrer take of a pot, to the chip, and where it goes. */
module Rakes {
  import opened Options
  import opened Wallets
  import opened Tables
  import opened ShowdownProofs
  import opened Commissions

  /** `x` is the whole part of `percentage` of `amount`. */
  predicate WholePart(x: int, amount: int, percentage: real) {
    100.0 * x as real <= amount as real * percentage < 100.0 * (x as real + 1.0)
  }

  lemma {:induction false} PercentIs(amount: int, percentage: real)
    ensures WholePart(Percent(amount, percentage), amount, percentage)
  {
    var y := amount as real * percentage / 100.0;
    assert y.Floor as real <= y < y.Floor as real + 1.0;
  }

  /** There is only one. */
  lemma {:induction false} WholePartUnique(x: int, y: int, amount: int, percentage: real)
    requires WholePart(x, amount, percentage) && WholePart(y, amount, percentage)
    ensures x == y
  {
    assert (x as real) < (y as real) + 1.0 && (y as real) < (x as real) + 1.0;
    assert x < y + 1 && y < x + 1;
  }

  /** The site's part: of a pot the small blind as far as it goes, or the whole part of the rate. */
  predicate SitePart(rake: int, pot: int, smallBlind: int, s: Settings) {
    match s.rakeMode
    case SmallBlind => rake == if smallBlind <= pot then smallBlind else pot
    case Percentage => WholePart(rake, pot, s.rakePercentage)
  }

  /** Somebody who holds the code that the winner was brought in with. */
  predicate Refers(users: seq<User>, winner: nat, u: nat)
    requires winner < |users|
  {
    users[winner].referredBy != "" && u < |users| && users[u].referralCode == users[winner].referredBy
  }

  /** The referrer is such a user, and there is one exactly if such a user exists. */
  lemma {:induction false} ReferrerIs(users: seq<User>, winner: nat)
    requires winner < |users|
    ensures var r := Referrer(users, users[winner].referredBy);
      && (r.Some? ==> Refers(users, winner, r.value))
      && (r.None? ==> forall u: nat :: u < |users| ==> !Refers(users, winner, u))
  {
    CodeFound(users, users[winner].referredBy, 0);
  }

  lemma {:induction false} CodeFound(users: seq<User>, code: string, from: nat)
    requires from <= |users|
    ensures ByCode(users, code, from).None? ==> forall u :: from <= u < |users| ==> users[u].referralCode != code
    decreases |users| - from
  {
    if from < |users| {
      CodeFound(users, code, from + 1);
    }
  }

  function ReferralRate(s: Settings): real {
    match s.rakeMode
    case SmallBlind => s.referralSbMode
    case Percentage => s.referralPctMode
  }

  /** The referrer's part: the whole part of the mode's own rate, as far as the rake leaves it. */
  predicate ReferrerPart(cut: int, pot: int, rake: int, whole: int, s: Settings) {
    WholePart(whole, pot, ReferralRate(s)) && cut == if whole <= pot - rake then whole else pot - rake
  }

  /** How a pot is split, to the chip. */
  lemma {:induction false} SplitIs(users: seq<User>, winner: nat, pot: int, smallBlind: int, s: Settings)
    returns (whole: int)
    requires winner < |users| && pot > 0 && smallBlind >= 0 && InRange(s)
    ensures var p := Split(users, winner, pot, smallBlind, s);
      && SitePart(p.siteRake, pot, smallBlind, s)
      && (p.referrer.Some? ==> Refers(users, winner, p.referrer.value))
      && (p.referrer.None? ==> forall u: nat :: u < |users| ==> !Refers(users, winner, u))
      && (p.referrer.Some? ==> ReferrerPart(p.referralCut, pot, p.siteRake, whole, s))
      && (p.referralCut == 0 <==> p.referrer.None? || whole == 0 || p.siteRake == pot)
      && p.winnerNet == pot - p.siteRake - p.referralCut
  {
    whole := Percent(pot, ReferralRate(s));
    PercentIs(pot, s.rakePercentage);
    PercentIs(pot, ReferralRate(s));
    ReferrerIs(users, winner);
    SplitExact(users, winner, pot, smallBlind, s);
    PercentWithin(pot, ReferralRate(s));
  }

  /** The house's wallet gains exactly the rake and the referrer's exactly the cut; no other moves. */
  lemma {:induction false} WalletsGain(wallets: seq<int>, users: seq<User>, house: nat, winner: nat, pot: int,
      smallBlind: int, s: Settings, u: nat)
    requires |wallets| == |users| && house < |users| && winner < |users| && pot > 0 && smallBlind >= 0 && InRange(s)
    requires u < |wallets|
    ensures var p := Split(users, winner, pot, smallBlind, s);
      PaidParts(wallets, house, p)[u]
      == wallets[u] + (if u == house then p.siteRake else 0) + (if p.referrer == Some(u) then p.referralCut else 0)
  {
    SplitExact(users, winner, pot, smallBlind, s);
  }

  /** The rake comes off the winner's stack and no other. */
  lemma {:induction false} StackPays(seats: seq<Seat>, k: nat, raked: int)
    requires UniqueNames(seats) && k < |seats| && 0 <= raked <= seats[k].chips
    ensures TakeRake(seats, seats[k].name, raked) == seats[k := seats[k].(chips := seats[k].chips - raked)]
  {
    assert Named(seats, seats[k].name) == k;
  }

  /** One award: the winner's stack pays exactly what the house and the referrer gain. */
  lemma {:induction false} AwardRaked(r: Raked, users: seq<User>, house: nat, userIDs: map<string, nat>, k: nat,
      p: Payout, smallBlind: int, s: Settings)
    requires |r.wallets| == |users| && house < |users| && KnownUsers(userIDs, users) && UniqueNames(r.seats)
    requires smallBlind >= 0 && InRange(s) && k < |r.seats| && r.seats[k].name == p.winner && p.winner in userIDs
    requires 0 < p.amount <= r.seats[k].chips
    ensures var result := Split(users, userIDs[p.winner], p.amount, smallBlind, s);
      var q := RakeOne(r, users, house, userIDs, p, smallBlind, s);
      && q.seats == r.seats[k := r.seats[k].(chips := r.seats[k].chips - result.siteRake - result.referralCut)]
      && q.wallets == PaidParts(r.wallets, house, result)
  {
    SplitExact(users, userIDs[p.winner], p.amount, smallBlind, s);
    var result := Split(users, userIDs[p.winner], p.amount, smallBlind, s);
    StackPays(r.seats, k, result.siteRake + result.referralCut);
    assert r.seats[k := r.seats[k]] == r.seats;
  }
}
