/** Users' wallets, and how the house's rake and a referrer's cut come out of a pot. */
module Wallets {
  import opened Options

  // Users are numbered by their place in the list; nobody is ever removed from it.
  datatype User = User(username: string, referralCode: string, referredBy: string)

  datatype RakeMode = Percentage | SmallBlind

  datatype Settings = Settings(rakeMode: RakeMode, rakePercentage: real, referralPctMode: real, referralSbMode: real)

  /** The ranges a settings update is held to. */
  predicate InRange(s: Settings) {
    0.0 <= s.rakePercentage <= 20.0 && 0.0 <= s.referralPctMode <= 50.0 && 0.0 <= s.referralSbMode <= 50.0
  }

  datatype PayoutResult = PayoutResult(winnerNet: int, siteRake: int, referralCut: int, referrer: Option<nat>)

  /** The whole part of a percentage of an amount. */
  function Percent(amount: int, percentage: real): int {
    (amount as real * percentage / 100.0).Floor
  }

  /** The first user with that referral code, if any. */
  function Referrer(users: seq<User>, code: string): Option<nat> {
    if code == "" then None else ByCode(users, code, 0)
  }

  function ByCode(users: seq<User>, code: string, from: nat): (r: Option<nat>)
    requires from <= |users|
    ensures r.Some? ==> from <= r.value < |users| && users[r.value].referralCode == code
    decreases |users| - from
  {
    if from == |users| then None
    else if users[from].referralCode == code then Some(from)
    else ByCode(users, code, from + 1)
  }

  function SiteRake(pot: int, smallBlind: int, s: Settings): int {
    if s.rakeMode == SmallBlind then if smallBlind > pot then pot else smallBlind
    else Percent(pot, s.rakePercentage)
  }

  function Split(users: seq<User>, winner: nat, pot: int, smallBlind: int, s: Settings): PayoutResult
    requires winner < |users|
  {
    if pot <= 0 then PayoutResult(pot, 0, 0, None)
    else
      var rake := SiteRake(pot, smallBlind, s);
      var referrer := Referrer(users, users[winner].referredBy);
      var cut :=
        if referrer.None? then 0
        else Percent(pot, if s.rakeMode == SmallBlind then s.referralSbMode else s.referralPctMode);
      var remaining := if pot - rake < 0 then 0 else pot - rake;
      var capped := if cut > remaining then remaining else cut;
      PayoutResult(pot - rake - capped, rake, capped, referrer)
  }

  function Add(wallets: seq<int>, user: nat, delta: int): (r: seq<int>)
    requires user < |wallets|
    ensures |r| == |wallets|
  {
    wallets[user := wallets[user] + delta]
  }

  /** The wallets after the house and the referrer have their parts; the winner's part stays on the table. */
  function PaidParts(wallets: seq<int>, house: nat, p: PayoutResult): (r: seq<int>)
    requires house < |wallets| && (p.referrer.Some? ==> p.referrer.value < |wallets|)
    ensures |r| == |wallets|
  {
    var raked := if p.siteRake > 0 then Add(wallets, house, p.siteRake) else wallets;
    if p.referralCut > 0 && p.referrer.Some? then Add(raked, p.referrer.value, p.referralCut) else raked
  }

  class WalletService {
    var users: seq<User>
    var wallets: seq<int>
    const house: nat

    ghost predicate Valid()
      reads this
    {
      |wallets| == |users| && house < |users|
    }

    method FindReferrer(code: string) returns (r: Option<nat>)
      ensures r == Referrer(users, code)
    {
      if code == "" {
        return None;
      }
      for i := 0 to |users|
        invariant ByCode(users, code, i) == ByCode(users, code, 0)
      {
        if users[i].referralCode == code {
          return Some(i);
        }
      }
      return None;
    }

    /** Takes the money only if it is there. */
    method Debit(user: nat, amount: int) returns (ok: bool)
      requires Valid() && user < |users|
      modifies this`wallets
      ensures ok <==> amount <= old(wallets)[user]
      ensures wallets == if ok then Add(old(wallets), user, -amount) else old(wallets)
    {
      ok := wallets[user] >= amount;
      if ok {
        wallets := wallets[user := wallets[user] - amount];
      }
    }

    method MoveWallet(user: nat, delta: int)
      requires Valid() && user < |users|
      modifies this`wallets
      ensures wallets == Add(old(wallets), user, delta)
    {
      wallets := wallets[user := wallets[user] + delta];
    }

    method ProcessHandPayout(winner: nat, pot: int, smallBlind: int, settings: Settings) returns (result: PayoutResult)
      requires Valid() && winner < |users|
      modifies this`wallets
      ensures result == Split(users, winner, pot, smallBlind, settings)
      ensures wallets == PaidParts(old(wallets), house, result)
    {
      if pot <= 0 {
        return PayoutResult(pot, 0, 0, None);
      }
      var siteRake;
      match settings.rakeMode {
        case SmallBlind =>
          siteRake := smallBlind;
          if siteRake > pot {
            siteRake := pot;
          }
        case Percentage =>
          siteRake := Percent(pot, settings.rakePercentage);
      }
      var referrer := FindReferrer(users[winner].referredBy);
      var referralCut := 0;
      if referrer.Some? {
        referralCut := Percent(pot, if settings.rakeMode == SmallBlind then settings.referralSbMode
        else settings.referralPctMode);
      }
      var remaining := pot - siteRake;
      if remaining < 0 {
        remaining := 0;
      }
      if referralCut > remaining {
        referralCut := remaining;
      }
      if siteRake > 0 {
        MoveWallet(house, siteRake);
      }
      if referralCut > 0 && referrer.Some? {
        MoveWallet(referrer.value, referralCut);
      }
      return PayoutResult(pot - siteRake - referralCut, siteRake, referralCut, referrer);
    }
  }

  // ---- The split is exact ----

  function SumWallets(wallets: seq<int>): int {
    if wallets == [] then 0 else wallets[0] + SumWallets(wallets[1..])
  }

  lemma {:induction false} AddSums(wallets: seq<int>, user: nat, delta: int)
    requires user < |wallets|
    ensures SumWallets(Add(wallets, user, delta)) == SumWallets(wallets) + delta
  {
    if user == 0 {
      assert Add(wallets, user, delta)[1..] == wallets[1..];
    } else {
      assert Add(wallets, user, delta)[1..] == Add(wallets[1..], user - 1, delta);
      AddSums(wallets[1..], user - 1, delta);
    }
  }

  /** A percentage between 0 and 100 of an amount is part of it. */
  lemma {:induction false} PercentWithin(amount: int, percentage: real)
    requires amount >= 0 && 0.0 <= percentage <= 100.0
    ensures 0 <= Percent(amount, percentage) <= amount
  {
    var x := amount as real * percentage / 100.0;
    assert 0.0 <= amount as real * percentage;
    assert amount as real * percentage <= amount as real * 100.0;
    assert 0.0 <= x <= amount as real;
    assert x.Floor as real <= x < x.Floor as real + 1.0;
  }

  /** What the winner keeps, the rake and the cut make up the pot, and none is negative. */
  lemma {:induction false} SplitExact(users: seq<User>, winner: nat, pot: int, smallBlind: int, s: Settings)
    requires winner < |users| && pot > 0 && smallBlind >= 0 && InRange(s)
    ensures var p := Split(users, winner, pot, smallBlind, s);
      && p.winnerNet + p.siteRake + p.referralCut == pot
      && p.winnerNet >= 0 && p.siteRake >= 0 && p.referralCut >= 0
      && (p.referrer.None? ==> p.referralCut == 0)
      && (p.referrer.Some? ==> p.referrer.value < |users|)
  {
    PercentWithin(pot, s.rakePercentage);
    PercentWithin(pot, s.referralSbMode);
    PercentWithin(pot, s.referralPctMode);
  }

  /** The wallets gain exactly what leaves the winner's stack, and none shrinks. */
  lemma {:induction false} PartsArrive(wallets: seq<int>, users: seq<User>, house: nat, winner: nat, pot: int,
      smallBlind: int, s: Settings)
    requires |wallets| == |users| && house < |users| && winner < |users| && pot > 0 && smallBlind >= 0 && InRange(s)
    ensures var p := Split(users, winner, pot, smallBlind, s);
      && SumWallets(PaidParts(wallets, house, p)) == SumWallets(wallets) + p.siteRake + p.referralCut
      && forall u :: 0 <= u < |wallets| ==> PaidParts(wallets, house, p)[u] >= wallets[u]
  {
    var p := Split(users, winner, pot, smallBlind, s);
    SplitExact(users, winner, pot, smallBlind, s);
    AddSums(wallets, house, p.siteRake);
    var raked := if p.siteRake > 0 then Add(wallets, house, p.siteRake) else wallets;
    if p.referrer.Some? {
      AddSums(raked, p.referrer.value, p.referralCut);
    }
  }
}
