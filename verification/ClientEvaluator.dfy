/** The client's evaluator as its loops run: cards grouped in a map, the groups sorted, then the category decided. */
module ClientEvaluator {
  import opened Sequences
  import opened Cards
  import opened BestHand
  import opened HandOrder
  import opened HandSolver
  import opened Refinement
  import opened SolverTheorem
  import opened Options

  /** Places a group's rank among groups already in order. */
  function InsertGroup(cards: seq<Card>, x: int, groups: seq<int>): (r: seq<int>)
    ensures forall y :: y in r <==> y == x || y in groups
  {
    if groups == [] || Before(cards, x, groups[0]) then [x] + groups
    else [groups[0]] + InsertGroup(cards, x, groups[1..])
  }

  /** Bigger groups first, then higher ranks. */
  function SortGroups(cards: seq<Card>, groups: seq<int>): (r: seq<int>)
    ensures forall y :: y in r <==> y in groups
  {
    if groups == [] then [] else InsertGroup(cards, groups[0], SortGroups(cards, groups[1..]))
  }

  lemma {:induction false} InsertOrdered(cards: seq<Card>, x: int, groups: seq<int>)
    requires GroupOrdered(cards, groups) && x !in groups
    ensures GroupOrdered(cards, InsertGroup(cards, x, groups))
  {
    if groups != [] && !Before(cards, x, groups[0]) {
      InsertOrdered(cards, x, groups[1..]);
      var r := InsertGroup(cards, x, groups[1..]);
      forall i | 0 <= i < |r| ensures Before(cards, groups[0], r[i]) {
        assert r[i] in r;
        if r[i] != x {
          var j :| 0 <= j < |groups[1..]| && groups[1..][j] == r[i];
          assert groups[j + 1] == r[i];
        }
      }
    }
  }

  lemma {:induction false} SortOrdered(cards: seq<Card>, groups: seq<int>)
    requires Distinct(groups)
    ensures GroupOrdered(cards, SortGroups(cards, groups))
  {
    if groups != [] {
      SortOrdered(cards, groups[1..]);
      InsertOrdered(cards, groups[0], SortGroups(cards, groups[1..]));
    }
  }

  method GroupByRank(cards: seq<Card>) returns (byRank: map<int, seq<Card>>)
    ensures ByRank(cards, byRank)
  {
    byRank := map[];
    for i := 0 to |cards|
      invariant ByRank(cards[..i], byRank)
    {
      var c := cards[i];
      assert cards[..i + 1] == cards[..i] + [c];
      RankStep(cards[..i], c, byRank);
      byRank := byRank[c.rank := (if c.rank in byRank then byRank[c.rank] else []) + [c]];
    }
    assert cards[..|cards|] == cards;
  }

  /** The keys of the map, each once. */
  method KeysOf(byRank: map<int, seq<Card>>) returns (keys: seq<int>)
    ensures Distinct(keys) && forall r :: r in keys <==> r in byRank
  {
    var todo := byRank.Keys;
    keys := [];
    while exists k :: k in todo
      invariant todo <= byRank.Keys && Distinct(keys)
      invariant forall r :: r in keys <==> r in byRank && r !in todo
      decreases todo
    {
      var k :| k in todo;
      todo := todo - {k};
      keys := keys + [k];
    }
  }

  method EverySameSuit(cards: seq<Card>) returns (flush: bool)
    ensures flush == IsFlush(cards)
  {
    for i := 0 to |cards|
      invariant forall j :: 0 <= j < i ==> cards[j].suit == cards[0].suit
    {
      if cards[i].suit != cards[0].suit {
        return false;
      }
    }
    return true;
  }

  /** The high card of a straight, or 0. */
  method FindStraight(ranks: seq<int>) returns (straightHigh: int)
    ensures straightHigh == StraightHigh(ranks)
  {
    straightHigh := 0;
    if |ranks| == 5 {
      if ranks[0] - ranks[4] == 4 {
        straightHigh := ranks[0];
      } else if ranks == [13, 4, 3, 2, 1] {
        straightHigh := 4;
      }
    }
  }

  lemma {:induction false} KeysAreRanks(cards: seq<Card>, keys: seq<int>)
    requires ValidCards(cards) && Distinct(keys) && forall r :: r in keys <==> OfRank(cards, r) != []
    ensures SortGroups(cards, keys) == GroupRanks(cards) && SortRanks(keys) == DistinctRanks(cards, ACE)
  {
    SortOrdered(cards, keys);
    SortRanksDescends(keys);
    forall x ensures x in keys <==> Count(cards, x) > 0 && 1 <= x <= ACE {
      CountAtMostFour(cards, x);
    }
    GroupRanksAre(cards, SortGroups(cards, keys));
    DescendingUnique(SortRanks(keys), DistinctRanks(cards, ACE));
  }

  method CollectGroups(cards: seq<Card>, byRank: map<int, seq<Card>>, groupRanks: seq<int>)
    returns (groups: seq<seq<Card>>)
    requires ByRank(cards, byRank) && forall r :: r in groupRanks ==> r in byRank
    ensures |groups| == |groupRanks| && forall i :: 0 <= i < |groups| ==> groups[i] == OfRank(cards, groupRanks[i])
  {
    groups := [];
    for i := 0 to |groupRanks|
      invariant |groups| == i && forall j :: 0 <= j < i ==> groups[j] == OfRank(cards, groupRanks[j])
    {
      assert groupRanks[i] in groupRanks;
      groups := groups + [byRank[groupRanks[i]]];
    }
  }

  /** The groups and the ranks of the cards, in the orders the categories read them. */
  method GroupsAndRanks(cards: seq<Card>) returns (groups: seq<seq<Card>>, groupRanks: seq<int>, ranks: seq<int>)
    requires ValidCards(cards)
    ensures groupRanks == GroupRanks(cards) && ranks == DistinctRanks(cards, ACE)
    ensures |groups| == |groupRanks| && forall i :: 0 <= i < |groups| ==> groups[i] == OfRank(cards, groupRanks[i])
  {
    var byRank := GroupByRank(cards);
    var keys := KeysOf(byRank);
    KeysAreRanks(cards, keys);
    groupRanks := SortGroups(cards, keys);
    ranks := SortRanks(keys);
    groups := CollectGroups(cards, byRank, groupRanks);
  }

  /** The cards of the first `n` groups. */
  method CardsOf(groups: seq<seq<Card>>, n: nat) returns (r: seq<Card>)
    ensures forall c :: c in r <==> exists i :: 0 <= i < n && i < |groups| && c in groups[i]
  {
    r := [];
    for i := 0 to if n < |groups| then n else |groups|
      invariant forall c :: c in r <==> exists j :: 0 <= j < i && c in groups[j]
    {
      r := r + groups[i];
    }
  }

  /** The cards to lift off the table: all of a straight or a flush, else those that share their rank with another. */
  ghost predicate Shows(cards: seq<Card>, e: Evaluated, core: seq<Card>) {
    forall c :: c in core <==> c in cards && (e.category in {5, 6, 9} || Count(cards, c.rank) >= 2)
  }

  /** How many groups make the category; none of the cards beyond them are shown. */
  function GroupsShown(category: int): nat {
    match category
    case 8 => 1
    case 4 => 1
    case 3 => 2
    case 2 => 1
    case _ => 0
  }

  ghost predicate Lifted(cards: seq<Card>, groups: seq<seq<Card>>, e: Evaluated, core: seq<Card>) {
    if e.category in {5, 6, 7, 9} then core == cards
    else forall c :: c in core <==> exists i :: 0 <= i < GroupsShown(e.category) && i < |groups| && c in groups[i]
  }

  lemma {:induction false} RepeatedRanks(cards: seq<Card>, e: Evaluated, r: int)
    requires ValidCards(cards) && |cards| == 5 && e == EvaluateFive(cards) && e.category !in {5, 6, 9}
    ensures e.category == 7 ==> (Count(cards, r) > 0 <==> Count(cards, r) >= 2)
    ensures e.category != 7 ==>
      (Count(cards, r) >= 2 <==>
          exists i :: 0 <= i < GroupsShown(e.category) && i < |GroupRanks(cards)| && GroupRanks(cards)[i] == r)
  {
    var g, d := GroupRanks(cards), DistinctRanks(cards, ACE);
    GroupRanksMembers(cards);
    RanksAreGroups(cards, d, g);
    FiveShapeOf(cards, g);
    RanksShown(cards, g, Sizes(cards, g), d, e, r);
  }

  lemma {:induction false} RanksShown(cards: seq<Card>, g: seq<int>, n: seq<nat>, d: seq<int>, e: Evaluated, r: int)
    requires FiveSizes(n) && |n| == |g| && (forall i :: 0 <= i < |g| ==> n[i] == Count(cards, g[i]))
    requires forall x :: x in g <==> Count(cards, x) > 0
    requires e == Classify(g, n[0], n[1], d, IsFlush(cards)) && e.category !in {5, 6, 9}
    ensures e.category == 7 ==> (Count(cards, r) > 0 <==> Count(cards, r) >= 2)
    ensures e.category != 7 ==>
      (Count(cards, r) >= 2 <==> exists i :: 0 <= i < GroupsShown(e.category) && i < |g| && g[i] == r)
  {
    if r in g {
      var i :| 0 <= i < |g| && g[i] == r;
      SizesShown(n, i, e, d, IsFlush(cards), g);
    }
    forall i | 0 <= i < GroupsShown(e.category) && i < |g| ensures Count(cards, g[i]) >= 2 {
      SizesShown(n, i, e, d, IsFlush(cards), g);
    }
  }

  lemma {:induction false} SizesShown(n: seq<nat>, i: nat, e: Evaluated, d: seq<int>, flush: bool, g: seq<int>)
    requires FiveSizes(n) && i < |n| && e == Classify(g, n[0], n[1], d, flush) && e.category !in {5, 6, 9}
    ensures if e.category == 7 then n[i] >= 2 else n[i] >= 2 <==> i < GroupsShown(e.category)
  {
  }

  lemma {:induction false} CoreShown(cards: seq<Card>, groups: seq<seq<Card>>, e: Evaluated, core: seq<Card>)
    requires ValidCards(cards) && |cards| == 5 && e == EvaluateFive(cards) && Lifted(cards, groups, e, core)
    requires |groups| == |GroupRanks(cards)| && forall i :: 0 <= i < |groups| ==>
      groups[i] == OfRank(cards, GroupRanks(cards)[i])
    ensures Shows(cards, e, core)
  {
    if e.category !in {5, 6, 9} {
      forall c ensures c in core <==> c in cards && Count(cards, c.rank) >= 2 {
        RepeatedRanks(cards, e, c.rank);
        CountPositive(cards);
      }
    }
  }

  method EvaluateFiveCards(cards: seq<Card>) returns (e: Evaluated, core: seq<Card>)
    requires ValidCards(cards) && |cards| == 5
    ensures e == EvaluateFive(cards) && Shows(cards, e, core)
  {
    var groups, groupRanks, ranks := GroupsAndRanks(cards);
    var flush := EverySameSuit(cards);
    var straightHigh := FindStraight(ranks);
    e, core := Decide(cards, groups, groupRanks, ranks, flush, straightHigh);
    CoreShown(cards, groups, e, core);
  }

  method Decide(cards: seq<Card>, groups: seq<seq<Card>>, groupRanks: seq<int>, ranks: seq<int>, flush: bool,
      straightHigh: int)
    returns (e: Evaluated, core: seq<Card>)
    requires straightHigh == StraightHigh(ranks)
    ensures e == Classify(groupRanks, SizeAt(groups, 0), SizeAt(groups, 1), ranks, flush)
    ensures Lifted(cards, groups, e, core)
  {
    var n0, n1 := SizeAt(groups, 0), SizeAt(groups, 1);
    if straightHigh != 0 && flush {
      return Evaluated(9, [straightHigh]), cards;
    }
    if n0 == 4 {
      core := CardsOf(groups, 1);
      return Evaluated(8, groupRanks), core;
    }
    if n0 == 3 && n1 == 2 {
      return Evaluated(7, groupRanks), cards;
    }
    if flush {
      return Evaluated(6, ranks), cards;
    }
    if straightHigh != 0 {
      return Evaluated(5, [straightHigh]), cards;
    }
    if n0 == 3 {
      core := CardsOf(groups, 1);
      return Evaluated(4, groupRanks), core;
    }
    if n0 == 2 && n1 == 2 {
      core := CardsOf(groups, 2);
      return Evaluated(3, groupRanks), core;
    }
    if n0 == 2 {
      core := CardsOf(groups, 1);
      return Evaluated(2, groupRanks), core;
    }
    return Evaluated(1, ranks), [];
  }

  function SizeAt(groups: seq<seq<Card>>, i: nat): nat {
    if i < |groups| then |groups[i]| else 0
  }

  // ---- The hand that can be made ----

  /** Five of the cards that no other five beat, and what is shown of them. */
  ghost predicate MadeFrom(five: seq<Card>, cards: seq<Card>, core: seq<Card>) {
    && Within(five, cards) && Shows(five, EvaluateFive(five), core)
    && forall other :: Within(other, cards) ==> Compare(EvaluateFive(other), EvaluateFive(five)) <= 0
  }

  lemma {:induction false} BestStep(fives: seq<seq<Card>>, i: nat)
    requires i < |fives|
    ensures var e := EvaluateFive(fives[i]);
      BestOf(EvaluateAll(fives[..i + 1]))
      == if i > 0 && Compare(e, BestOf(EvaluateAll(fives[..i]))) <= 0 then BestOf(EvaluateAll(fives[..i])) else e
  {
    EvaluateSnoc(fives[..i], fives[i]);
    assert fives[..i + 1] == fives[..i] + [fives[i]];
    BestSnoc(EvaluateAll(fives[..i]), EvaluateFive(fives[i]));
  }

  lemma {:induction false} EvaluateSnoc(fives: seq<seq<Card>>, five: seq<Card>)
    ensures EvaluateAll(fives + [five]) == EvaluateAll(fives) + [EvaluateFive(five)]
  {
  }

  lemma {:induction false} BestSnoc(es: seq<Evaluated>, e: Evaluated)
    ensures BestOf(es + [e]) == if es != [] && Compare(e, BestOf(es)) <= 0 then BestOf(es) else e
  {
    assert (es + [e])[..|es|] == es;
  }

  lemma {:induction false} BestIsMade(cards: seq<Card>, five: seq<Card>, core: seq<Card>)
    requires ValidCards(cards) && five in Combinations(cards, 5) && Shows(five, EvaluateFive(five), core)
    requires EvaluateFive(five) == BestOf(EvaluateAll(Combinations(cards, 5)))
    ensures MadeFrom(five, cards, core)
  {
    var es := EvaluateAll(Combinations(cards, 5));
    CombinationsSound(cards, 5, five);
    BestOfIsMaximum(es);
    forall other | Within(other, cards) ensures Compare(EvaluateFive(other), EvaluateFive(five)) <= 0 {
      Attained(cards, other);
    }
  }

  lemma {:induction false} ValidSelection(cards: seq<Card>, five: seq<Card>)
    requires ValidCards(cards) && five in Combinations(cards, 5)
    ensures ValidCards(five) && |five| == 5
  {
    CombinationsSound(cards, 5, five);
  }

  /** After `i` selections the best is that of `at`, and `core` is shown of it. */
  ghost predicate Scanned(fives: seq<seq<Card>>, i: nat, best: Option<Evaluated>, core: seq<Card>, at: seq<Card>) {
    && i <= |fives|
    && best == (if i == 0 then None else Some(BestOf(EvaluateAll(fives[..i]))))
    && (i > 0 ==> at in fives && best == Some(EvaluateFive(at)) && Shows(at, best.value, core))
  }

  lemma {:induction false} ScanStep(
      fives: seq<seq<Card>>, i: nat, best: Option<Evaluated>, core: seq<Card>, at: seq<Card>, shown: seq<Card>)
    requires Scanned(fives, i, best, core, at) && i < |fives| && Shows(fives[i], EvaluateFive(fives[i]), shown)
    ensures var e := EvaluateFive(fives[i]);
      if best.None? || Compare(e, best.value) > 0 then Scanned(fives, i + 1, Some(e), shown, fives[i])
      else Scanned(fives, i + 1, best, core, at)
  {
    BestStep(fives, i);
  }

  /** Whether a hand takes the place of the best so far: only when strictly better. */
  method Replaces(e: Evaluated, best: Option<Evaluated>) returns (better: bool)
    ensures better <==> best.None? || Compare(e, best.value) > 0
  {
    if best.None? {
      return true;
    }
    var d := CompareLoop(e, best.value);
    return d > 0;
  }

  method ScanOne(fives: seq<seq<Card>>, i: nat, best: Option<Evaluated>, core: seq<Card>, ghost at: seq<Card>)
    returns (best': Option<Evaluated>, core': seq<Card>, ghost at': seq<Card>)
    requires i < |fives| && ValidCards(fives[i]) && |fives[i]| == 5 && Scanned(fives, i, best, core, at)
    ensures Scanned(fives, i + 1, best', core', at')
  {
    var e, shown := EvaluateFiveCards(fives[i]);
    ScanStep(fives, i, best, core, at, shown);
    var better := Replaces(e, best);
    if better {
      return Some(e), shown, fives[i];
    }
    return best, core, at;
  }

  /** The scan over all selections of five. */
  method BestFive(cards: seq<Card>) returns (best: Option<Evaluated>, core: seq<Card>)
    requires ValidCards(cards) && |cards| >= 5
    ensures exists five :: MadeFrom(five, cards, core) && best == Some(EvaluateFive(five))
  {
    var fives := Combinations(cards, 5);
    CombinationsExist(cards);
    best, core := None, [];
    ghost var at := fives[0];
    var i := 0;
    while i < |fives|
      invariant 0 <= i && Scanned(fives, i, best, core, at)
    {
      ValidSelection(cards, fives[i]);
      best, core, at := ScanOne(fives, i, best, core, at);
      i := i + 1;
    }
    assert fives[..|fives|] == fives;
    BestIsMade(cards, at, core);
  }

  /** The cards sharing their rank with another. */
  method Paired(cards: seq<Card>) returns (r: seq<Card>)
    requires Distinct(cards)
    ensures forall c :: c in r <==> c in cards && Count(cards, c.rank) >= 2
  {
    r := [];
    for i := 0 to |cards|
      invariant forall c :: c in r <==> c in cards[..i] && Count(cards, c.rank) >= 2
    {
      var some := false;
      for j := 0 to |cards|
        invariant some <==> exists k :: 0 <= k < j && cards[k] != cards[i] && cards[k].rank == cards[i].rank
      {
        if cards[j] != cards[i] && cards[j].rank == cards[i].rank {
          some := true;
        }
      }
      SharedRank(cards, i);
      if some {
        r := r + [cards[i]];
      }
    }
    assert cards[..|cards|] == cards;
  }

  lemma {:induction false} SharedRank(cards: seq<Card>, i: nat)
    requires Distinct(cards) && i < |cards|
    ensures Count(cards, cards[i].rank) >= 2 <==>
      exists k :: 0 <= k < |cards| && cards[k] != cards[i] && cards[k].rank == cards[i].rank
  {
    var g := OfRank(cards, cards[i].rank);
    FilterDistinct(cards, (c: Card) => c.rank == cards[i].rank);
    assert cards[i] in g;
    if |g| >= 2 {
      var c := if g[0] == cards[i] then g[1] else g[0];
      assert c in g;
      var k :| 0 <= k < |cards| && cards[k] == c;
    }
    if k :| 0 <= k < |cards| && cards[k] != cards[i] && cards[k].rank == cards[i].rank {
      assert cards[k] in g;
      DistinctWithin([cards[k], cards[i]], g);
    }
  }

  ghost predicate Made(cards: seq<Card>, core: seq<Card>) {
    if |cards| < 5 then forall c :: c in core <==> c in cards && Count(cards, c.rank) >= 2
    else exists five :: MadeFrom(five, cards, core)
  }

  /** Which of the cards make a hand: of fewer than five those that pair, else the core of the best five. */
  method MadeHandCards(cards: seq<Card>) returns (core: seq<Card>)
    requires ValidCards(cards)
    ensures Made(cards, core)
  {
    if |cards| < 2 {
      assert forall r :: |OfRank(cards, r)| < 2;
      return [];
    }
    if |cards| < 5 {
      core := Paired(cards);
      return;
    }
    var best;
    best, core := BestFive(cards);
  }

  // ---- Codes ----

  /** Two characters in upper case; a ten may be written with its two digits. */
  function Normalized(code: string): (c: string)
    ensures code != "" ==> c != ""
  {
    if |code| < 2 then code
    else if |code| == 3 && code[..2] == "10" then ['T', Upper(code[2])]
    else [Upper(code[0]), Upper(code[1])]
  }

  /** The card of a code, unless it is missing, hidden or unreadable. */
  function ReadCode(code: Option<string>): Option<Card> {
    if code.None? || code.value == "" || code.value == "1B" then None
    else
      var c := Normalized(code.value);
      if IndexIn(CLIENT_RANK_ORDER, c[0]) < 0 || |c| < 2 then None else Some(NewCard(c))
  }

  function CodeOf(c: Card): string {
    [c.value, Upper(c.suit)]
  }

  lemma {:induction false} ReadsAs(code: string, c: string)
    requires DeckCode(c) && code != "" && code != "1B" && Normalized(code) == c
    ensures ReadCode(Some(code)) == Some(NewCard(c))
  {
    assert IndexIn(CLIENT_RANK_ORDER, c[0]) >= 0;
  }

  lemma {:induction false} DeckChars(code: string)
    requires DeckCode(code)
    ensures Upper(code[0]) == code[0] == Upper(Lower(code[0])) && Upper(code[1]) == code[1] == Upper(Lower(code[1]))
    ensures code[0] != '1' && Lower(code[0]) != '1'
  {
  }

  /** Every code of the deck is read, in upper or lower case, as the card it is written for. */
  lemma {:induction false} ReadsCodes(code: string)
    requires DeckCode(code)
    ensures ReadCode(Some(code)) == ReadCode(Some([Lower(code[0]), Lower(code[1])])) == Some(NewCard(code))
  {
    DeckChars(code);
    ReadsAs(code, code);
    ReadsAs([Lower(code[0]), Lower(code[1])], code);
  }

  /** A ten may be written with two digits. */
  lemma {:induction false} ReadsTen(code: string)
    requires DeckCode(code) && code[0] == 'T'
    ensures ReadCode(Some("10" + code[1..])) == Some(NewCard(code))
  {
    DeckChars(code);
    var long := "10" + code[1..];
    assert |long| == 3 && long[..2] == "10" && long[2] == code[1];
    ReadsAs(long, code);
  }

  /** A card of the deck is written back as its code. */
  lemma {:induction false} WritesBack(code: string, c: Card)
    requires DeckCode(code) && c == NewCard(code)
    ensures CodeOf(c) == code
  {
    DeckChars(code);
    Parts(code);
    TwoChars(code, c.value, Upper(c.suit));
  }

  lemma {:induction false} Parts(code: string)
    requires |code| == 2
    ensures NewCard(code).value == Upper(code[0]) && NewCard(code).suit == Lower(code[1])
  {
  }

  lemma {:induction false} TwoChars(code: string, a: char, b: char)
    requires |code| == 2 && code[0] == a && code[1] == b
    ensures code == [a, b]
  {
  }

  function ReadAll(codes: seq<Option<string>>): seq<Card> {
    if codes == [] then []
    else
      var front := ReadAll(codes[..|codes| - 1]);
      match ReadCode(codes[|codes| - 1])
      case Some(c) => front + [c]
      case None => front
  }

  method ReadCards(codes: seq<Option<string>>) returns (cards: seq<Card>)
    ensures cards == ReadAll(codes)
  {
    cards := [];
    for i := 0 to |codes|
      invariant cards == ReadAll(codes[..i])
    {
      assert codes[..i + 1][..i] == codes[..i];
      var c := ReadCode(codes[i]);
      if c.Some? {
        cards := cards + [c.value];
      }
    }
    assert codes[..|codes|] == codes;
  }

  ghost predicate Lifts(core: seq<Card>, lifted: set<string>) {
    forall code :: code in lifted <==> exists c :: c in core && CodeOf(c) == code
  }

  method CodesOf(core: seq<Card>) returns (lifted: set<string>)
    ensures Lifts(core, lifted)
  {
    lifted := {};
    for i := 0 to |core|
      invariant Lifts(core[..i], lifted)
    {
      assert core[..i + 1] == core[..i] + [core[i]];
      lifted := lifted + {CodeOf(core[i])};
    }
    assert core[..|core|] == core;
  }

  /** Which of the codes on show make a hand; missing, hidden and unreadable ones play no part. */
  method MadeHandCodes(codes: seq<Option<string>>) returns (lifted: set<string>)
    requires ValidCards(ReadAll(codes))
    ensures exists core :: Made(ReadAll(codes), core) && Lifts(core, lifted)
  {
    var cards := ReadCards(codes);
    var core := MadeHandCards(cards);
    lifted := CodesOf(core);
  }
}
