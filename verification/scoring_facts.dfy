/** Properties of the scoring rules, stated the way the game promises them,
    and worked examples of each rule on small inputs. */
module ScoringFacts {
  import opened Wrappers
  import opened Text
  import opened Maps
  import opened Scoring

  // ---------------------------------------------------------------------------
  // 1-2-3 Match
  // ---------------------------------------------------------------------------

  /** The source's "as many distinct values as players" test is exactly "no
      two players chose the same value": then everybody loses 1; otherwise a
      pair scores 4 each, a value shared by three or more loses 2 each, and a
      value nobody else chose scores 0. */
  lemma Match123Outcomes(choices: Choices)
    ensures var out := Match123Rule(choices);
      && out.Keys == choices.Keys
      && (Injective(choices) ==> forall p :: p in out ==> out[p] == -1)
      && (!Injective(choices) ==> forall p :: p in out ==>
            && (out[p] == 4 <==> Count(choices, choices[p]) == 2)
            && (out[p] == -2 <==> Count(choices, choices[p]) >= 3)
            && (out[p] == 0 <==> Count(choices, choices[p]) == 1))
  {
    InjectiveIffValuesCard(choices);
    forall p | p in choices ensures Count(choices, choices[p]) >= 1 {
      assert p in Choosers(choices, choices[p]);
    }
  }

  // ---------------------------------------------------------------------------
  // Secret Auction
  // ---------------------------------------------------------------------------

  /** The scan from `top` down finds the highest level in 0..top that exactly
      one player bid, and finds nothing only when no such level exists. */
  lemma {:induction false} WinningBidIsHighestLoneBid(bids: map<string, int>, top: int)
    ensures WinningBid(bids, top).None? <==>
              forall v :: 0 <= v <= top ==> !LoneBid(bids, v)
    ensures WinningBid(bids, top).Some? ==>
              var w := WinningBid(bids, top).value;
              && 0 <= w <= top
              && LoneBid(bids, w)
              && forall v :: w < v <= top ==> !LoneBid(bids, v)
    decreases top + 1
  {
    if top >= 0 && !LoneBid(bids, top) {
      WinningBidIsHighestLoneBid(bids, top - 1);
    }
  }

  /** At most one player wins the auction; the winner is the only bidder at
      the highest level from 5 down to 0 with a single bidder; everybody else
      scores 0; and somebody wins whenever some level in 0..5 has a single
      bidder. */
  lemma AuctionSingleWinner(bids: map<string, int>)
    ensures var out := AwardPrize(bids);
      && out.Keys == bids.Keys
      && (forall p :: p in out ==> out[p] == 0 || out[p] == AuctionPrize)
      && (forall p, q :: p in out && q in out && out[p] == AuctionPrize && out[q] == AuctionPrize ==> p == q)
      && (forall p :: p in out && out[p] == AuctionPrize ==>
            && 0 <= bids[p] <= HighestBid
            && Bidders(bids, bids[p]) == {p}
            && forall v :: bids[p] < v <= HighestBid ==> !LoneBid(bids, v))
      && ((forall v :: 0 <= v <= HighestBid ==> !LoneBid(bids, v)) ==>
            forall p :: p in out ==> out[p] == 0)
      && ((exists v :: 0 <= v <= HighestBid && LoneBid(bids, v)) ==>
            exists p :: p in out && out[p] == AuctionPrize)
  {
    WinningBidIsHighestLoneBid(bids, HighestBid);
    var out := AwardPrize(bids);
    match WinningBid(bids, HighestBid)
    case None =>
    case Some(w) =>
      var winner :| winner in Bidders(bids, w);
      assert winner in out && out[winner] == AuctionPrize;
      forall p | p in out && out[p] == AuctionPrize ensures Bidders(bids, w) == {p} {
        assert p in Bidders(bids, w);
        forall q | q in Bidders(bids, w) ensures q == p {
          SingletonUnique(Bidders(bids, w), p, q);
        }
      }
  }

  // ---------------------------------------------------------------------------
  // Timing Button
  // ---------------------------------------------------------------------------

  /** With n clickers every clicker scores n when n is odd and -n when n is
      even, and nobody else scores; no clicker means no score at all. */
  lemma TimingParity(choices: Choices)
    ensures var out := TimingRule(choices);
      var n := |Clickers(choices)|;
      && out.Keys == choices.Keys
      && (n == 0 ==> forall p :: p in out ==> out[p] == 0)
      && (forall p :: p in out && out[p] != 0 ==> Clicks(choices[p]))
      && (forall p :: p in out && Clicks(choices[p]) ==>
            (out[p] > 0 <==> n % 2 == 1) && (out[p] == n || out[p] == -n) && out[p] != 0)
  {
    var n := |Clickers(choices)|;
    forall p | p in choices && Clicks(choices[p]) ensures n > 0 {
      assert p in Clickers(choices);
    }
  }

  // ---------------------------------------------------------------------------
  // Nunchi Challenge
  // ---------------------------------------------------------------------------

  /** Only a lone yes-sayer gains, by 5; several yes-sayers lose 3 each; and
      the round counts as resolved exactly when somebody said yes (or it
      already did). */
  lemma NunchiOutcomes(choices: Choices, resolved: bool)
    ensures var o := NunchiRule(choices, resolved);
      && o.deltas.Keys == choices.Keys
      && (forall p :: p in o.deltas && o.deltas[p] == 5 ==> YesSayers(choices) == {p})
      && (forall p :: p in o.deltas && o.deltas[p] != 0 ==> SaysYes(choices[p]))
      && (forall p :: p in o.deltas && SaysYes(choices[p]) ==>
            o.deltas[p] == (if |YesSayers(choices)| == 1 then 5 else -3))
      && (o.resolved <==> resolved || YesSayers(choices) != {})
  {
    var y := YesSayers(choices);
    forall p | p in choices && SaysYes(choices[p]) ensures |y| >= 1 {
      assert p in y;
    }
    if |y| == 1 {
      forall p | p in choices && SaysYes(choices[p]) ensures y == {p} {
        assert p in y;
        forall q | q in y ensures q == p {
          SingletonUnique(y, p, q);
        }
      }
    }
  }

  // ---------------------------------------------------------------------------
  // Race
  // ---------------------------------------------------------------------------

  /** An order is accepted exactly when the lower-cased text has two words
      and the first names horse 1, 2 or 3; the horse is that number. */
  lemma ParseOrderAccepts(c: string)
    ensures ParseOrder(c).Some? <==>
              |Fields(ToLower(c))| == 2 && 1 <= HorseNumber(Fields(ToLower(c))[0]) <= 3
    ensures ParseOrder(c).Some? ==>
              ParseOrder(c).value == RaceOrder(HorseNumber(Fields(ToLower(c))[0]), Fields(ToLower(c))[1])
  {
    var parts := Fields(ToLower(c));
    if |parts| == 2 {
      var h := HorseNumber(parts[0]);
      assert ParseOrder(c) == if h < 1 || h > 3 then None else Some(RaceOrder(h, parts[1]));
    }
  }

  /** An order written the way the game asks for it, "horse<n> <action>"
      with a lower-case action word, parses back to that horse and action. */
  lemma ParseOrderOfOrder(h: int, w: string)
    requires 1 <= h <= 3 && IsWord(w) && ToLower(w) == w
    ensures ParseOrder("horse" + Decimal(h) + " " + w) == Some(RaceOrder(h, w))
  {
    var hd := "horse" + Decimal(h);
    var c := hd + " " + w;
    OrderIsLowerCase(h, w);
    OrderFields(h, w);
    HorseNumberOfDecimal(h);
    var parts := Fields(ToLower(c));
    assert parts == [hd, w];
    assert HorseNumber(parts[0]) == h;
  }

  lemma HorseNumberOfDecimal(n: nat)
    requires n <= MaxInt64
    ensures HorseNumber("horse" + Decimal(n)) == n
  {
    assert TrimPrefix("horse" + Decimal(n), "horse") == Decimal(n);
    AtoiOfDecimal(n);
  }

  lemma OrderIsLowerCase(h: int, w: string)
    requires 1 <= h <= 3 && ToLower(w) == w
    ensures ToLower("horse" + Decimal(h) + " " + w) == "horse" + Decimal(h) + " " + w
  {
    var hd := "horse" + Decimal(h);
    var c := hd + " " + w;
    assert Decimal(h) == [('0' as int + h) as char];
    forall i | 0 <= i < |c| ensures LowerChar(c[i]) == c[i] {
      if i > |hd| {
        assert c[i] == w[i - |hd| - 1] && ToLower(w)[i - |hd| - 1] == LowerChar(w[i - |hd| - 1]);
      }
    }
  }

  lemma OrderFields(h: int, w: string)
    requires 1 <= h <= 3 && IsWord(w)
    ensures Fields("horse" + Decimal(h) + " " + w) == ["horse" + Decimal(h), w]
  {
    var hd := "horse" + Decimal(h);
    assert Decimal(h) == [('0' as int + h) as char];
    assert [hd, w][1..] == [w];
    assert Unwords([hd, w]) == hd + " " + w;
    assert AllWords([hd, w]);
    FieldsOfUnwords([hd, w]);
  }

  /** A second sabotage in a row is ignored: it moves no horse and leaves the
      player's last action at "sabotage". */
  lemma RepeatedSabotageIgnored(choices: Choices, last: map<string, string>, p: string)
    requires p in choices && p in last && last[p] == Sabotage
    requires ParseOrder(choices[p]).Some? && ParseOrder(choices[p]).value.action == Sabotage
    ensures NewLastActions(choices, last)[p] == Sabotage
    ensures forall h, a :: p !in OrdersFor(choices, last, h, a)
  {
  }

  /** Betting on the leading horse pays 5, on the second 3; any other bet,
      including an unreadable one, costs 3; a choice without any word is no
      bet. */
  lemma RacePayouts(c: string, rank: seq<int>)
    requires |rank| == 3
    ensures Payout(c, rank) in {5, 3, 0, -3}
    ensures Payout(c, rank) == 0 <==> Fields(ToLower(c)) == []
    ensures Payout(c, rank) == 5 <==> BetIndex(c) == Some(rank[0])
    ensures rank[0] != rank[1] ==> (Payout(c, rank) == 3 <==> BetIndex(c) == Some(rank[1]))
  {
  }

  // ---------------------------------------------------------------------------
  // Players who submitted nothing
  // ---------------------------------------------------------------------------

  /** A player who submitted nothing plays the empty choice: a non-traitor,
      a bid of 0, no click, no yes and no race order or bet. */
  lemma EmptyChoiceTakesPart()
    ensures !Betrays("")
    ensures Bid("") == 0
    ensures !Clicks("")
    ensures !SaysYes("")
    ensures ParseOrder("") == None && BetIndex("") == None
  {
    assert TrimSpace("") == [];
    assert ToLower("") == [];
    assert Fields("") == [];
  }

  // ---------------------------------------------------------------------------
  // Worked examples on small inputs
  // ---------------------------------------------------------------------------

  /** One traitor among three takes all 6; the two cooperators lose 3. */
  lemma TraitorSplitExample()
    ensures TraitorSplitRule(map["A" := "배신", "B" := "협력", "C" := "협력"])
            == map["A" := 6, "B" := -3, "C" := -3]
  {
    var m := map["A" := "배신", "B" := "협력", "C" := "협력"];
    assert OccursAt(m["A"], BetrayMark, 0);
    assert !Betrays(m["B"]) by {
      assert m["B"][0] == '협' && BetrayMark[0] == '배';
      assert !OccursAt(m["B"], BetrayMark, 0);
    }
    assert Traitors(m) == {"A"};
  }

  /** A pair and a singleton: the pair scores 4 each and, as the source is
      written, the singleton scores 0 (not -1). */
  lemma Match123Example()
    ensures Match123Rule(map["A" := "1", "B" := "1", "C" := "2"])
            == map["A" := 4, "B" := 4, "C" := 0]
  {
    var m := map["A" := "1", "B" := "1", "C" := "2"];
    InjectiveIffValuesCard(m);
    assert m["A"] == m["B"];
    assert !Injective(m);
    assert Choosers(m, "1") == {"A", "B"};
    assert Choosers(m, "2") == {"C"};
  }

  /** A single decimal digit bids its own value. */
  lemma BidOfDigit(c: string)
    requires |c| == 1 && IsDigit(c[0])
    ensures Bid(c) == c[0] as int - '0' as int
  {
    assert TrimSpace(c) == c;
    assert AllDigits(c);
    assert c[..|c| - 1] == [];
    assert DigitsValue(c) == c[0] as int - '0' as int;
  }

  /** Level 5 is bid by one player only, so that player takes the 6. */
  lemma AuctionExample()
    ensures AuctionRule(map["A" := "3", "B" := "3", "C" := "5"])
            == map["A" := 0, "B" := 0, "C" := 6]
  {
    BidsExample();
    AwardExample();
  }

  lemma BidsExample()
    ensures Bids(map["A" := "3", "B" := "3", "C" := "5"]) == map["A" := 3, "B" := 3, "C" := 5]
  {
    var m := map["A" := "3", "B" := "3", "C" := "5"];
    var bids := map["A" := 3, "B" := 3, "C" := 5];
    forall p | p in m ensures Bid(m[p]) == bids[p] {
      BidOfDigit(m[p]);
    }
    BidsPointwise(m, bids);
  }

  lemma BidsPointwise(m: Choices, bids: map<string, int>)
    requires m.Keys == bids.Keys
    requires forall p :: p in m ==> Bid(m[p]) == bids[p]
    ensures Bids(m) == bids
  {
  }

  lemma AwardExample()
    ensures AwardPrize(map["A" := 3, "B" := 3, "C" := 5]) == map["A" := 0, "B" := 0, "C" := 6]
  {
    var bids := map["A" := 3, "B" := 3, "C" := 5];
    assert Bidders(bids, 5) == {"C"};
    assert WinningBid(bids, HighestBid) == Some(5);
  }

  /** Two clickers, an even number: both lose 2. */
  lemma TimingExample()
    ensures TimingRule(map["A" := "click", "B" := "pass", "C" := "click"])
            == map["A" := -2, "B" := 0, "C" := -2]
  {
    var m := map["A" := "click", "B" := "pass", "C" := "click"];
    assert ToLower("click") == "click";
    assert OccursAt(ToLower("click"), "click", 0);
    assert !Clicks("pass");
    assert Clickers(m) == {"A", "C"};
  }
}
