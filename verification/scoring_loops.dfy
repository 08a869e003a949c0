/** The scoring rules the way `evaluateRound` computes them: loops over the
    choice map in Go's (unspecified) iteration order, which every method
    takes as a parameter `keys` listing each player once. Each method is
    proved to compute the declarative rule of the Scoring module, whatever
    that order is. */
module ScoringLoops {
  import opened Wrappers
  import opened Text
  import opened Maps
  import opened Scoring

  /** `keys` lists every element of `s` exactly once: one iteration order of
      a Go map with key set `s`. */
  predicate Enumerates(keys: seq<string>, s: set<string>) {
    Distinct(keys) && Elements(keys) == s
  }

  lemma PrefixStep(keys: seq<string>, i: int)
    requires 0 <= i < |keys|
    ensures Elements(keys[..i + 1]) == Elements(keys[..i]) + {keys[i]}
  {
    assert keys[..i + 1] == keys[..i] + [keys[i]];
  }

  lemma PrefixFresh(keys: seq<string>, i: int)
    requires Distinct(keys) && 0 <= i < |keys|
    ensures keys[i] !in Elements(keys[..i])
  {
  }

  lemma PrefixAll(keys: seq<string>)
    ensures Elements(keys[..|keys|]) == Elements(keys)
  {
    assert keys[..|keys|] == keys;
  }

  /** The players among `among` whose choice passes `f`. */
  function Selected(choices: Choices, among: set<string>, f: string -> bool): set<string> {
    set p | p in among && p in choices && f(choices[p])
  }

  /** The `for pid, c := range choices { if f(c) { ids = append(ids, pid) } }`
      loop shared by Traitor Split, Timing Button and Nunchi. */
  method CollectIds(choices: Choices, keys: seq<string>, f: string -> bool) returns (ids: seq<string>)
    requires Enumerates(keys, choices.Keys)
    ensures Distinct(ids)
    ensures Elements(ids) == Selected(choices, choices.Keys, f)
    ensures |ids| == |Selected(choices, choices.Keys, f)|
  {
    ids := [];
    for i := 0 to |keys|
      invariant Distinct(ids)
      invariant Elements(ids) == Selected(choices, Elements(keys[..i]), f)
    {
      PrefixStep(keys, i);
      PrefixFresh(keys, i);
      var pid := keys[i];
      if f(choices[pid]) {
        assert pid !in Elements(ids);
        assert Elements(ids + [pid]) == Elements(ids) + {pid};
        ids := ids + [pid];
      }
    }
    PrefixAll(keys);
    DistinctCard(ids);
  }

  /** Traitor Split as the source computes it. */
  method ComputeTraitorSplit(choices: Choices, keys: seq<string>) returns (out: Deltas)
    requires Enumerates(keys, choices.Keys)
    ensures out == TraitorSplitRule(choices)
  {
    out := Zeros(choices);
    var traitors := CollectIds(choices, keys, Betrays);
    assert Elements(traitors) == Traitors(choices);
    if |traitors| == 0 {
      return;
    }
    var gain := 6 / |traitors|;
    for j := 0 to |traitors|
      invariant out.Keys == choices.Keys
      invariant forall p :: p in choices ==> out[p] == (if p in traitors[..j] then gain else 0)
    {
      assert traitors[j] in Elements(traitors);
      out := out[traitors[j] := gain];
    }
    assert traitors[..|traitors|] == traitors;
    for k := 0 to |keys|
      invariant out.Keys == choices.Keys
      invariant forall p :: p in choices ==>
        out[p] == (if p in traitors then gain else if p in keys[..k] then -3 else 0)
    {
      var pid := keys[k];
      if !ContainsId(traitors, pid) {
        out := out[pid := -3];
      }
    }
    assert keys[..|keys|] == keys;
    var want := TraitorSplitRule(choices);
    forall p | p in choices ensures out[p] == want[p] {
      assert p in keys;
    }
  }

  /** Timing Button as the source computes it. */
  method ComputeTimingButton(choices: Choices, keys: seq<string>) returns (out: Deltas)
    requires Enumerates(keys, choices.Keys)
    ensures out == TimingRule(choices)
  {
    out := Zeros(choices);
    var clickers := CollectIds(choices, keys, Clicks);
    assert Elements(clickers) == Clickers(choices);
    var n := |clickers|;
    if n == 0 {
      return;
    }
    var score := n;
    if n % 2 == 0 {
      score := -n;
    }
    out := SetAll(out, clickers, score);
    TimingAll(choices, score);
  }

  lemma TimingAll(choices: Choices, score: int)
    requires var n := |Clickers(choices)|; score == if n % 2 == 0 then -n else n
    ensures SetWhere(Zeros(choices), Clickers(choices), score) == TimingRule(choices)
  {
  }

  /** `for _, pid := range ids { out[pid] = v }`. */
  method SetAll(out: Deltas, ids: seq<string>, v: int) returns (out': Deltas)
    requires Elements(ids) <= out.Keys
    ensures out' == SetWhere(out, Elements(ids), v)
  {
    out' := out;
    assert Elements(ids[..0]) == {};
    for j := 0 to |ids|
      invariant out' == SetWhere(out, Elements(ids[..j]), v)
    {
      PrefixStep(ids, j);
      assert ids[j] in Elements(ids);
      SetWhereStep(out, Elements(ids[..j]), ids[j], v);
      out' := out'[ids[j] := v];
    }
    PrefixAll(ids);
  }

  /** Nunchi Challenge as the source computes it, with the marker it sets. */
  method ComputeNunchi(choices: Choices, keys: seq<string>, resolved: bool) returns (out: Deltas, nowResolved: bool)
    requires Enumerates(keys, choices.Keys)
    ensures NunchiOutcome(out, nowResolved) == NunchiRule(choices, resolved)
  {
    out := Zeros(choices);
    nowResolved := resolved;
    var yes := CollectIds(choices, keys, SaysYes);
    assert Elements(yes) == YesSayers(choices);
    if |yes| == 1 {
      assert yes[0] in Elements(yes);
      out := out[yes[0] := 5];
      nowResolved := true;
      assert YesSayers(choices) == {yes[0]} by {
        assert yes == [yes[0]];
      }
    }
    if |yes| >= 2 {
      out := SetAll(out, yes, -3);
      nowResolved := true;
    }
  }

  // ---------------------------------------------------------------------------
  // Tallies: 1-2-3 Match and Circular Track
  // ---------------------------------------------------------------------------

  /** The players among `seen` who chose `v`. */
  function ChoosersAmong(choices: Choices, seen: set<string>, v: string): set<string> {
    set p | p in seen && p in choices && choices[p] == v
  }

  /** The values chosen by the players among `seen`. */
  function ValuesAmong(choices: Choices, seen: set<string>): set<string> {
    set p | p in seen && p in choices :: choices[p]
  }

  /** The tally of the choices of the players among `seen`. */
  function TallyOf(choices: Choices, seen: set<string>): map<string, int> {
    map v | v in ValuesAmong(choices, seen) :: |ChoosersAmong(choices, seen, v)|
  }

  lemma ChoosersStep(choices: Choices, seen: set<string>, k: string, v: string)
    requires k in choices && k !in seen
    ensures |ChoosersAmong(choices, seen + {k}, v)| ==
              |ChoosersAmong(choices, seen, v)| + (if choices[k] == v then 1 else 0)
  {
    assert k !in ChoosersAmong(choices, seen, v);
    assert ChoosersAmong(choices, seen + {k}, v) ==
             ChoosersAmong(choices, seen, v) + (if choices[k] == v then {k} else {});
  }

  /** One `count[c]++`. */
  lemma TallyStep(choices: Choices, seen: set<string>, k: string)
    requires k in choices && k !in seen
    ensures var t := TallyOf(choices, seen);
            var c := choices[k];
            TallyOf(choices, seen + {k}) == t[c := (if c in t then t[c] else 0) + 1]
  {
    var t := TallyOf(choices, seen);
    var c := choices[k];
    var t' := TallyOf(choices, seen + {k});
    assert ValuesAmong(choices, seen + {k}) == ValuesAmong(choices, seen) + {c};
    if c !in t {
      assert ChoosersAmong(choices, seen, c) == {};
    }
    forall v | v in t' ensures t'[v] == t[c := (if c in t then t[c] else 0) + 1][v] {
      ChoosersStep(choices, seen, k, v);
    }
  }

  lemma TallyAll(choices: Choices)
    ensures TallyOf(choices, choices.Keys).Keys == choices.Values
    ensures forall v :: v in choices.Values ==> TallyOf(choices, choices.Keys)[v] == Count(choices, v)
  {
    assert ValuesAmong(choices, choices.Keys) == choices.Values;
    forall v | v in choices.Values ensures TallyOf(choices, choices.Keys)[v] == Count(choices, v) {
      assert ChoosersAmong(choices, choices.Keys, v) == Choosers(choices, v);
    }
  }

  /** `count[c]++` over all choices: how often each chosen value occurs. */
  method Tally(choices: Choices, keys: seq<string>) returns (count: map<string, int>)
    requires Enumerates(keys, choices.Keys)
    ensures count.Keys == choices.Values
    ensures forall v :: v in count ==> count[v] == Count(choices, v)
  {
    count := map[];
    for i := 0 to |keys|
      invariant count == TallyOf(choices, Elements(keys[..i]))
    {
      PrefixStep(keys, i);
      PrefixFresh(keys, i);
      TallyStep(choices, Elements(keys[..i]), keys[i]);
      var c := choices[keys[i]];
      count := count[c := (if c in count then count[c] else 0) + 1];
    }
    PrefixAll(keys);
    TallyAll(choices);
  }

  /** `out` with the players in `sel` set to `v`. */
  function SetWhere(out: Deltas, sel: set<string>, v: int): Deltas {
    map p | p in out :: if p in sel then v else out[p]
  }

  lemma SetWhereStep(out: Deltas, sel: set<string>, k: string, v: int)
    requires k in out
    ensures SetWhere(out, sel + {k}, v) == SetWhere(out, sel, v)[k := v]
  {
  }

  /** Sets `score` for every player whose choice is `n`, leaving the others. */
  method AwardChoosers(out: Deltas, choices: Choices, keys: seq<string>, n: string, score: int)
    returns (out': Deltas)
    requires Enumerates(keys, choices.Keys) && out.Keys == choices.Keys
    ensures out' == SetWhere(out, Choosers(choices, n), score)
  {
    out' := out;
    for m := 0 to |keys|
      invariant out' == SetWhere(out, ChoosersAmong(choices, Elements(keys[..m]), n), score)
    {
      PrefixStep(keys, m);
      var pid := keys[m];
      if choices[pid] == n {
        assert ChoosersAmong(choices, Elements(keys[..m + 1]), n) ==
                 ChoosersAmong(choices, Elements(keys[..m]), n) + {pid};
        SetWhereStep(out, ChoosersAmong(choices, Elements(keys[..m]), n), pid, score);
        out' := out'[pid := score];
      } else {
        assert ChoosersAmong(choices, Elements(keys[..m + 1]), n) ==
                 ChoosersAmong(choices, Elements(keys[..m]), n);
      }
    }
    PrefixAll(keys);
    assert ChoosersAmong(choices, choices.Keys, n) == Choosers(choices, n);
  }

  /** The 1-2-3 Match score of a player whose value occurs `k` times, when
      some value is shared. */
  function PairScore(k: int): int {
    if k == 2 then 4 else if k >= 3 then -2 else 0
  }

  /** The 1-2-3 Match deltas once the values in `done` have been scored. */
  function PairsSoFar(choices: Choices, done: set<string>): Deltas {
    map p | p in choices :: if choices[p] in done then PairScore(Count(choices, choices[p])) else 0
  }

  lemma PairsStep(choices: Choices, done: set<string>, n: string)
    requires n !in done
    ensures PairsSoFar(choices, done + {n}) ==
              if Count(choices, n) == 2 || Count(choices, n) >= 3
              then SetWhere(PairsSoFar(choices, done), Choosers(choices, n), PairScore(Count(choices, n)))
              else PairsSoFar(choices, done)
  {
  }

  lemma PairsAll(choices: Choices)
    requires |choices.Values| != |choices|
    ensures PairsSoFar(choices, choices.Values) == Match123Rule(choices)
  {
    var r := Match123Rule(choices);
    forall p | p in choices ensures PairsSoFar(choices, choices.Values)[p] == r[p] {
      assert choices[p] in choices.Values;
    }
  }

  /** 1-2-3 Match as the source computes it; `values` is the iteration order
      of the tally map. */
  method ComputeMatch123(choices: Choices, keys: seq<string>, values: seq<string>) returns (out: Deltas)
    requires Enumerates(keys, choices.Keys)
    requires Enumerates(values, choices.Values)
    ensures out == Match123Rule(choices)
  {
    out := Zeros(choices);
    var count := Tally(choices, keys);
    assert |count| == |count.Keys|;
    if |count| == |choices| {
      out := Fill(out, keys, -1);
      return;
    }
    for j := 0 to |values|
      invariant out == PairsSoFar(choices, Elements(values[..j]))
    {
      PrefixStep(values, j);
      var n := values[j];
      assert n in Elements(values);
      var c := count[n];
      if c == 2 || c >= 3 {
        out := AwardChoosers(out, choices, keys, n, if c == 2 then 4 else -2);
      }
      PairsStep(choices, Elements(values[..j]), n);
    }
    PrefixAll(values);
    PairsAll(choices);
  }

  /** `for pid := range out { out[pid] = v }`. */
  method Fill(out: Deltas, keys: seq<string>, v: int) returns (out': Deltas)
    requires Elements(keys) == out.Keys
    ensures out' == map p | p in out :: v
  {
    out' := out;
    for m := 0 to |keys|
      invariant out' == SetWhere(out, Elements(keys[..m]), v)
    {
      PrefixStep(keys, m);
      SetWhereStep(out, Elements(keys[..m]), keys[m], v);
      out' := out'[keys[m] := v];
    }
    PrefixAll(keys);
  }

  /** The Circular Track move value: the first most frequent value in the
      tally's iteration order `values`, or "" when nobody chose. */
  method SelectTrackTarget(choices: Choices, keys: seq<string>, values: seq<string>) returns (target: string)
    requires Enumerates(keys, choices.Keys)
    requires Enumerates(values, choices.Values)
    ensures IsModalChoice(choices, target)
  {
    var count := Tally(choices, keys);
    var best := -1;
    target := "";
    for j := 0 to |values|
      invariant j == 0 ==> target == "" && best == -1
      invariant j > 0 ==> target in Elements(values) && best == count[target]
      invariant forall v :: v in Elements(values[..j]) ==> count[v] <= best
    {
      PrefixStep(values, j);
      var n := values[j];
      assert n in Elements(values);
      if count[n] > best {
        best := count[n];
        target := n;
      }
    }
    PrefixAll(values);
    DistinctCard(values);
    if |values| > 0 {
      ModalFromTally(choices, target);
    }
  }

  lemma ModalFromTally(choices: Choices, target: string)
    requires target in choices.Values
    requires forall v :: v in choices.Values ==> Count(choices, v) <= Count(choices, target)
    ensures IsModalChoice(choices, target)
  {
    forall p | p in choices ensures Count(choices, choices[p]) <= Count(choices, target) {
      assert choices[p] in choices.Values;
    }
  }

  /** The Circular Track bonuses once the players in `seen` have moved. */
  function BonusSoFar(choices: Choices, pos: map<string, int>, target: string, seen: set<string>): Deltas
    requires choices.Keys <= pos.Keys
  {
    map p | p in choices ::
      if p in seen && choices[p] == target && Landing(pos[p], Atoi(target)) == TrackGoal then TrackBonus else 0
  }

  /** The track positions once the players in `seen` have moved. */
  function PosSoFar(choices: Choices, pos: map<string, int>, target: string, seen: set<string>): map<string, int>
    requires choices.Keys <= pos.Keys
  {
    map p | p in pos ::
      if p in seen && p in choices && choices[p] == target then
        (if Landing(pos[p], Atoi(target)) >= TrackGoal then 0 else Landing(pos[p], Atoi(target)))
      else pos[p]
  }

  lemma BonusStep(choices: Choices, pos: map<string, int>, target: string, seen: set<string>, k: string)
    requires choices.Keys <= pos.Keys && k in choices && choices[k] == target
    ensures BonusSoFar(choices, pos, target, seen + {k}) ==
              BonusSoFar(choices, pos, target, seen)[k := if Landing(pos[k], Atoi(target)) == TrackGoal then TrackBonus else 0]
  {
  }

  lemma PosStep(choices: Choices, pos: map<string, int>, target: string, seen: set<string>, k: string)
    requires choices.Keys <= pos.Keys && k in choices && choices[k] == target
    ensures var q := Landing(pos[k], Atoi(target));
            PosSoFar(choices, pos, target, seen + {k}) ==
              PosSoFar(choices, pos, target, seen)[k := if q >= TrackGoal then 0 else q]
  {
  }

  lemma TrackSkip(choices: Choices, pos: map<string, int>, target: string, seen: set<string>, k: string)
    requires choices.Keys <= pos.Keys && k in choices && choices[k] != target
    ensures BonusSoFar(choices, pos, target, seen + {k}) == BonusSoFar(choices, pos, target, seen)
    ensures PosSoFar(choices, pos, target, seen + {k}) == PosSoFar(choices, pos, target, seen)
  {
  }

  /** Circular Track as the source computes it: the selected value's players
      move, wrapping at 64 bits; landing on 9 scores 6, and landing on 9 or
      past it sends the player back to 0. */
  method ComputeCircularTrack(choices: Choices, keys: seq<string>, values: seq<string>, pos: map<string, int>)
    returns (out: Deltas, newPos: map<string, int>, target: string)
    requires Enumerates(keys, choices.Keys)
    requires Enumerates(values, choices.Values)
    requires choices.Keys <= pos.Keys
    ensures IsModalChoice(choices, target)
    ensures TrackOutcome(out, newPos) == TrackRule(choices, pos, target)
  {
    out := Zeros(choices);
    newPos := pos;
    target := SelectTrackTarget(choices, keys, values);
    var mv := Atoi(target);
    for k := 0 to |keys|
      invariant out == BonusSoFar(choices, pos, target, Elements(keys[..k]))
      invariant newPos == PosSoFar(choices, pos, target, Elements(keys[..k]))
    {
      PrefixStep(keys, k);
      PrefixFresh(keys, k);
      assert keys[k] in Elements(keys);
      out, newPos := MovePlayer(choices, pos, target, mv, Elements(keys[..k]), keys[k], out, newPos);
    }
    PrefixAll(keys);
    TrackAll(choices, pos, target);
  }

  /** The body of the Circular Track loop for player `pid`. */
  method MovePlayer(choices: Choices, pos: map<string, int>, target: string, mv: int, ghost seen: set<string>,
                    pid: string, out: Deltas, newPos: map<string, int>)
    returns (out': Deltas, newPos': map<string, int>)
    requires choices.Keys <= pos.Keys && pid in choices && pid !in seen && mv == Atoi(target)
    requires out == BonusSoFar(choices, pos, target, seen) && newPos == PosSoFar(choices, pos, target, seen)
    ensures out' == BonusSoFar(choices, pos, target, seen + {pid})
    ensures newPos' == PosSoFar(choices, pos, target, seen + {pid})
  {
    out' := out;
    newPos' := newPos;
    assert newPos[pid] == pos[pid] && out[pid] == 0;
    if choices[pid] == target {
      BonusStep(choices, pos, target, seen, pid);
      PosStep(choices, pos, target, seen, pid);
      var bonus, q := MoveOnTrack(newPos[pid], mv);
      if bonus != 0 {
        out' := out'[pid := bonus];
      } else {
        assert out' == out'[pid := bonus];
      }
      newPos' := newPos'[pid := q];
    } else {
      TrackSkip(choices, pos, target, seen, pid);
    }
  }

  /** One player's move: `pl.TrackPos += mv`, then the checks against 9. */
  method MoveOnTrack(at: int, mv: int) returns (bonus: int, q: int)
    ensures bonus == (if Landing(at, mv) == TrackGoal then TrackBonus else 0)
    ensures q == (if Landing(at, mv) >= TrackGoal then 0 else Landing(at, mv))
  {
    bonus := 0;
    q := Wrap64(at + mv);
    if q == 9 {
      bonus := 6;
      q := 0;
    }
    if q > 9 {
      q := 0;
    }
  }

  lemma TrackAll(choices: Choices, pos: map<string, int>, target: string)
    requires choices.Keys <= pos.Keys && IsModalChoice(choices, target)
    ensures TrackOutcome(BonusSoFar(choices, pos, target, choices.Keys), PosSoFar(choices, pos, target, choices.Keys))
              == TrackRule(choices, pos, target)
  {
  }

  // ---------------------------------------------------------------------------
  // Secret Auction
  // ---------------------------------------------------------------------------

  /** `levels[v]`, which is empty when `v` was never bid. */
  function Level(levels: map<int, seq<string>>, v: int): seq<string> {
    if v in levels then levels[v] else []
  }

  /** The players among `seen` who bid `v`. */
  function BiddersAmong(bids: map<string, int>, seen: set<string>, v: int): set<string> {
    set p | p in seen && p in bids && bids[p] == v
  }

  /** `levels` lists, for every level, the players among `seen` who bid it,
      each once. */
  ghost predicate LevelsOf(levels: map<int, seq<string>>, bids: map<string, int>, seen: set<string>) {
    forall v :: Distinct(Level(levels, v)) && Elements(Level(levels, v)) == BiddersAmong(bids, seen, v)
  }

  /** `levels[n] = append(levels[n], pid)`. */
  lemma LevelsStep(levels: map<int, seq<string>>, bids: map<string, int>, seen: set<string>, k: string)
    requires LevelsOf(levels, bids, seen) && k in bids && k !in seen
    ensures LevelsOf(levels[bids[k] := Level(levels, bids[k]) + [k]], bids, seen + {k})
  {
    var n := bids[k];
    var l := Level(levels, n);
    var levels' := levels[n := l + [k]];
    forall v ensures Distinct(Level(levels', v)) && Elements(Level(levels', v)) == BiddersAmong(bids, seen + {k}, v) {
      if v == n {
        assert k !in Elements(l);
        assert Elements(l + [k]) == Elements(l) + {k};
        assert Level(levels', v) == l + [k];
      } else {
        assert Level(levels', v) == Level(levels, v);
      }
    }
  }

  /** With every player seen, a level holds one player exactly when it is a
      lone bid. */
  lemma LevelsAll(levels: map<int, seq<string>>, bids: map<string, int>, v: int)
    requires LevelsOf(levels, bids, bids.Keys)
    ensures |Level(levels, v)| == 1 <==> LoneBid(bids, v)
    ensures |Level(levels, v)| == 1 ==> Bidders(bids, v) == {Level(levels, v)[0]}
  {
    var l := Level(levels, v);
    assert BiddersAmong(bids, bids.Keys, v) == Bidders(bids, v);
    DistinctCard(l);
    if |l| == 1 {
      assert l == [l[0]];
    }
  }

  /** The prize goes to the lone bidder `w` of the winning level `v`. */
  lemma PrizeTo(choices: Choices, v: int, w: string)
    requires WinningBid(Bids(choices), HighestBid) == Some(v) && Bidders(Bids(choices), v) == {w}
    ensures AuctionRule(choices) == Zeros(choices)[w := AuctionPrize]
  {
    var bids := Bids(choices);
    assert w in Bidders(bids, v);
    PrizeToBidder(bids, v, w, choices.Keys);
    ZerosBut(choices, w);
  }

  lemma PrizeToBidder(bids: map<string, int>, v: int, w: string, ks: set<string>)
    requires WinningBid(bids, HighestBid) == Some(v) && Bidders(bids, v) == {w} && ks == bids.Keys
    ensures AwardPrize(bids) == map p | p in ks :: if p == w then AuctionPrize else 0
  {
    forall p | p in bids ensures bids[p] == v <==> p == w {
      if bids[p] == v {
        assert p in Bidders(bids, v);
      }
    }
  }

  lemma ZerosBut(choices: Choices, w: string)
    requires w in choices
    ensures (map p | p in choices :: if p == w then AuctionPrize else 0) == Zeros(choices)[w := AuctionPrize]
  {
  }

  /** Without a lone bid at any level nobody scores. */
  lemma NoPrize(choices: Choices)
    requires WinningBid(Bids(choices), HighestBid) == None
    ensures AuctionRule(choices) == Zeros(choices)
  {
  }

  /** Secret Auction as the source computes it: bids grouped by level, then
      the levels scanned from 5 down to the first with a single bidder. */
  method ComputeSecretAuction(choices: Choices, keys: seq<string>) returns (out: Deltas)
    requires Enumerates(keys, choices.Keys)
    ensures out == AuctionRule(choices)
  {
    out := Zeros(choices);
    ghost var bids := Bids(choices);
    var levels: map<int, seq<string>> := map[];
    for i := 0 to |keys|
      invariant LevelsOf(levels, bids, Elements(keys[..i]))
    {
      PrefixStep(keys, i);
      PrefixFresh(keys, i);
      var pid := keys[i];
      assert pid in Elements(keys);
      var n := Bid(choices[pid]);
      LevelsStep(levels, bids, Elements(keys[..i]), pid);
      levels := levels[n := Level(levels, n) + [pid]];
    }
    PrefixAll(keys);
    var v := 5;
    while v >= 0
      invariant -1 <= v <= 5
      invariant WinningBid(bids, HighestBid) == WinningBid(bids, v)
    {
      LevelsAll(levels, bids, v);
      if |Level(levels, v)| == 1 {
        PrizeTo(choices, v, Level(levels, v)[0]);
        out := out[Level(levels, v)[0] := 6];
        return;
      }
      v := v - 1;
    }
    NoPrize(choices);
  }

  // ---------------------------------------------------------------------------
  // Race
  // ---------------------------------------------------------------------------

  /** The players among `seen` whose accepted order is `action` on horse `h`. */
  function OrdersAmong(choices: Choices, last: map<string, string>, seen: set<string>, h: int, action: string): set<string> {
    set p | p in seen && Orders(choices, last, p, h, action)
  }

  /** Player `p` has an accepted order `action` on horse `h`. */
  predicate Orders(choices: Choices, last: map<string, string>, p: string, h: int, action: string) {
    p in choices && p in last && Accepted(choices[p], last[p])
    && ParseOrder(choices[p]).value == RaceOrder(h, action)
  }

  /** The net move of horse `h` from the orders of the players among `seen`. */
  function NetAmong(choices: Choices, last: map<string, string>, seen: set<string>, h: int): int {
    |OrdersAmong(choices, last, seen, h, Boost)| - |OrdersAmong(choices, last, seen, h, Sabotage)|
  }

  /** What a parsed order adds to horse `h`. */
  function Shift(o: Option<RaceOrder>, last: string, h: int): int {
    if Carried(o, last) && o.value.horse == h then
      (if o.value.action == Boost then 1 else if o.value.action == Sabotage then -1 else 0)
    else 0
  }

  /** What a player's choice adds to horse `h`. */
  function OrderMove(c: string, last: string, h: int): int {
    Shift(ParseOrder(c), last, h)
  }

  lemma OrdersStep(choices: Choices, last: map<string, string>, seen: set<string>, k: string, h: int, action: string)
    requires k in choices && k in last && k !in seen
    ensures |OrdersAmong(choices, last, seen + {k}, h, action)| ==
              |OrdersAmong(choices, last, seen, h, action)| + (if Orders(choices, last, k, h, action) then 1 else 0)
  {
    var before := OrdersAmong(choices, last, seen, h, action);
    var after := OrdersAmong(choices, last, seen + {k}, h, action);
    var b := Orders(choices, last, k, h, action);
    if b {
      OrdersStepIn(choices, last, seen, k, h, action);
    } else {
      OrdersStepOut(choices, last, seen, k, h, action);
    }
    CardStep(before, after, k, b);
  }

  lemma CardStep<T>(before: set<T>, after: set<T>, k: T, b: bool)
    requires b ==> after == before + {k} && k !in before
    requires !b ==> after == before
    ensures |after| == |before| + (if b then 1 else 0)
  {
  }

  lemma OrdersStepIn(choices: Choices, last: map<string, string>, seen: set<string>, k: string, h: int, action: string)
    requires k !in seen && Orders(choices, last, k, h, action)
    ensures OrdersAmong(choices, last, seen + {k}, h, action) == OrdersAmong(choices, last, seen, h, action) + {k}
    ensures k !in OrdersAmong(choices, last, seen, h, action)
  {
  }

  lemma OrdersStepOut(choices: Choices, last: map<string, string>, seen: set<string>, k: string, h: int, action: string)
    requires !Orders(choices, last, k, h, action)
    ensures OrdersAmong(choices, last, seen + {k}, h, action) == OrdersAmong(choices, last, seen, h, action)
  {
  }

  lemma NetStep(choices: Choices, last: map<string, string>, seen: set<string>, k: string, h: int)
    requires k in choices && k in last && k !in seen
    ensures NetAmong(choices, last, seen + {k}, h) ==
              NetAmong(choices, last, seen, h) + OrderMove(choices[k], last[k], h)
  {
    OrdersStep(choices, last, seen, k, h, Boost);
    OrdersStep(choices, last, seen, k, h, Sabotage);
    assert Orders(choices, last, k, h, Boost) <==>
             Accepted(choices[k], last[k]) && ParseOrder(choices[k]).value == RaceOrder(h, Boost);
    assert Orders(choices, last, k, h, Sabotage) <==>
             Accepted(choices[k], last[k]) && ParseOrder(choices[k]).value == RaceOrder(h, Sabotage);
  }

  lemma OrdersAll(choices: Choices, last: map<string, string>, h: int, action: string)
    ensures OrdersAmong(choices, last, choices.Keys, h, action) == OrdersFor(choices, last, h, action)
  {
  }

  lemma NetAll(choices: Choices, last: map<string, string>)
    ensures forall h :: 1 <= h <= 3 ==> NetAmong(choices, last, choices.Keys, h) == NetMove(choices, last, h)
  {
    forall h | 1 <= h <= 3 ensures NetAmong(choices, last, choices.Keys, h) == NetMove(choices, last, h) {
      OrdersAll(choices, last, h, Boost);
      OrdersAll(choices, last, h, Sabotage);
    }
  }

  lemma NetSteps(choices: Choices, last: map<string, string>, seen: set<string>, k: string)
    requires k in choices && k in last && k !in seen
    ensures forall h :: 1 <= h <= 3 ==>
              NetAmong(choices, last, seen + {k}, h) == NetAmong(choices, last, seen, h) + OrderMove(choices[k], last[k], h)
  {
    forall h | 1 <= h <= 3 ensures NetAmong(choices, last, seen + {k}, h) ==
                                   NetAmong(choices, last, seen, h) + OrderMove(choices[k], last[k], h) {
      NetStep(choices, last, seen, k, h);
    }
  }

  lemma MovesAll(choices: Choices, last: map<string, string>, moves: seq<int>)
    requires MovesSoFar(choices, last, choices.Keys, moves)
    ensures |moves| == 3
    ensures forall h :: 1 <= h <= 3 ==> moves[h - 1] == NetMove(choices, last, h)
  {
    NetAll(choices, last);
  }

  lemma LastAll(choices: Choices, last: map<string, string>)
    ensures LastSoFar(choices, last, choices.Keys) == NewLastActions(choices, last)
  {
  }

  /** A player's last race action after choosing `c`. */
  function NextAction(c: string, prev: string): string {
    if Accepted(c, prev) then ParseOrder(c).value.action else prev
  }

  /** The last race actions once the players among `seen` have played. */
  function LastSoFar(choices: Choices, last: map<string, string>, seen: set<string>): map<string, string> {
    map p | p in last :: if p in seen && p in choices then NextAction(choices[p], last[p]) else last[p]
  }

  lemma LastStep(choices: Choices, last: map<string, string>, seen: set<string>, k: string)
    requires k in choices && k in last && k !in seen
    ensures LastSoFar(choices, last, seen)[k] == last[k]
    ensures LastSoFar(choices, last, seen + {k}) == LastSoFar(choices, last, seen)[k := NextAction(choices[k], last[k])]
  {
  }

  /** One player's order: skipped unless it parses and does not repeat a
      sabotage; otherwise it moves its horse and is recorded. */
  method ApplyOrder(order: Option<RaceOrder>, prev: string, moves: seq<int>)
    returns (moves': seq<int>, accepted: bool, action: string)
    requires |moves| == 3 && (order.Some? ==> 1 <= order.value.horse <= 3)
    ensures |moves'| == 3
    ensures forall h :: 1 <= h <= 3 ==> moves'[h - 1] == moves[h - 1] + Shift(order, prev, h)
    ensures accepted == Carried(order, prev)
    ensures accepted ==> action == order.value.action
  {
    moves' := moves;
    accepted := false;
    action := "";
    if order.None? {
      return;
    }
    if order.value.action == Sabotage && prev == Sabotage {
      return;
    }
    var idx := order.value.horse;
    if order.value.action == Boost {
      moves' := moves'[idx - 1 := moves'[idx - 1] + 1];
    }
    if order.value.action == Sabotage {
      moves' := moves'[idx - 1 := moves'[idx - 1] - 1];
    }
    accepted := true;
    action := order.value.action;
  }

  /** `moves` holds the net moves of the three horses from the orders of the
      players among `seen`. */
  predicate MovesSoFar(choices: Choices, last: map<string, string>, seen: set<string>, moves: seq<int>) {
    |moves| == 3 && forall h :: 1 <= h <= 3 ==> moves[h - 1] == NetAmong(choices, last, seen, h)
  }

  lemma RaceStart(choices: Choices, last: map<string, string>)
    ensures MovesSoFar(choices, last, {}, [0, 0, 0])
    ensures LastSoFar(choices, last, {}) == last
  {
    forall h | 1 <= h <= 3 ensures NetAmong(choices, last, {}, h) == 0 {
      assert OrdersAmong(choices, last, {}, h, Boost) == {};
      assert OrdersAmong(choices, last, {}, h, Sabotage) == {};
    }
  }

  /** The body of the Race's first loop for player `pid`. */
  method PlayOrder(choices: Choices, last: map<string, string>, ghost seen: set<string>, pid: string,
                   moves: seq<int>, newLast: map<string, string>)
    returns (moves': seq<int>, newLast': map<string, string>)
    requires pid in choices && pid in last && pid !in seen
    requires MovesSoFar(choices, last, seen, moves) && newLast == LastSoFar(choices, last, seen)
    ensures MovesSoFar(choices, last, seen + {pid}, moves') && newLast' == LastSoFar(choices, last, seen + {pid})
  {
    NetSteps(choices, last, seen, pid);
    LastStep(choices, last, seen, pid);
    var accepted, action;
    var order := ParseOrder(choices[pid]);
    moves', accepted, action := ApplyOrder(order, newLast[pid], moves);
    newLast' := newLast;
    if accepted {
      newLast' := newLast'[pid := action];
    } else {
      assert newLast' == newLast'[pid := last[pid]];
    }
  }

  /** The first loop of the Race: every accepted order moves its horse and
      becomes the player's last race action. */
  method TallyMoves(choices: Choices, keys: seq<string>, last: map<string, string>)
    returns (moves: seq<int>, newLast: map<string, string>)
    requires Enumerates(keys, choices.Keys) && choices.Keys <= last.Keys
    ensures |moves| == 3
    ensures forall h :: 1 <= h <= 3 ==> moves[h - 1] == NetMove(choices, last, h)
    ensures newLast == NewLastActions(choices, last)
  {
    moves := [0, 0, 0];
    newLast := last;
    RaceStart(choices, last);
    assert Elements(keys[..0]) == {};
    for k := 0 to |keys|
      invariant MovesSoFar(choices, last, Elements(keys[..k]), moves)
      invariant newLast == LastSoFar(choices, last, Elements(keys[..k]))
    {
      PrefixStep(keys, k);
      PrefixFresh(keys, k);
      assert keys[k] in Elements(keys);
      moves, newLast := PlayOrder(choices, last, Elements(keys[..k]), keys[k], moves, newLast);
    }
    PrefixAll(keys);
    MovesAll(choices, last, moves);
    LastAll(choices, last);
  }

  /** Each horse moves by its net move and is floored at 0. */
  method ApplyMoves(horses: Horses, moves: seq<int>) returns (moved: Horses)
    requires |moves| == 3
    ensures forall i :: 0 <= i < 3 ==> moved[i] == (if horses[i] + moves[i] < 0 then 0 else horses[i] + moves[i])
  {
    moved := horses;
    for i := 0 to 3
      invariant forall j :: 0 <= j < i ==> moved[j] == (if horses[j] + moves[j] < 0 then 0 else horses[j] + moves[j])
      invariant forall j :: i <= j < 3 ==> moved[j] == horses[j]
    {
      moved := moved[i := moved[i] + moves[i]];
      if moved[i] < 0 {
        moved := moved[i := 0];
      }
    }
  }

  /** Horse `x` goes before horse `y` in the sorted ranking: further ahead, or
      level and earlier in the initial order. */
  predicate Before(horses: Horses, x: int, y: int)
    requires 0 <= x < 3 && 0 <= y < 3
  {
    horses[x] > horses[y] || (horses[x] == horses[y] && x < y)
  }

  /** `r` holds the three horse indexes, each once. */
  predicate IsPerm3(r: seq<int>) {
    |r| == 3 && (forall i :: 0 <= i < 3 ==> 0 <= r[i] < 3)
    && r[0] != r[1] && r[1] != r[2] && r[0] != r[2]
  }

  /** `sort.Slice(rank, ...)` with the comparator "further ahead" on the
      three-element slice `[0, 1, 2]`, which Go sorts by insertion: the result
      is a ranking, and tied horses keep their initial order. */
  method RankHorses(horses: Horses) returns (rank: seq<int>)
    ensures IsRanking(horses, rank)
    ensures forall i, j :: 0 <= i < j < 3 ==> Before(horses, rank[i], rank[j])
  {
    rank := [0, 1, 2];
    for i := 1 to 3
      invariant IsPerm3(rank)
      invariant forall a, b :: 0 <= a < b < i ==> Before(horses, rank[a], rank[b])
      invariant forall k :: i <= k < 3 ==> rank[k] == k
    {
      var j := i;
      while j > 0 && horses[rank[j]] > horses[rank[j - 1]]
        invariant 0 <= j <= i
        invariant IsPerm3(rank)
        invariant rank[j] == i
        invariant forall k :: i < k < 3 ==> rank[k] == k
        invariant forall a, b :: 0 <= a < b <= i && a != j && b != j ==> Before(horses, rank[a], rank[b])
        invariant forall b :: j < b <= i ==> Before(horses, rank[j], rank[b])
      {
        rank := rank[j := rank[j - 1]][j - 1 := rank[j]];
        j := j - 1;
      }
    }
  }

  /** The Race payouts once the players among `seen` are paid. */
  function PayoutSoFar(choices: Choices, rank: seq<int>, seen: set<string>): Deltas
    requires |rank| == 3
  {
    map p | p in choices :: if p in seen then Payout(choices[p], rank) else 0
  }

  lemma PayoutStep(choices: Choices, rank: seq<int>, seen: set<string>, k: string)
    requires |rank| == 3 && k in choices && k !in seen
    ensures PayoutSoFar(choices, rank, seen + {k}) == PayoutSoFar(choices, rank, seen)[k := Payout(choices[k], rank)]
    ensures PayoutSoFar(choices, rank, seen)[k] == 0
  {
    var a := PayoutSoFar(choices, rank, seen + {k});
    var b := PayoutSoFar(choices, rank, seen)[k := Payout(choices[k], rank)];
    assert a.Keys == b.Keys;
    forall p | p in a ensures a[p] == b[p] {
      if p != k {
        assert (p in seen + {k}) == (p in seen);
      }
    }
  }

  /** The last loop of the Race: each bet on the leading horse scores 5, on
      the second 3, on any other horse -3. */
  method PayBets(choices: Choices, keys: seq<string>, rank: seq<int>) returns (out: Deltas)
    requires Enumerates(keys, choices.Keys) && |rank| == 3
    ensures out == map p | p in choices :: Payout(choices[p], rank)
  {
    out := Zeros(choices);
    for k := 0 to |keys|
      invariant out == PayoutSoFar(choices, rank, Elements(keys[..k]))
    {
      PrefixStep(keys, k);
      PrefixFresh(keys, k);
      var pid := keys[k];
      assert pid in Elements(keys);
      PayoutStep(choices, rank, Elements(keys[..k]), pid);
      var bet, pay := PayFor(choices[pid], rank);
      if !bet {
        assert out == out[pid := Payout(choices[pid], rank)];
        continue;
      }
      out := out[pid := pay];
    }
    PrefixAll(keys);
  }

  /** One bet: no payout without a first word; otherwise 5 on the leading
      horse, 3 on the second and -3 on any other. */
  method PayFor(c: string, rank: seq<int>) returns (bet: bool, pay: int)
    requires |rank| == 3
    ensures bet == BetIndex(c).Some?
    ensures pay == Payout(c, rank)
  {
    var parts := Fields(ToLower(c));
    bet := |parts| != 0;
    pay := 0;
    if !bet {
      return;
    }
    var idx := Atoi(TrimPrefix(parts[0], "horse"));
    idx := idx - 1;
    if idx == rank[0] {
      pay := 5;
    } else if idx == rank[1] {
      pay := 3;
    } else {
      pay := -3;
    }
  }

  /** The Race as the source computes it. */
  method ComputeRace(choices: Choices, keys: seq<string>, last: map<string, string>, horses: Horses)
    returns (out: Deltas, newHorses: Horses, newLast: map<string, string>, rank: seq<int>)
    requires Enumerates(keys, choices.Keys) && choices.Keys <= last.Keys
    ensures IsRanking(MovedHorses(choices, last, horses), rank)
    ensures RaceOutcome(out, newHorses, newLast) == RaceRule(choices, last, horses, rank)
  {
    var moves;
    moves, newLast := TallyMoves(choices, keys, last);
    newHorses := ApplyMoves(horses, moves);
    assert newHorses == MovedHorses(choices, last, horses);
    rank := RankHorses(newHorses);
    out := PayBets(choices, keys, rank);
  }

  // ---------------------------------------------------------------------------
  // Dispatch
  // ---------------------------------------------------------------------------

  /** evaluateRound as the source computes it, for one iteration order of the
      choices (`keys`) and of their tally (`values`). The Circular Track and
      Race decisions it makes form a valid tie-break, and the outcome is the
      declarative one under that tie-break. */
  method EvaluateRound(mg: Option<MiniGame>, choices: Choices, keys: seq<string>, values: seq<string>, st: RoundState)
    returns (o: Outcome, tb: TieBreak)
    requires Enumerates(keys, choices.Keys) && Enumerates(values, choices.Values)
    requires choices.Keys <= st.track.Keys && choices.Keys <= st.last.Keys
    ensures ValidTieBreak(mg, choices, st, tb)
    ensures o == Evaluate(mg, choices, st, tb)
  {
    tb := TieBreak("", [0, 1, 2]);
    if mg.None? {
      o := Outcome(Zeros(choices), st);
      return;
    }
    match mg.value
    case TraitorSplit =>
      var d := ComputeTraitorSplit(choices, keys);
      o := Outcome(d, st);
    case Match123 =>
      var d := ComputeMatch123(choices, keys, values);
      o := Outcome(d, st);
    case SecretAuction =>
      var d := ComputeSecretAuction(choices, keys);
      o := Outcome(d, st);
    case CircularTrack =>
      var d, pos, target := ComputeCircularTrack(choices, keys, values, st.track);
      tb := tb.(target := target);
      o := Outcome(d, st.(track := pos));
    case Race =>
      var d, horses, last, rank := ComputeRace(choices, keys, st.last, st.horses);
      tb := tb.(rank := rank);
      o := Outcome(d, st.(horses := horses, last := last));
    case TimingButton =>
      var d := ComputeTimingButton(choices, keys);
      o := Outcome(d, st);
    case OX =>
      o := Outcome(Zeros(choices), st);
    case Nunchi =>
      var d, resolved := ComputeNunchi(choices, keys, st.nunchiResolved);
      o := Outcome(d, st.(nunchiResolved := resolved));
  }
}
