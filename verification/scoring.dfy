/** The scoring library: one rule per minigame, mapping the round's effective
    choices (player id -> choice text, one entry for every player of the
    session, with the empty text for a player who submitted nothing) and a
    little persistent state to a score delta per player (main.go:415-597).

    Each rule is written here declaratively; scoring_loops.dfy holds the
    map-walking algorithms of the source and proves they compute these rules. */
module Scoring {
  import opened Wrappers
  import opened Text

  datatype MiniGame =
    | TraitorSplit | Match123 | SecretAuction | CircularTrack
    | Race | TimingButton | OX | Nunchi

  /** The eight minigames in their declaration order (main.go:51). */
  const AllMiniGames: seq<MiniGame> :=
    [TraitorSplit, Match123, SecretAuction, CircularTrack, Race, TimingButton, OX, Nunchi]

  type Choices = map<string, string>
  type Deltas = map<string, int>

  /** Everyone in the round scores 0 (the initial `out` of evaluateRound). */
  function Zeros(choices: Choices): (out: Deltas)
    ensures out.Keys == choices.Keys
    ensures forall p :: p in out ==> out[p] == 0
  {
    map p | p in choices :: 0
  }

  /** The players whose choice text is exactly `v`. */
  function Choosers(choices: Choices, v: string): set<string> {
    set p | p in choices && choices[p] == v
  }

  /** How many players chose exactly `v`. */
  function Count(choices: Choices, v: string): nat {
    |Choosers(choices, v)|
  }

  /** `contains` (main.go:754-761): membership in an id list. */
  function ContainsId(arr: seq<string>, s: string): (r: bool)
    ensures r <==> s in arr
  {
    if arr == [] then false else arr[0] == s || ContainsId(arr[1..], s)
  }

  // ---------------------------------------------------------------------------
  // Traitor Split (main.go:421-442)
  // ---------------------------------------------------------------------------

  const BetrayMark: string := "배신"

  predicate Betrays(c: string) { Contains(c, BetrayMark) }

  function Traitors(choices: Choices): set<string> {
    set p | p in choices && Betrays(choices[p])
  }

  /** Without a traitor nobody scores; otherwise the traitors split 6 points
      rounded down, and every other player of the round loses 3. */
  function TraitorSplitRule(choices: Choices): Deltas {
    var t := Traitors(choices);
    if t == {} then Zeros(choices)
    else map p | p in choices :: if p in t then 6 / |t| else -3
  }

  // ---------------------------------------------------------------------------
  // 1-2-3 Match (main.go:443-469)
  // ---------------------------------------------------------------------------

  /** When there are as many distinct choices as players every player loses
      1; otherwise the players of a value chosen exactly twice gain 4, those of
      a value chosen three or more times lose 2, and the rest score 0. */
  function Match123Rule(choices: Choices): Deltas {
    if |choices.Values| == |choices| then
      map p | p in choices :: -1
    else
      map p | p in choices ::
        var k := Count(choices, choices[p]);
        if k == 2 then 4 else if k >= 3 then -2 else 0
  }

  // ---------------------------------------------------------------------------
  // Secret Auction (main.go:470-481)
  // ---------------------------------------------------------------------------

  /** A player's bid: the trimmed choice read as an integer, 0 when it is not
      one. */
  function Bid(c: string): int { Atoi(TrimSpace(c)) }

  /** Every player's bid. */
  function Bids(choices: Choices): (bids: map<string, int>)
    ensures bids.Keys == choices.Keys
  {
    map p | p in choices :: Bid(choices[p])
  }

  function Bidders(bids: map<string, int>, v: int): set<string> {
    set p | p in bids && bids[p] == v
  }

  /** Exactly one player bid `v`. */
  predicate LoneBid(bids: map<string, int>, v: int) {
    |Bidders(bids, v)| == 1
  }

  /** The highest level in `top` down to 0 that exactly one player bid. */
  function WinningBid(bids: map<string, int>, top: int): Option<int>
    decreases top + 1
  {
    if top < 0 then None
    else if LoneBid(bids, top) then Some(top)
    else WinningBid(bids, top - 1)
  }

  const HighestBid: int := 5
  const AuctionPrize: int := 6

  /** The lone bidder of the winning level takes the prize. */
  function AwardPrize(bids: map<string, int>): Deltas {
    match WinningBid(bids, HighestBid)
    case None => map p | p in bids :: 0
    case Some(w) => map p | p in bids :: if bids[p] == w then AuctionPrize else 0
  }

  function AuctionRule(choices: Choices): Deltas {
    AwardPrize(Bids(choices))
  }

  // ---------------------------------------------------------------------------
  // Circular Track (main.go:482-508)
  // ---------------------------------------------------------------------------

  const TrackGoal: int := 9
  const TrackBonus: int := 6

  /** `t` is a value the source may select as the move to apply: a choice of
      maximal frequency (Go's map order decides among tied values), or the
      empty text when nobody takes part. */
  predicate IsModalChoice(choices: Choices, t: string) {
    if choices == map[] then t == ""
    else t in choices.Values && forall p :: p in choices ==> Count(choices, choices[p]) <= Count(choices, t)
  }

  /** Go's 64-bit `int` addition wraps around. */
  function Wrap64(x: int): (r: int)
    ensures MinInt64 <= r <= MaxInt64
    ensures MinInt64 <= x <= MaxInt64 ==> r == x
    ensures (x - r) % 0x1_0000_0000_0000_0000 == 0
  {
    var m := 0x1_0000_0000_0000_0000;
    var q := (x - MinInt64) / m;
    assert x - ((x - MinInt64) % m + MinInt64) == q * m;
    (x - MinInt64) % m + MinInt64
  }

  /** The position a mover lands on before the goal check. */
  function Landing(pos: int, mv: int): int { Wrap64(pos + mv) }

  datatype TrackOutcome = TrackOutcome(deltas: Deltas, pos: map<string, int>)

  /** Only the players who chose the selected value move, by that value read
      as an integer; landing exactly on 9 scores 6, and landing on or past 9
      sends the player back to 0. */
  function TrackRule(choices: Choices, pos: map<string, int>, target: string): (o: TrackOutcome)
    requires choices.Keys <= pos.Keys
    requires IsModalChoice(choices, target)
    ensures o.deltas.Keys == choices.Keys && o.pos.Keys == pos.Keys
    ensures forall p :: p in pos && !(p in choices && choices[p] == target) ==> o.pos[p] == pos[p]
    ensures forall p :: p in choices && choices[p] == target ==> o.pos[p] < TrackGoal
    ensures forall p :: p in choices ==>
              (o.deltas[p] == TrackBonus <==> choices[p] == target && Landing(pos[p], Atoi(target)) == TrackGoal)
    ensures forall p :: p in choices ==> o.deltas[p] == 0 || o.deltas[p] == TrackBonus
  {
    var mv := Atoi(target);
    TrackOutcome(
      map p | p in choices ::
        if choices[p] == target && Landing(pos[p], mv) == TrackGoal then TrackBonus else 0,
      map p | p in pos ::
        if p in choices && choices[p] == target then
          (if Landing(pos[p], mv) >= TrackGoal then 0 else Landing(pos[p], mv))
        else pos[p])
  }

  // ---------------------------------------------------------------------------
  // Race (main.go:509-555)
  // ---------------------------------------------------------------------------

  /** Positions of horse1, horse2 and horse3 (Go's `[3]int`). */
  type Horses = s: seq<int> | |s| == 3 witness [0, 0, 0]

  /** An order "horseN action" with N in 1..3; the action is any word. */
  datatype RaceOrder = RaceOrder(horse: int, action: string)

  const Boost: string := "boost"
  const Sabotage: string := "sabotage"

  /** The horse number a word names: the word without a leading "horse",
      read as an integer. */
  function HorseNumber(word: string): int { Atoi(TrimPrefix(word, "horse")) }

  /** An order is exactly two words whose first names horse 1, 2 or 3. */
  function ParseOrder(c: string): (r: Option<RaceOrder>)
    ensures r.Some? ==> 1 <= r.value.horse <= 3
  {
    var parts := Fields(ToLower(c));
    if |parts| != 2 then None
    else
      var h := HorseNumber(parts[0]);
      if h < 1 || h > 3 then None else Some(RaceOrder(h, parts[1]))
  }

  /** A parsed order is carried out unless it repeats the player's previous
      sabotage. */
  predicate Carried(o: Option<RaceOrder>, last: string) {
    o.Some? && !(o.value.action == Sabotage && last == Sabotage)
  }

  predicate Accepted(c: string, last: string) {
    Carried(ParseOrder(c), last)
  }

  function OrdersFor(choices: Choices, last: map<string, string>, horse: int, action: string): set<string> {
    set p | p in choices && p in last && Accepted(choices[p], last[p])
                && ParseOrder(choices[p]).value == RaceOrder(horse, action)
  }

  /** Net move of horse `h` (1-based): accepted boosts minus accepted
      sabotages. */
  function NetMove(choices: Choices, last: map<string, string>, h: int): int {
    |OrdersFor(choices, last, h, Boost)| - |OrdersFor(choices, last, h, Sabotage)|
  }

  /** Horses after the round's moves, floored at 0. */
  function MovedHorses(choices: Choices, last: map<string, string>, horses: Horses): (r: Horses)
    ensures forall i :: 0 <= i < 3 ==> r[i] >= 0
  {
    seq(3, i requires 0 <= i < 3 =>
      var q := horses[i] + NetMove(choices, last, i + 1);
      if q < 0 then 0 else q)
  }

  /** Every accepted order, boost, sabotage or any other word, becomes the
      player's last race action. */
  function NewLastActions(choices: Choices, last: map<string, string>): (r: map<string, string>)
    ensures r.Keys == last.Keys
  {
    map p | p in last ::
      if p in choices && Accepted(choices[p], last[p]) then ParseOrder(choices[p]).value.action else last[p]
  }

  /** `rank` lists the three horse indexes (0-based), leading horse first. */
  predicate IsRanking(horses: Horses, rank: seq<int>) {
    && |rank| == 3
    && (forall i :: 0 <= i < 3 ==> 0 <= rank[i] < 3)
    && rank[0] != rank[1] && rank[1] != rank[2] && rank[0] != rank[2]
    && horses[rank[0]] >= horses[rank[1]] >= horses[rank[2]]
  }

  /** The 0-based horse a choice bets on: its first word's horse number less
      one; no bet at all when the choice has no word. */
  function BetIndex(c: string): Option<int> {
    var parts := Fields(ToLower(c));
    if parts == [] then None else Some(HorseNumber(parts[0]) - 1)
  }

  function Payout(c: string, rank: seq<int>): int
    requires |rank| == 3
  {
    match BetIndex(c)
    case None => 0
    case Some(i) => if i == rank[0] then 5 else if i == rank[1] then 3 else -3
  }

  datatype RaceOutcome = RaceOutcome(deltas: Deltas, horses: Horses, last: map<string, string>)

  function RaceRule(choices: Choices, last: map<string, string>, horses: Horses, rank: seq<int>): RaceOutcome
    requires IsRanking(MovedHorses(choices, last, horses), rank)
  {
    RaceOutcome(
      map p | p in choices :: Payout(choices[p], rank),
      MovedHorses(choices, last, horses),
      NewLastActions(choices, last))
  }

  // ---------------------------------------------------------------------------
  // Timing Button (main.go:556-573)
  // ---------------------------------------------------------------------------

  predicate Clicks(c: string) { Contains(ToLower(c), "click") }

  function Clickers(choices: Choices): set<string> {
    set p | p in choices && Clicks(choices[p])
  }

  /** Every clicker scores the number of clickers, negated when it is even. */
  function TimingRule(choices: Choices): Deltas {
    var n := |Clickers(choices)|;
    var score := if n % 2 == 0 then -n else n;
    map p | p in choices :: if p in Clickers(choices) then score else 0
  }

  // ---------------------------------------------------------------------------
  // Nunchi Challenge (main.go:578-594)
  // ---------------------------------------------------------------------------

  const YesMark: string := "예"

  predicate SaysYes(c: string) { Contains(c, YesMark) || EqualFoldYes(c) }

  function YesSayers(choices: Choices): set<string> {
    set p | p in choices && SaysYes(choices[p])
  }

  datatype NunchiOutcome = NunchiOutcome(deltas: Deltas, resolved: bool)

  /** A lone yes scores 5, several yeses lose 3 each; either way the round is
      marked resolved. With no yes nothing happens. */
  function NunchiRule(choices: Choices, resolved: bool): NunchiOutcome {
    var y := YesSayers(choices);
    if |y| == 1 then NunchiOutcome(map p | p in choices :: if p in y then 5 else 0, true)
    else if |y| >= 2 then NunchiOutcome(map p | p in choices :: if p in y then -3 else 0, true)
    else NunchiOutcome(Zeros(choices), resolved)
  }

  // ---------------------------------------------------------------------------
  // Dispatch (main.go:415-420)
  // ---------------------------------------------------------------------------

  /** The minigame-private state evaluateRound reads and updates: every
      player's track position and last race action, the horses, and the
      Nunchi marker. */
  datatype RoundState = RoundState(
    track: map<string, int>,
    last: map<string, string>,
    horses: Horses,
    nunchiResolved: bool)

  /** The two decisions the source leaves to Go's map and sort order: the
      Circular Track move value and the Race ranking. */
  datatype TieBreak = TieBreak(target: string, rank: seq<int>)

  predicate ValidTieBreak(mg: Option<MiniGame>, choices: Choices, st: RoundState, tb: TieBreak) {
    && (mg == Some(CircularTrack) ==> IsModalChoice(choices, tb.target))
    && (mg == Some(Race) ==> IsRanking(MovedHorses(choices, st.last, st.horses), tb.rank))
  }

  datatype Outcome = Outcome(deltas: Deltas, state: RoundState)

  /** evaluateRound: the current minigame's rule, and nothing but that
      minigame's own persistent state changes. No current minigame scores
      nothing. */
  function Evaluate(mg: Option<MiniGame>, choices: Choices, st: RoundState, tb: TieBreak): (o: Outcome)
    requires choices.Keys <= st.track.Keys
    requires ValidTieBreak(mg, choices, st, tb)
    ensures o.deltas.Keys == choices.Keys
    ensures o.state.track.Keys == st.track.Keys && o.state.last.Keys == st.last.Keys
    ensures mg != Some(CircularTrack) ==> o.state.track == st.track
    ensures mg != Some(Race) ==> o.state.last == st.last && o.state.horses == st.horses
    ensures mg != Some(Nunchi) ==> o.state.nunchiResolved == st.nunchiResolved
    ensures forall i :: 0 <= i < 3 && st.horses[i] >= 0 ==> o.state.horses[i] >= 0
  {
    match mg
    case None => Outcome(Zeros(choices), st)
    case Some(g) =>
      match g
      case TraitorSplit => Outcome(TraitorSplitRule(choices), st)
      case Match123 => Outcome(Match123Rule(choices), st)
      case SecretAuction => Outcome(AuctionRule(choices), st)
      case CircularTrack =>
        var t := TrackRule(choices, st.track, tb.target);
        Outcome(t.deltas, st.(track := t.pos))
      case Race =>
        var r := RaceRule(choices, st.last, st.horses, tb.rank);
        Outcome(r.deltas, st.(horses := r.horses, last := r.last))
      case TimingButton => Outcome(TimingRule(choices), st)
      case OX => Outcome(Zeros(choices), st)
      case Nunchi =>
        var n := NunchiRule(choices, st.nunchiResolved);
        Outcome(n.deltas, st.(nunchiResolved := n.resolved))
  }
}
