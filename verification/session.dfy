/** The game session of one channel as a value, with Discord, the timer and the
    mutexes stripped away: creation, the lobby (`joinGame`), the start
    (`startGame`, `pick6MiniGames`, `assignAbilities`), submissions
    (`choose`), round resolution (`resolveRound`), round advance and the end
    of the game (`startNextRound`, `finishGame`), the host's forced close
    (`forceResolveRound`) and the three-minute deadline's staleness check. */
module Session {
  import opened Wrappers
  import opened Text
  import opened Maps
  import opened Scoring

  const MinPlayers: int := 3
  const MaxPlayers: int := 4
  const TotalRounds: int := 6

  datatype Status = Lobby | Running | Finished

  datatype Ability =
    | Intervention | Blackout | Assimilation | Lock
    | Mask | Share | Scan | MetaView

  /** The keyword a player types for an ability. */
  function AbilityName(a: Ability): string {
    match a
    case Intervention => "intervention"
    case Blackout => "blackout"
    case Assimilation => "assimilation"
    case Lock => "lock"
    case Mask => "mask"
    case Share => "share"
    case Scan => "scan"
    case MetaView => "metaview"
  }

  /** The eight abilities in their declaration order (main.go:52). */
  const AllAbilities: seq<Ability> :=
    [Intervention, Blackout, Assimilation, Lock, Mask, Share, Scan, MetaView]

  /** A player; the id is the key under which the session stores it. An
      ability is dealt only at the start (Go's empty `Ability` is `None`). */
  datatype Player = Player(
    name: string,
    score: int,
    ability: Option<Ability>,
    abilityUsed: bool,
    choices: map<int, string>,
    lastRaceAction: string,
    trackPos: int,
    usedAbilityAt: int)

  /** The round's ability overlay (`AbilityEffect`). */
  datatype Effects = Effects(
    interventions: map<string, string>,
    blackout: bool,
    locks: set<string>,
    assimilation: map<string, string>,
    masked: set<string>)

  const NoEffects: Effects := Effects(map[], false, {}, map[], {})

  /** One line of a player's round log: round, minigame, effective choice,
      delta and the score after it. */
  datatype LogEntry = LogEntry(round: int, game: Option<MiniGame>, choice: string, delta: int, total: int)

  datatype Game = Game(
    host: string,
    status: Status,
    round: int,
    players: map<string, Player>,
    order: seq<string>,
    minigames: seq<MiniGame>,
    current: Option<MiniGame>,
    received: set<string>,
    effects: Effects,
    logs: map<string, seq<LogEntry>>,
    horses: Horses,
    nunchiResolved: bool)

  /** A player's log; a player without one has the empty log. */
  function Log(g: Game, p: string): seq<LogEntry> {
    if p in g.logs then g.logs[p] else []
  }

  /** Sum of the deltas of a log. */
  function TotalDelta(log: seq<LogEntry>): int {
    if log == [] then 0 else TotalDelta(log[..|log| - 1]) + log[|log| - 1].delta
  }

  /** `s` is some order of the elements of `all` (what `rand.Shuffle` of a
      copy of `all` yields). */
  predicate IsShuffleOf<T(==)>(s: seq<T>, all: seq<T>) {
    |s| == |all| && Distinct(s) && Elements(s) == Elements(all)
  }

  // ---------------------------------------------------------------------------
  // The session invariant
  // ---------------------------------------------------------------------------

  /** Every player holds an ability and no two hold the same one. */
  predicate AbilitiesDealt(players: map<string, Player>) {
    && (forall p :: p in players ==> players[p].ability.Some?)
    && (forall p, q :: p in players && q in players && p != q ==> players[p].ability != players[q].ability)
  }

  /** The overlay only names players as casters and lock targets, and only
      the holder of Assimilation has a copy link. */
  predicate EffectsWellFormed(g: Game) {
    && g.effects.locks <= g.players.Keys
    && g.effects.masked <= g.players.Keys
    && forall p :: p in g.effects.assimilation ==>
         p in g.players && g.players[p].ability == Some(Assimilation)
  }

  /** A player's score is the sum of its logged deltas, and the last log line
      shows that score. */
  predicate ScoresMatchLogs(g: Game) {
    forall p :: p in g.players ==>
      && g.players[p].score == TotalDelta(Log(g, p))
      && (Log(g, p) != [] ==> Log(g, p)[|Log(g, p)| - 1].total == g.players[p].score)
  }

  /** A used ability records a round of the game; an unused one records -1. */
  predicate UseRecorded(g: Game) {
    forall p :: p in g.players ==>
      if g.players[p].abilityUsed then 1 <= g.players[p].usedAbilityAt <= g.round
      else g.players[p].usedAbilityAt == -1
  }

  /** The order lists every player once, the roster holds at most four, and
      only players have submitted or hold a log. */
  predicate Roster(g: Game) {
    && Distinct(g.order) && Elements(g.order) == g.players.Keys && |g.order| == |g.players|
    && |g.players| <= MaxPlayers
    && g.received <= g.players.Keys
    && g.logs.Keys <= g.players.Keys
  }

  /** The lobby deals nothing; a started game has at least three players,
      six distinct minigames and one distinct ability per player; a running
      game plays the minigame of its round; a finished one stopped after the
      sixth. */
  predicate Phase(g: Game) {
    && 0 <= g.round <= TotalRounds
    && (g.status == Lobby ==>
          && g.round == 0 && g.current == None
          && forall p :: p in g.players ==> g.players[p].ability == None && !g.players[p].abilityUsed)
    && (g.status != Lobby ==>
          && |g.players| >= MinPlayers
          && |g.minigames| == TotalRounds && Distinct(g.minigames)
          && AbilitiesDealt(g.players))
    && (g.status == Running ==> 1 <= g.round && g.current == Some(g.minigames[g.round - 1]))
    && (g.status == Finished ==> g.round == TotalRounds)
  }

  predicate HorsesFloored(h: Horses) {
    forall i :: 0 <= i < 3 ==> h[i] >= 0
  }

  /** What every reachable session satisfies. */
  predicate Inv(g: Game) {
    && Roster(g)
    && Phase(g)
    && EffectsWellFormed(g)
    && HorsesFloored(g.horses)
    && ScoresMatchLogs(g)
    && UseRecorded(g)
  }

  // ---------------------------------------------------------------------------
  // Lobby
  // ---------------------------------------------------------------------------

  /** `createGame`: an empty lobby owned by its creator. */
  function NewGame(host: string): (g: Game)
    ensures Inv(g)
    ensures g.host == host && g.status == Lobby && g.round == 0 && g.players == map[]
    ensures g.order == [] && g.received == {} && g.logs == map[] && g.effects == NoEffects
    ensures g.minigames == [] && g.current == None
    ensures g.horses == [0, 0, 0] && !g.nunchiResolved
  {
    Game(host, Lobby, 0, map[], [], [], None, {}, NoEffects, map[], [0, 0, 0], false)
  }

  /** A newcomer: score 0, no ability and no use of it, no choices, no race
      action yet, at the start of the track. */
  function NewPlayer(name: string): Player {
    Player(name, 0, None, false, map[], "", 0, -1)
  }

  datatype JoinError = JoinNotInLobby | RosterFull | AlreadyJoined

  /** `joinGame`: a new id joins a lobby with room, at the end of the order. */
  function Join(g: Game, id: string, name: string): (r: Result<Game, JoinError>)
    ensures r.Success? <==> g.status == Lobby && |g.players| < MaxPlayers && id !in g.players
    ensures r.Failure? && g.status != Lobby ==> r.error == JoinNotInLobby
    ensures r.Failure? && g.status == Lobby && |g.players| >= MaxPlayers ==> r.error == RosterFull
    ensures r.Failure? && g.status == Lobby && |g.players| < MaxPlayers ==> r.error == AlreadyJoined
    ensures r.Success? ==>
      && r.value.players.Keys == g.players.Keys + {id}
      && |r.value.players| == |g.players| + 1
      && r.value.players[id].score == 0 && !r.value.players[id].abilityUsed
      && r.value.players[id].ability == None && r.value.players[id].usedAbilityAt == -1
      && (forall q :: q in g.players ==> r.value.players[q] == g.players[q])
      && r.value.order == g.order + [id]
      && r.value.status == Lobby && r.value.round == g.round && r.value.host == g.host
    ensures r.Success? ==> r.value.players[id] == NewPlayer(name)
    ensures r.Success? ==> r.value == g.(players := r.value.players, order := r.value.order)
  {
    if g.status != Lobby then Failure(JoinNotInLobby)
    else if |g.players| >= MaxPlayers then Failure(RosterFull)
    else if id in g.players then Failure(AlreadyJoined)
    else Success(g.(players := g.players[id := NewPlayer(name)], order := g.order + [id]))
  }

  // ---------------------------------------------------------------------------
  // Start
  // ---------------------------------------------------------------------------

  /** `assignAbilities`: the i-th player of the order gets the i-th ability
      of the shuffled list. */
  function AssignAbilities(players: map<string, Player>, order: seq<string>, abilities: seq<Ability>): (r: map<string, Player>)
    requires |order| <= |abilities|
    requires Elements(order) <= players.Keys
    ensures r.Keys == players.Keys
    decreases |order|
  {
    if order == [] then players
    else
      var n := |order| - 1;
      assert Elements(order[..n]) <= Elements(order);
      var ps := AssignAbilities(players, order[..n], abilities);
      ps[order[n] := ps[order[n]].(ability := Some(abilities[n]))]
  }

  datatype StartError = NotHost | TooFewPlayers | StartNotInLobby

  /** `startGame`: only the host, only with three or more players, only from
      the lobby (in that order of checks); the game then runs the first six
      minigames of a shuffle of all eight, deals the abilities in the order of
      a shuffle of all eight, and opens round 1. */
  function Start(g: Game, caller: string, games: seq<MiniGame>, abilities: seq<Ability>): (r: Result<Game, StartError>)
    requires IsShuffleOf(games, AllMiniGames)
    requires IsShuffleOf(abilities, AllAbilities)
    requires |g.order| <= |AllAbilities| && Elements(g.order) <= g.players.Keys
    ensures r.Success? <==> caller == g.host && |g.players| >= MinPlayers && g.status == Lobby
    ensures r.Failure? && caller != g.host ==> r.error == NotHost
    ensures r.Failure? && caller == g.host && |g.players| < MinPlayers ==> r.error == TooFewPlayers
    ensures r.Failure? && caller == g.host && |g.players| >= MinPlayers ==> r.error == StartNotInLobby
    ensures r.Success? ==>
      && r.value.status == Running && r.value.round == 1
      && r.value.minigames == games[..TotalRounds]
      && r.value.current == Some(games[0])
      && r.value.players.Keys == g.players.Keys
      && r.value.players == AssignAbilities(g.players, g.order, abilities)
      && r.value.order == g.order && r.value.logs == g.logs && r.value.horses == g.horses
      && r.value.received == {} && r.value.effects == NoEffects
    ensures r.Success? ==> r.value.host == g.host && !r.value.nunchiResolved
    ensures r.Success? ==>
      r.value == g.(status := Running, round := 1, minigames := r.value.minigames, current := r.value.current,
                    players := r.value.players, received := {}, effects := NoEffects, nunchiResolved := false)
  {
    if caller != g.host then Failure(NotHost)
    else if |g.players| < MinPlayers then Failure(TooFewPlayers)
    else if g.status != Lobby then Failure(StartNotInLobby)
    else
      var g1 := g.(status := Running, round := 0, minigames := games[..TotalRounds],
                   players := AssignAbilities(g.players, g.order, abilities));
      Success(StartNextRound(g1))
  }

  // ---------------------------------------------------------------------------
  // Rounds
  // ---------------------------------------------------------------------------

  /** `startNextRound`: after the sixth round the game finishes; otherwise
      the next round opens with its minigame, no submissions, a fresh ability
      overlay and the Nunchi marker cleared. */
  function StartNextRound(g: Game): (r: Game)
    requires g.round >= TotalRounds || 0 <= g.round < |g.minigames|
    ensures g.round >= TotalRounds ==> r == g.(status := Finished)
    ensures g.round < TotalRounds ==>
      && r.round == g.round + 1
      && r.current == Some(g.minigames[r.round - 1])
      && r.received == {} && r.effects == NoEffects && !r.nunchiResolved
      && r.status == g.status && r.players == g.players && r.logs == g.logs
      && r.horses == g.horses && r.minigames == g.minigames && r.order == g.order
      && r.host == g.host
  {
    if g.round >= TotalRounds then g.(status := Finished)
    else
      g.(round := g.round + 1, current := Some(g.minigames[g.round]), received := {},
         effects := NoEffects, nunchiResolved := false)
  }

  datatype ChooseError = Usage | NotPlaying

  datatype Submission = Submission(game: Game, done: bool)

  /** `choose`: the words after the command, joined by single spaces, become
      the caller's choice for the current round; `done` tells that every
      player has now submitted, which makes `Submit` resolve the round. */
  function Choose(g: Game, caller: string, args: seq<string>): (r: Result<Submission, ChooseError>)
    ensures r.Failure? <==> |args| < 2 || g.status != Running || caller !in g.players
    ensures r.Failure? && |args| < 2 ==> r.error == Usage
    ensures r.Failure? && |args| >= 2 ==> r.error == NotPlaying
    ensures r.Success? ==>
      var h := r.value.game;
      && h.players.Keys == g.players.Keys
      && g.round in h.players[caller].choices
      && h.players[caller].choices[g.round] == Unwords(args[1..])
      && (forall k :: k in g.players[caller].choices && k != g.round ==>
            k in h.players[caller].choices && h.players[caller].choices[k] == g.players[caller].choices[k])
      && h.players[caller] == g.players[caller].(choices := h.players[caller].choices)
      && (forall q :: q in g.players && q != caller ==> h.players[q] == g.players[q])
      && h.received == g.received + {caller}
      && h == g.(players := h.players, received := h.received)
      && (r.value.done <==> |h.received| == |g.players|)
  {
    if |args| < 2 then Failure(Usage)
    else if g.status != Running || caller !in g.players then Failure(NotPlaying)
    else
      var pl := g.players[caller];
      var choice := Unwords(args[1..]);
      var h := g.(players := g.players[caller := pl.(choices := pl.choices[g.round := choice])],
                  received := g.received + {caller});
      Success(Submission(h, |h.received| == |h.players|))
  }

  /** The choices a round is scored on: a player's intervened value when there
      is one, else what it submitted this round, else the empty text. */
  function EffectiveChoices(g: Game): (c: Choices)
    ensures c.Keys == g.players.Keys
    ensures forall p :: p in g.players && p in g.effects.interventions ==> c[p] == g.effects.interventions[p]
    ensures forall p :: p in g.players && p !in g.effects.interventions && g.round in g.players[p].choices ==>
              c[p] == g.players[p].choices[g.round]
    ensures forall p :: p in g.players && p !in g.effects.interventions && g.round !in g.players[p].choices ==>
              c[p] == ""
  {
    map p | p in g.players ::
      if p in g.effects.interventions then g.effects.interventions[p]
      else if g.round in g.players[p].choices then g.players[p].choices[g.round]
      else ""
  }

  /** The minigame-private state the scoring rules read, gathered from the
      players and the session. */
  function RoundStateOf(g: Game): (st: RoundState)
    ensures st.track.Keys == g.players.Keys && st.last.Keys == g.players.Keys
    ensures forall p :: p in g.players ==>
      st.track[p] == g.players[p].trackPos && st.last[p] == g.players[p].lastRaceAction
    ensures st.horses == g.horses && st.nunchiResolved == g.nunchiResolved
  {
    RoundState(
      map p | p in g.players :: g.players[p].trackPos,
      map p | p in g.players :: g.players[p].lastRaceAction,
      g.horses, g.nunchiResolved)
  }

  /** The Assimilation copy: a linked player's delta becomes its target's
      (0 for a target outside the round); all links read the deltas as the
      rules produced them. */
  function Assimilate(deltas: Deltas, links: map<string, string>): (r: Deltas)
    ensures r.Keys == deltas.Keys
    ensures forall p :: p in deltas && p !in links ==> r[p] == deltas[p]
    ensures forall p :: p in deltas && p in links && links[p] in deltas ==> r[p] == deltas[links[p]]
    ensures forall p :: p in deltas && p in links && links[p] !in deltas ==> r[p] == 0
  {
    map p | p in deltas ::
      if p in links then (if links[p] in deltas then deltas[links[p]] else 0) else deltas[p]
  }

  /** Every player's score grows by its delta, and the rules' per-player
      state is written back. */
  function SettlePlayers(players: map<string, Player>, d: Deltas, st: RoundState): (r: map<string, Player>)
    requires d.Keys == players.Keys
    requires st.track.Keys == players.Keys && st.last.Keys == players.Keys
    ensures r.Keys == players.Keys
    ensures forall p :: p in players ==>
      r[p] == players[p].(score := players[p].score + d[p], trackPos := st.track[p], lastRaceAction := st.last[p])
  {
    map p | p in players ::
      players[p].(score := players[p].score + d[p], trackPos := st.track[p], lastRaceAction := st.last[p])
  }

  /** Every player's log gains the round's line. */
  function SettleLogs(g: Game, choices: Choices, d: Deltas, players: map<string, Player>): (r: map<string, seq<LogEntry>>)
    requires d.Keys == g.players.Keys && choices.Keys == g.players.Keys && players.Keys == g.players.Keys
    ensures forall p :: p in g.players ==>
      p in r && r[p] == Log(g, p) + [LogEntry(g.round, g.current, choices[p], d[p], players[p].score)]
    ensures forall p :: p !in g.players ==> (p in r <==> p in g.logs) && (p in r ==> r[p] == g.logs[p])
  {
    map p | p in g.logs.Keys + g.players.Keys ::
      if p in g.players then Log(g, p) + [LogEntry(g.round, g.current, choices[p], d[p], players[p].score)]
      else g.logs[p]
  }

  /** Books the final deltas: every player's score grows by its delta and its
      log gains a line; the rules' state is written back. */
  function Settle(g: Game, choices: Choices, d: Deltas, st: RoundState): (r: Game)
    requires d.Keys == g.players.Keys && choices.Keys == g.players.Keys
    requires st.track.Keys == g.players.Keys && st.last.Keys == g.players.Keys
    ensures r.players.Keys == g.players.Keys
    ensures forall p :: p in g.players ==>
      r.players[p] == g.players[p].(score := g.players[p].score + d[p], trackPos := st.track[p], lastRaceAction := st.last[p])
    ensures forall p :: p in g.players ==>
      Log(r, p) == Log(g, p) + [LogEntry(g.round, g.current, choices[p], d[p], r.players[p].score)]
    ensures forall p :: p !in g.players ==> Log(r, p) == Log(g, p)
    ensures r == g.(players := r.players, logs := r.logs, horses := st.horses, nunchiResolved := st.nunchiResolved)
  {
    var players := SettlePlayers(g.players, d, st);
    var logs := SettleLogs(g, choices, d, players);
    var r := g.(players := players, logs := logs, horses := st.horses, nunchiResolved := st.nunchiResolved);
    assert forall p :: p in g.players ==> Log(r, p) == logs[p];
    r
  }

  /** The decisions the tie-break leaves open are made legally for the
      round about to be resolved. */
  predicate ResolvableWith(g: Game, tb: TieBreak) {
    g.status == Running ==>
      && ValidTieBreak(g.current, EffectiveChoices(g), RoundStateOf(g), tb)
      && (g.round >= TotalRounds || 0 <= g.round < |g.minigames|)
  }

  /** `resolveRound`: nothing happens unless the game is running; otherwise
      the round is scored on the effective choices, the Assimilation copy is
      applied, the deltas are booked, and the next round opens (or the game
      finishes). */
  function Resolve(g: Game, tb: TieBreak): (r: Game)
    requires ResolvableWith(g, tb)
    ensures g.status != Running ==> r == g
    ensures g.status == Running ==>
      && r.players.Keys == g.players.Keys
      && (r.status == Finished <==> g.round >= TotalRounds)
      && (g.round < TotalRounds ==> r.status == Running && r.round == g.round + 1)
      && (g.round < TotalRounds ==> r.effects == NoEffects && r.received == {})
      && (forall p :: p in g.players ==> |Log(r, p)| == |Log(g, p)| + 1)
  {
    if g.status != Running then g
    else StartNextRound(Settle(g, EffectiveChoices(g), RoundDeltas(g, tb), RoundOutcome(g, tb).state))
  }

  /** The current minigame's rule applied to the round's effective choices. */
  function RoundOutcome(g: Game, tb: TieBreak): (o: Outcome)
    requires g.status == Running && ResolvableWith(g, tb)
    ensures o.deltas.Keys == g.players.Keys
    ensures o.state.track.Keys == g.players.Keys && o.state.last.Keys == g.players.Keys
    ensures HorsesFloored(g.horses) ==> HorsesFloored(o.state.horses)
  {
    Evaluate(g.current, EffectiveChoices(g), RoundStateOf(g), tb)
  }

  /** The deltas booked for the round: the rule's, after the Assimilation
      copy. */
  function RoundDeltas(g: Game, tb: TieBreak): (d: Deltas)
    requires g.status == Running && ResolvableWith(g, tb)
    ensures d.Keys == g.players.Keys
    ensures forall p :: p in g.players && p !in g.effects.assimilation ==> d[p] == RoundOutcome(g, tb).deltas[p]
    ensures forall p :: p in g.players && p in g.effects.assimilation && g.effects.assimilation[p] in g.players ==>
              d[p] == RoundOutcome(g, tb).deltas[g.effects.assimilation[p]]
  {
    Assimilate(RoundOutcome(g, tb).deltas, g.effects.assimilation)
  }

  /** `forceResolveRound`: only the host may close the round early. */
  function ForceResolve(g: Game, caller: string, tb: TieBreak): (r: Result<Game, StartError>)
    requires ResolvableWith(g, tb)
    ensures r.Failure? <==> caller != g.host
    ensures r.Success? ==> r.value == Resolve(g, tb)
  {
    if caller != g.host then Failure(NotHost) else Success(Resolve(g, tb))
  }

  /** `choose` as a whole: the submission and, when it is the last one the
      round was waiting for, the resolution `choose` runs right after it
      (main.go:358-360). The tie-break decides what that resolution leaves
      open. */
  function Submit(g: Game, caller: string, args: seq<string>, tb: TieBreak): (r: Result<Game, ChooseError>)
    requires Choose(g, caller, args).Success? ==> ResolvableWith(Choose(g, caller, args).value.game, tb)
    ensures r.Failure? <==> |args| < 2 || g.status != Running || caller !in g.players
    ensures r.Failure? ==> r == Failure(if |args| < 2 then Usage else NotPlaying)
    ensures r.Success? ==>
      ((r.value.round != g.round || r.value.status == Finished) <==> |g.received + {caller}| == |g.players|)
    ensures r.Success? && |g.received + {caller}| == |g.players| ==>
      r.value == Resolve(Choose(g, caller, args).value.game, tb)
    ensures r.Success? && |g.received + {caller}| != |g.players| ==>
      r.value == Choose(g, caller, args).value.game
  {
    match Choose(g, caller, args)
    case Failure(e) => Failure(e)
    case Success(s) => Success(if s.done then Resolve(s.game, tb) else s.game)
  }

  /** The deadline timer of round `round` still applies: the game is running
      and still in that round. */
  predicate DeadlineLive(g: Game, round: int) {
    g.round == round && g.status == Running
  }

  /** The three-minute timer of round `round` firing. */
  function OnDeadline(g: Game, round: int, tb: TieBreak): (r: Game)
    requires ResolvableWith(g, tb)
    ensures !DeadlineLive(g, round) ==> r == g
    ensures DeadlineLive(g, round) ==> r == Resolve(g, tb)
  {
    if DeadlineLive(g, round) then Resolve(g, tb) else g
  }
}
