/** What the session promises over its whole life: every operation keeps the
    session invariant, the lobby and start guards, the one-use abilities, the
    one-round locks, the single Assimilation link, the bookkeeping of scores
    and logs, and the staleness of a resolved round's deadline. */
module SessionFacts {
  import opened Wrappers
  import opened Text
  import opened Maps
  import opened Scoring
  import opened Session
  import opened Abilities

  // ---------------------------------------------------------------------------
  // Lobby and start
  // ---------------------------------------------------------------------------

  lemma JoinPreservesInv(g: Game, id: string, name: string)
    requires Inv(g)
    requires Join(g, id, name).Success?
    ensures Inv(Join(g, id, name).value)
  {
    JoinKeepsRoster(g, id, name);
    JoinKeepsScores(g, id, name);
    JoinKeepsRest(g, id, name);
  }

  lemma JoinKeepsRest(g: Game, id: string, name: string)
    requires Phase(g) && EffectsWellFormed(g) && UseRecorded(g) && HorsesFloored(g.horses)
    requires Join(g, id, name).Success?
    ensures var h := Join(g, id, name).value;
            Phase(h) && EffectsWellFormed(h) && UseRecorded(h) && HorsesFloored(h.horses)
  {
    var h := Join(g, id, name).value;
    assert h == g.(players := h.players, order := h.order);
    assert Phase(h);
    assert EffectsWellFormed(h);
    assert UseRecorded(h);
  }

  lemma JoinKeepsRoster(g: Game, id: string, name: string)
    requires Roster(g)
    requires Join(g, id, name).Success?
    ensures Roster(Join(g, id, name).value)
  {
    var h := Join(g, id, name).value;
    assert Elements(h.order) == Elements(g.order) + {id};
    forall i, j | 0 <= i < j < |h.order| ensures h.order[i] != h.order[j] {
      if j == |g.order| {
        assert h.order[i] == g.order[i] && g.order[i] in g.players;
      } else {
        assert h.order[i] == g.order[i] && h.order[j] == g.order[j];
      }
    }
  }

  lemma JoinKeepsScores(g: Game, id: string, name: string)
    requires ScoresMatchLogs(g) && g.logs.Keys <= g.players.Keys
    requires Join(g, id, name).Success?
    ensures ScoresMatchLogs(Join(g, id, name).value)
  {
    var h := Join(g, id, name).value;
    forall p | p in h.players ensures Log(h, p) == Log(g, p) {}
    assert Log(h, id) == [];
  }

  /** Which player receives which ability: the i-th of the order gets the
      i-th of the shuffle, and nobody else changes. */
  lemma {:induction false} AssignAbilitiesDeals(players: map<string, Player>, order: seq<string>, abilities: seq<Ability>)
    requires |order| <= |abilities| && Elements(order) <= players.Keys
    requires Distinct(order)
    ensures var r := AssignAbilities(players, order, abilities);
      && (forall i :: 0 <= i < |order| ==> r[order[i]] == players[order[i]].(ability := Some(abilities[i])))
      && (forall p :: p in players && p !in Elements(order) ==> r[p] == players[p])
    decreases |order|
  {
    if order != [] {
      var n := |order| - 1;
      var front := order[..n];
      assert Elements(front) <= Elements(order);
      assert Distinct(front);
      AssignAbilitiesDeals(players, front, abilities);
      assert Elements(order) == Elements(front) + {order[n]};
      forall i | 0 <= i < n ensures order[i] != order[n] && order[i] == front[i] {}
      assert order[n] !in Elements(front);
    }
  }

  lemma StartPreservesInv(g: Game, caller: string, games: seq<MiniGame>, abilities: seq<Ability>)
    requires Inv(g)
    requires IsShuffleOf(games, AllMiniGames) && IsShuffleOf(abilities, AllAbilities)
    requires Start(g, caller, games, abilities).Success?
    ensures Inv(Start(g, caller, games, abilities).value)
  {
    var h := Start(g, caller, games, abilities).value;
    StartDeals(g, caller, games, abilities);
    RosterFrame(g, h);
    ScoresFrame(g, h);
    assert Phase(h);
    assert EffectsWellFormed(h);
    StartKeepsUse(g, h);
  }

  /** Nobody has used an ability when the lobby starts. */
  lemma StartKeepsUse(g: Game, h: Game)
    requires Phase(g) && UseRecorded(g) && g.status == Lobby
    requires h.players.Keys == g.players.Keys
    requires forall p :: p in h.players ==> h.players[p] == g.players[p].(ability := h.players[p].ability)
    ensures UseRecorded(h)
  {
  }

  /** The start deals one distinct ability to every player, changes nothing
      else about them, and schedules six distinct minigames. */
  lemma StartDeals(g: Game, caller: string, games: seq<MiniGame>, abilities: seq<Ability>)
    requires Roster(g)
    requires IsShuffleOf(games, AllMiniGames) && IsShuffleOf(abilities, AllAbilities)
    requires |g.order| <= |AllAbilities|
    requires Start(g, caller, games, abilities).Success?
    ensures var h := Start(g, caller, games, abilities).value;
      && AbilitiesDealt(h.players)
      && Distinct(h.minigames)
      && forall p :: p in h.players ==> h.players[p] == g.players[p].(ability := h.players[p].ability)
  {
    var h := Start(g, caller, games, abilities).value;
    AssignAbilitiesDistinct(g.players, g.order, abilities);
    forall i, j | 0 <= i < j < |h.minigames| ensures h.minigames[i] != h.minigames[j] {
      assert h.minigames[i] == games[i] && h.minigames[j] == games[j];
    }
  }

  lemma AssignAbilitiesDistinct(players: map<string, Player>, order: seq<string>, abilities: seq<Ability>)
    requires |order| <= |abilities| && Elements(order) == players.Keys
    requires Distinct(order) && Distinct(abilities)
    ensures var r := AssignAbilities(players, order, abilities);
      && AbilitiesDealt(r)
      && forall p :: p in r ==> r[p] == players[p].(ability := r[p].ability)
  {
    var ps := AssignAbilities(players, order, abilities);
    AssignAbilitiesDeals(players, order, abilities);
    forall p | p in ps ensures ps[p] == players[p].(ability := ps[p].ability) && ps[p].ability.Some? {
      var i :| 0 <= i < |order| && order[i] == p;
    }
    forall p, q | p in ps && q in ps && p != q ensures ps[p].ability != ps[q].ability {
      var i :| 0 <= i < |order| && order[i] == p;
      var j :| 0 <= j < |order| && order[j] == q;
      assert i != j;
      assert abilities[i] != abilities[j];
    }
  }

  // ---------------------------------------------------------------------------
  // Submissions
  // ---------------------------------------------------------------------------

  lemma ChoosePreservesInv(g: Game, caller: string, args: seq<string>)
    requires Inv(g)
    requires Choose(g, caller, args).Success?
    ensures Inv(Choose(g, caller, args).value.game)
  {
    var h := Choose(g, caller, args).value.game;
    ChooseFrame(g, caller, args);
    DealingFrame(g, h);
    RosterFrame(g, h);
    ScoresFrame(g, h);
  }

  /** A submission touches only the caller's choices and the submitters. */
  lemma ChooseFrame(g: Game, caller: string, args: seq<string>)
    requires Roster(g)
    requires Choose(g, caller, args).Success?
    ensures var h := Choose(g, caller, args).value.game;
      && SameDealing(g, h)
      && h == g.(players := h.players, received := h.received)
      && h.received <= h.players.Keys
      && forall p :: p in g.players ==> h.players[p].score == g.players[p].score
  {
    ChooseKeepsAbilities(g, caller, args);
  }

  /** The roster facts only depend on the keys, the order, the submitters and
      the logs. */
  lemma RosterFrame(g: Game, h: Game)
    requires Roster(g)
    requires h.players.Keys == g.players.Keys && h.order == g.order && h.logs == g.logs
    requires h.received <= h.players.Keys
    ensures Roster(h)
  {
  }

  /** Scores and logs that both stay put keep matching. */
  lemma ScoresFrame(g: Game, h: Game)
    requires ScoresMatchLogs(g)
    requires h.players.Keys == g.players.Keys && h.logs == g.logs
    requires forall p :: p in g.players ==> h.players[p].score == g.players[p].score
    ensures ScoresMatchLogs(h)
  {
    forall p | p in h.players ensures Log(h, p) == Log(g, p) {}
  }

  /** The round is complete, and resolves, exactly when every player of the
      session has submitted in it. */
  lemma ChooseDoneWhenAllSubmitted(g: Game, caller: string, args: seq<string>)
    requires Roster(g)
    requires Choose(g, caller, args).Success?
    ensures var s := Choose(g, caller, args).value;
      s.done <==> s.game.received == g.players.Keys
  {
    var s := Choose(g, caller, args).value;
    if s.done {
      assert s.game.received <= g.players.Keys;
      assert |s.game.received| == |g.players.Keys|;
      SubsetCardEqual(s.game.received, g.players.Keys);
    }
  }

  /** A submission closes the round exactly when it is the last one the
      round was waiting for. */
  lemma SubmitClosesRound(g: Game, caller: string, args: seq<string>, tb: TieBreak)
    requires Roster(g)
    requires Choose(g, caller, args).Success? ==> ResolvableWith(Choose(g, caller, args).value.game, tb)
    requires Submit(g, caller, args, tb).Success?
    ensures var h := Submit(g, caller, args, tb).value;
      (h.round != g.round || h.status == Finished) <==> g.received + {caller} == g.players.Keys
  {
    var s := Choose(g, caller, args).value;
    var h := Submit(g, caller, args, tb).value;
    ChooseDoneWhenAllSubmitted(g, caller, args);
    ChooseKeepsLogs(g, caller, args);
    if s.done {
      ClosedAfterResolve(g, s.game, h, tb);
    } else {
      OpenAfterSubmission(g, h);
    }
  }

  /** The closing submission scores the round: every player's log gains its
      line. Any other submission leaves the logs alone. */
  lemma SubmitLogsRound(g: Game, caller: string, args: seq<string>, tb: TieBreak)
    requires Roster(g)
    requires Choose(g, caller, args).Success? ==> ResolvableWith(Choose(g, caller, args).value.game, tb)
    requires Submit(g, caller, args, tb).Success?
    ensures var h := Submit(g, caller, args, tb).value;
      && (g.received + {caller} == g.players.Keys ==> forall p :: p in g.players ==> |Log(h, p)| == |Log(g, p)| + 1)
      && (g.received + {caller} != g.players.Keys ==> forall p :: p in g.players ==> Log(h, p) == Log(g, p))
  {
    var s := Choose(g, caller, args).value;
    var h := Submit(g, caller, args, tb).value;
    ChooseDoneWhenAllSubmitted(g, caller, args);
    ChooseKeepsLogs(g, caller, args);
    if s.done {
      ClosedAfterResolve(g, s.game, h, tb);
    } else {
      OpenAfterSubmission(g, h);
    }
  }

  /** Resolving a running round moves past it and adds one log line each. */
  lemma ClosedAfterResolve(g: Game, m: Game, h: Game, tb: TieBreak)
    requires m.round == g.round && m.status == Running && m.logs == g.logs && m.players.Keys == g.players.Keys
    requires ResolvableWith(m, tb) && h == Resolve(m, tb)
    ensures h.round != g.round || h.status == Finished
    ensures forall p :: p in g.players ==> |Log(h, p)| == |Log(g, p)| + 1
  {
    LogsAgree(g, m);
  }

  /** A submission that is not the last leaves the round open and the logs
      alone. */
  lemma OpenAfterSubmission(g: Game, h: Game)
    requires h.round == g.round && h.status == Running && h.logs == g.logs
    ensures !(h.round != g.round || h.status == Finished)
    ensures forall p :: Log(h, p) == Log(g, p)
  {
    LogsAgree(g, h);
  }

  lemma LogsAgree(g: Game, h: Game)
    requires h.logs == g.logs
    ensures forall p :: Log(h, p) == Log(g, p)
  {
  }

  lemma ChooseKeepsLogs(g: Game, caller: string, args: seq<string>)
    requires Choose(g, caller, args).Success?
    ensures var h := Choose(g, caller, args).value.game;
      h.round == g.round && h.status == Running && h.logs == g.logs && h.players.Keys == g.players.Keys
  {
  }

  /** `choose` as a whole, resolution included, keeps the invariant. */
  lemma SubmitPreservesInv(g: Game, caller: string, args: seq<string>, tb: TieBreak)
    requires Inv(g)
    requires Choose(g, caller, args).Success? ==> ResolvableWith(Choose(g, caller, args).value.game, tb)
    requires Submit(g, caller, args, tb).Success?
    ensures Inv(Submit(g, caller, args, tb).value)
  {
    var s := Choose(g, caller, args).value;
    ChoosePreservesInv(g, caller, args);
    if s.done {
      ResolvePreservesInv(s.game, tb);
    }
  }

  lemma SubsetCardEqual<T>(a: set<T>, b: set<T>)
    requires a <= b && |a| == |b|
    ensures a == b
  {
    assert |b - a| == |b| - |a|;
  }

  /** The stored choice splits back into the words the player typed after
      the command. */
  lemma ChoiceKeepsWords(g: Game, caller: string, args: seq<string>)
    requires AllWords(args)
    requires Choose(g, caller, args).Success?
    ensures Fields(Choose(g, caller, args).value.game.players[caller].choices[g.round]) == args[1..]
  {
    assert AllWords(args[1..]) by {
      forall i | 0 <= i < |args[1..]| ensures IsWord(args[1..][i]) {
        assert args[1..][i] == args[i + 1];
      }
    }
    FieldsOfUnwords(args[1..]);
  }

  // ---------------------------------------------------------------------------
  // Abilities
  // ---------------------------------------------------------------------------

  lemma CastPreservesInv(g: Game, caster: string, req: Request)
    requires Inv(g)
    requires TargetKnown(g, caster, req)
    requires Cast(g, caster, req).Success?
    ensures Inv(Cast(g, caster, req).value)
  {
    var h := Cast(g, caster, req).value;
    RosterFrame(g, h);
    assert forall p :: p in g.players ==> h.players[p].score == g.players[p].score;
    ScoresFrame(g, h);
    assert forall p :: p in g.players ==> h.players[p].ability == g.players[p].ability;
    PhaseFrame(g, h);
    CastKeepsEffects(g, caster, req);
    CastKeepsUse(g, caster, req);
  }

  /** In a started game the phase only depends on the keys, the abilities
      held and the phase fields. */
  lemma PhaseFrame(g: Game, h: Game)
    requires Phase(g) && g.status != Lobby
    requires h.players.Keys == g.players.Keys
    requires forall p :: p in g.players ==> h.players[p].ability == g.players[p].ability
    requires h.status == g.status && h.round == g.round && h.minigames == g.minigames && h.current == g.current
    ensures Phase(h)
  {
    assert AbilitiesDealt(h.players);
  }

  lemma CastKeepsEffects(g: Game, caster: string, req: Request)
    requires EffectsWellFormed(g)
    requires TargetKnown(g, caster, req)
    requires Cast(g, caster, req).Success?
    ensures EffectsWellFormed(Cast(g, caster, req).value)
  {
  }

  lemma CastKeepsUse(g: Game, caster: string, req: Request)
    requires UseRecorded(g) && Phase(g)
    requires TargetKnown(g, caster, req)
    requires Cast(g, caster, req).Success?
    ensures UseRecorded(Cast(g, caster, req).value)
  {
  }

  /** An ability is used at most once a game: after a successful use, every
      further attempt by the same caster fails, whatever it names. */
  lemma SecondUseFails(g: Game, caster: string, req: Request, again: Request)
    requires TargetKnown(g, caster, req)
    requires Cast(g, caster, req).Success?
    requires TargetKnown(Cast(g, caster, req).value, caster, again)
    ensures Cast(Cast(g, caster, req).value, caster, again).Failure?
    ensures again.name == req.name ==> Cast(Cast(g, caster, req).value, caster, again).error == AlreadyUsed
  {
  }

  /** A Lock bars its target for the rest of the round ... */
  lemma LockBarsTarget(g: Game, caster: string, req: Request, again: Request)
    requires TargetKnown(g, caster, req)
    requires Cast(g, caster, req).Success?
    requires g.players[caster].ability == Some(Lock)
    ensures req.target in Cast(g, caster, req).value.effects.locks
    ensures TargetKnown(Cast(g, caster, req).value, req.target, again) ==>
              Cast(Cast(g, caster, req).value, req.target, again).Failure?
  {
  }

  /** ... and the next round opens without it: resolving a round that is not
      the last leaves no lock in force. */
  lemma LocksClearNextRound(g: Game, tb: TieBreak)
    requires ResolvableWith(g, tb)
    requires g.status == Running && g.round < TotalRounds
    ensures Resolve(g, tb).effects.locks == {}
    ensures forall p, again :: p in g.players && TargetKnown(Resolve(g, tb), p, again) ==>
              (Cast(Resolve(g, tb), p, again).Failure? ==> Cast(Resolve(g, tb), p, again).error != Locked)
  {
  }

  /** Only the holder of Assimilation ever links, so a round has at most one
      copy link. */
  lemma AtMostOneCopyLink(g: Game)
    requires Inv(g)
    ensures |g.effects.assimilation| <= 1
  {
    var holders := g.effects.assimilation.Keys;
    if holders != {} {
      var p :| p in holders;
      forall q | q in holders ensures q in {p} {
        assert g.players[q].ability == g.players[p].ability;
      }
      SubsetCard(holders, {p});
    }
  }

  /** The source applies the copy links one after another in map order; this
      is that loop, over the links in the order `ks`. */
  function CopyInOrder(deltas: Deltas, links: map<string, string>, ks: seq<string>): Deltas
    requires Elements(ks) <= links.Keys
  {
    if ks == [] then deltas
    else
      var n := |ks| - 1;
      assert Elements(ks[..n]) <= Elements(ks);
      var d := CopyInOrder(deltas, links, ks[..n]);
      d[ks[n] := if links[ks[n]] in d then d[links[ks[n]]] else 0]
  }

  /** With at most one link, the one-after-another copy of the source and the
      simultaneous copy of the model agree whatever the map order. */
  lemma CopyOrderIrrelevant(deltas: Deltas, links: map<string, string>, ks: seq<string>)
    requires |links| <= 1 && links.Keys <= deltas.Keys
    requires Distinct(ks) && Elements(ks) == links.Keys
    ensures CopyInOrder(deltas, links, ks) == Assimilate(deltas, links)
  {
    DistinctCard(ks);
    var a := Assimilate(deltas, links);
    if ks == [] {
      assert links.Keys == {};
      assert forall p :: p in deltas ==> a[p] == deltas[p];
    } else {
      assert |ks| == 1;
      var k := ks[0];
      assert ks[..0] == [];
      assert k in links;
      assert links.Keys == {k} by {
        SingletonUnique(links.Keys, k, k);
        forall q | q in links.Keys ensures q == k {
          SingletonUnique(links.Keys, k, q);
        }
      }
      var r := CopyInOrder(deltas, links, ks);
      var d0 := CopyInOrder(deltas, links, ks[..0]);
      assert d0 == deltas;
      assert r == d0[k := if links[k] in d0 then d0[links[k]] else 0];
      assert r.Keys == a.Keys;
      forall p | p in a ensures r[p] == a[p] {
        if p != k {
          assert p !in links;
        }
      }
    }
  }

  // ---------------------------------------------------------------------------
  // Resolution
  // ---------------------------------------------------------------------------

  lemma TotalDeltaAppend(log: seq<LogEntry>, e: LogEntry)
    ensures TotalDelta(log + [e]) == TotalDelta(log) + e.delta
  {
    assert (log + [e])[..|log|] == log;
  }

  /** Booking the round keeps the invariant: scores and logs grow together,
      and nothing about abilities, the roster or the phase changes. */
  lemma SettleKeepsInv(g: Game, choices: Choices, d: Deltas, st: RoundState)
    requires Inv(g)
    requires d.Keys == g.players.Keys && choices.Keys == g.players.Keys
    requires st.track.Keys == g.players.Keys && st.last.Keys == g.players.Keys
    requires HorsesFloored(st.horses)
    ensures Inv(Settle(g, choices, d, st))
  {
    var h := Settle(g, choices, d, st);
    SettleKeepsRoster(g, choices, d, st);
    SettleKeepsScores(g, choices, d, st);
    SettleKeepsDealing(g, choices, d, st);
    DealingFrame(g, h);
  }

  lemma SettleKeepsDealing(g: Game, choices: Choices, d: Deltas, st: RoundState)
    requires d.Keys == g.players.Keys && choices.Keys == g.players.Keys
    requires st.track.Keys == g.players.Keys && st.last.Keys == g.players.Keys
    ensures SameDealing(g, Settle(g, choices, d, st))
  {
    var h := Settle(g, choices, d, st);
    forall p | p in g.players ensures
      && h.players[p].ability == g.players[p].ability
      && h.players[p].abilityUsed == g.players[p].abilityUsed
      && h.players[p].usedAbilityAt == g.players[p].usedAbilityAt
    {}
  }

  /** Two sessions agree on who holds which ability and who used it. */
  predicate SameDealing(g: Game, h: Game) {
    && h.players.Keys == g.players.Keys
    && forall p :: p in g.players ==>
         && h.players[p].ability == g.players[p].ability
         && h.players[p].abilityUsed == g.players[p].abilityUsed
         && h.players[p].usedAbilityAt == g.players[p].usedAbilityAt
  }

  /** The phase, the overlay and the use records only depend on the dealing,
      the phase fields and the overlay. */
  lemma DealingFrame(g: Game, h: Game)
    requires SameDealing(g, h)
    requires h.status == g.status && h.round == g.round && h.minigames == g.minigames
    requires h.current == g.current && h.effects == g.effects
    ensures Phase(g) ==> Phase(h)
    ensures EffectsWellFormed(g) ==> EffectsWellFormed(h)
    ensures UseRecorded(g) ==> UseRecorded(h)
  {
    if Phase(g) && g.status != Lobby {
      assert AbilitiesDealt(h.players);
    }
  }

  lemma SettleKeepsRoster(g: Game, choices: Choices, d: Deltas, st: RoundState)
    requires Roster(g)
    requires d.Keys == g.players.Keys && choices.Keys == g.players.Keys
    requires st.track.Keys == g.players.Keys && st.last.Keys == g.players.Keys
    ensures Roster(Settle(g, choices, d, st))
  {
  }

  lemma SettleKeepsScores(g: Game, choices: Choices, d: Deltas, st: RoundState)
    requires ScoresMatchLogs(g)
    requires d.Keys == g.players.Keys && choices.Keys == g.players.Keys
    requires st.track.Keys == g.players.Keys && st.last.Keys == g.players.Keys
    ensures ScoresMatchLogs(Settle(g, choices, d, st))
  {
    var h := Settle(g, choices, d, st);
    forall p | p in h.players
      ensures h.players[p].score == TotalDelta(Log(h, p))
      ensures Log(h, p)[|Log(h, p)| - 1].total == h.players[p].score
    {
      var e := LogEntry(g.round, g.current, choices[p], d[p], h.players[p].score);
      assert Log(h, p) == Log(g, p) + [e];
      TotalDeltaAppend(Log(g, p), e);
    }
  }

  /** Opening the next round, or finishing, keeps the invariant. */
  lemma NextRoundKeepsInv(g: Game)
    requires Inv(g) && g.status == Running
    ensures Inv(StartNextRound(g))
  {
    var h := StartNextRound(g);
    if g.round < TotalRounds {
      NextRoundKeepsParts(g, h);
    } else {
      assert ScoresMatchLogs(h) by {
        forall p | p in h.players ensures Log(h, p) == Log(g, p) {}
      }
    }
  }

  lemma NextRoundKeepsParts(g: Game, h: Game)
    requires Inv(g) && g.status == Running && g.round < TotalRounds && h == StartNextRound(g)
    ensures Roster(h) && Phase(h) && EffectsWellFormed(h) && ScoresMatchLogs(h) && UseRecorded(h)
            && HorsesFloored(h.horses)
  {
    assert Roster(h);
    assert Phase(h);
    assert EffectsWellFormed(h);
    assert ScoresMatchLogs(h) by {
      forall p | p in h.players ensures Log(h, p) == Log(g, p) {}
    }
    NextRoundKeepsUse(g, h);
  }

  lemma NextRoundKeepsUse(g: Game, h: Game)
    requires UseRecorded(g) && h.players == g.players && h.round == g.round + 1
    ensures UseRecorded(h)
  {
  }

  lemma ResolvePreservesInv(g: Game, tb: TieBreak)
    requires Inv(g) && ResolvableWith(g, tb)
    ensures Inv(Resolve(g, tb))
  {
    if g.status == Running {
      var choices := EffectiveChoices(g);
      var o := RoundOutcome(g, tb);
      var d := RoundDeltas(g, tb);
      SettleKeepsInv(g, choices, d, o.state);
      var h := Settle(g, choices, d, o.state);
      NextRoundKeepsInv(h);
    }
  }

  /** Resolving books the round: every player's score grows by its delta
      (the rule's, or its Assimilation target's), and its log gains a line
      with the round, the minigame, the effective choice, the delta and the
      new total. */
  lemma ResolveBooksDeltas(g: Game, tb: TieBreak)
    requires ResolvableWith(g, tb) && g.status == Running
    ensures var r := Resolve(g, tb);
      forall p :: p in g.players ==>
        && r.players[p].score == g.players[p].score + RoundDeltas(g, tb)[p]
        && Log(r, p) == Log(g, p) + [LogEntry(g.round, g.current, EffectiveChoices(g)[p],
                                             RoundDeltas(g, tb)[p], r.players[p].score)]
  {
  }

  /** The deadline of a resolved round no longer fires: the round moved on or
      the game finished. In particular resolving twice is not resolving
      once: the second call scores the next round. */
  lemma DeadlineStaleAfterResolve(g: Game, tb: TieBreak)
    requires ResolvableWith(g, tb) && g.status == Running
    ensures !DeadlineLive(Resolve(g, tb), g.round)
    ensures Resolve(g, tb) != g
  {
  }

  /** Neither submissions nor resolutions take back an ability or its use. */
  lemma ResolveKeepsAbilities(g: Game, tb: TieBreak)
    requires ResolvableWith(g, tb)
    ensures forall p :: p in g.players ==>
      && Resolve(g, tb).players[p].ability == g.players[p].ability
      && Resolve(g, tb).players[p].abilityUsed == g.players[p].abilityUsed
      && Resolve(g, tb).players[p].usedAbilityAt == g.players[p].usedAbilityAt
  {
    if g.status == Running {
      var h := Settle(g, EffectiveChoices(g), RoundDeltas(g, tb), RoundOutcome(g, tb).state);
      assert Resolve(g, tb).players == h.players;
    }
  }

  lemma ChooseKeepsAbilities(g: Game, caller: string, args: seq<string>)
    requires Choose(g, caller, args).Success?
    ensures forall p :: p in g.players ==>
      && Choose(g, caller, args).value.game.players[p].ability == g.players[p].ability
      && Choose(g, caller, args).value.game.players[p].abilityUsed == g.players[p].abilityUsed
      && Choose(g, caller, args).value.game.players[p].usedAbilityAt == g.players[p].usedAbilityAt
  {
    var h := Choose(g, caller, args).value.game;
    forall p | p in g.players ensures h.players[p] == g.players[p].(choices := h.players[p].choices) {}
  }

  /** The host's forced close and the deadline keep the invariant too. */
  lemma ForceKeepsInv(g: Game, caller: string, tb: TieBreak)
    requires Inv(g) && ResolvableWith(g, tb)
    ensures ForceResolve(g, caller, tb).Success? ==> Inv(ForceResolve(g, caller, tb).value)
  {
    if caller == g.host {
      ResolvePreservesInv(g, tb);
    }
  }

  lemma DeadlineKeepsInv(g: Game, round: int, tb: TieBreak)
    requires Inv(g) && ResolvableWith(g, tb)
    ensures Inv(OnDeadline(g, round, tb))
  {
    if DeadlineLive(g, round) {
      ResolvePreservesInv(g, tb);
    }
  }

  /** A Discord mention of a numeric id names that id. */
  lemma MentionNamesId(id: string, bang: bool)
    requires id != [] && AllDigits(id)
    ensures TrimCut((if bang then "<@!" else "<@") + id + ">", MentionMarks) == id
  {
    MentionLeft(id, bang);
    MentionRight(id);
  }

  /** The opening `<@` or `<@!` of a mention is trimmed up to the id. */
  lemma MentionLeft(id: string, bang: bool)
    requires id != [] && AllDigits(id)
    ensures TrimLeftCut((if bang then "<@!" else "<@") + id + ">", MentionMarks) == id + ">"
  {
    var pre := if bang then "<@!" else "<@";
    var body := id + ">";
    assert pre + id + ">" == pre + body;
    assert forall i :: 0 <= i < |pre| ==> pre[i] in MentionMarks;
    CutPrefixDropped(pre, body, MentionMarks);
    DigitIsNoMark(id[0]);
    assert body[0] == id[0];
    LeftCutStops(body, MentionMarks);
  }

  /** The closing `>` of a mention is trimmed down to the id. */
  lemma MentionRight(id: string)
    requires id != [] && AllDigits(id)
    ensures TrimRightCut(id + ">", MentionMarks) == id
  {
    var body := id + ">";
    assert body[..|body| - 1] == id;
    RightCutStep(body, MentionMarks);
    DigitIsNoMark(id[|id| - 1]);
    RightCutStops(id, MentionMarks);
  }

  lemma DigitIsNoMark(c: char)
    requires IsDigit(c)
    ensures c !in MentionMarks
  {
  }

  lemma LeftCutStops(s: string, cut: set<char>)
    requires s != [] && s[0] !in cut
    ensures TrimLeftCut(s, cut) == s
  {
  }

  lemma RightCutStops(s: string, cut: set<char>)
    requires s != [] && s[|s| - 1] !in cut
    ensures TrimRightCut(s, cut) == s
  {
  }

  lemma RightCutStep(s: string, cut: set<char>)
    requires s != [] && s[|s| - 1] in cut
    ensures TrimRightCut(s, cut) == TrimRightCut(s[..|s| - 1], cut)
  {
  }

  /** Characters of the cut set in front of a text are all trimmed. */
  lemma {:induction false} CutPrefixDropped(pre: string, body: string, cut: set<char>)
    requires forall i :: 0 <= i < |pre| ==> pre[i] in cut
    ensures TrimLeftCut(pre + body, cut) == TrimLeftCut(body, cut)
  {
    if pre != [] {
      var s := pre + body;
      assert s[0] == pre[0] && s[0] in cut;
      assert s[1..] == pre[1..] + body;
      assert TrimLeftCut(s, cut) == TrimLeftCut(s[1..], cut);
      assert forall i :: 0 <= i < |pre[1..]| ==> pre[1..][i] == pre[i + 1];
      CutPrefixDropped(pre[1..], body, cut);
    } else {
      assert pre + body == body;
    }
  }
}
