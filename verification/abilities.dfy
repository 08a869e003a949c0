/** The ability engine (`useAbility`, main.go:599-704): the command's
    arguments, the gates a caster must pass, and the overlay each ability
    writes for the current round. What Share, Scan, Lock and MetaView report
    back is a message only. Share, Scan and MetaView change nothing but the
    caster's one use; Lock also adds its target to the round's locks. */
module Abilities {
  import opened Wrappers
  import opened Text
  import opened Scoring
  import opened Session

  /** The characters `strings.Trim` strips from a target, so that a Discord
      mention `<@id>` or `<@!id>` names the id. */
  const MentionMarks: set<char> := {'<', '@', '!', '>'}

  /** `!ability <name> [target] [value...]` after `strings.Fields`: the name
      lowered, the target without mention marks, the remaining words joined
      by single spaces. */
  datatype Request = Request(name: string, target: string, value: string)

  function ParseRequest(args: seq<string>): (r: Option<Request>)
    ensures r.None? <==> |args| < 2
    ensures r.Some? ==> r.value.name == ToLower(args[1])
    ensures r.Some? && |args| < 3 ==> r.value.target == "" && r.value.value == ""
    ensures r.Some? && |args| == 3 ==> r.value.value == ""
    ensures r.Some? && |args| >= 3 ==> r.value.target == TrimCut(args[2], MentionMarks)
    ensures r.Some? && |args| >= 4 ==> r.value.value == Unwords(args[3..])
  {
    if |args| < 2 then None
    else
      Some(Request(
        ToLower(args[1]),
        if |args| >= 3 then TrimCut(args[2], MentionMarks) else "",
        if |args| >= 4 then Unwords(args[3..]) else ""))
  }

  datatype AbilityError =
    | AbilityUsage       // fewer than two words
    | NoRunningGame      // the caster plays in no running game
    | NotYourAbility     // the name is not the caster's ability
    | AlreadyUsed        // the one use per game is spent
    | Locked             // a Lock names the caster this round
    | MissingArgument    // a target (and, for Intervention, a value) is required

  /** The ability can be used at all: the caster plays in the running game,
      names its own ability, has not used it and is not locked this round. */
  predicate MayCast(g: Game, caster: string, name: string) {
    && g.status == Running && caster in g.players
    && g.players[caster].ability.Some?
    && AbilityName(g.players[caster].ability.value) == name
    && !g.players[caster].abilityUsed
    && caster !in g.effects.locks
  }

  /** The arguments the ability needs are missing: every ability with an
      effect on another player needs a target, Intervention also a value. */
  predicate MissingArguments(a: Ability, target: string, value: string) {
    || ((a == Intervention || a == Assimilation || a == Lock || a == Share || a == Scan) && target == "")
    || (a == Intervention && value == "")
  }

  /** Lock and Scan look the target up among the players; the source
      dereferences a missing one, so its callers must name a player. */
  predicate TargetKnown(g: Game, caster: string, req: Request) {
    (&& MayCast(g, caster, req.name) && req.target != ""
     && (g.players[caster].ability.value == Lock || g.players[caster].ability.value == Scan))
    ==> req.target in g.players
  }

  /** The round overlay after the caster's ability takes effect. */
  function Overlay(e: Effects, a: Ability, caster: string, target: string, value: string): Effects {
    match a
    case Intervention => e.(interventions := e.interventions[target := value])
    case Blackout => e.(blackout := true)
    case Assimilation => e.(assimilation := e.assimilation[caster := target])
    case Lock => e.(locks := e.locks + {target})
    case Mask => e.(masked := e.masked + {caster})
    case Share => e
    case Scan => e
    case MetaView => e
  }

  /** Using an ability with a parsed request. The gates are checked in the
      source's order; a failure reports why and changes nothing. A success
      writes the ability's overlay and spends the caster's one use in the
      current round; nothing else changes. */
  function Cast(g: Game, caster: string, req: Request): (r: Result<Game, AbilityError>)
    requires TargetKnown(g, caster, req)
    ensures r.Success? <==>
              MayCast(g, caster, req.name)
              && !MissingArguments(g.players[caster].ability.value, req.target, req.value)
    ensures r.Failure? && (g.status != Running || caster !in g.players) ==> r.error == NoRunningGame
    ensures (&& r.Failure? && g.status == Running && caster in g.players
             && (g.players[caster].ability.None? || AbilityName(g.players[caster].ability.value) != req.name))
            ==> r.error == NotYourAbility
    ensures (&& r.Failure? && g.status == Running && caster in g.players && g.players[caster].abilityUsed
             && g.players[caster].ability.Some? && AbilityName(g.players[caster].ability.value) == req.name)
            ==> r.error == AlreadyUsed
    ensures (&& r.Failure? && g.status == Running && caster in g.players && !g.players[caster].abilityUsed
             && g.players[caster].ability.Some? && AbilityName(g.players[caster].ability.value) == req.name
             && caster in g.effects.locks)
            ==> r.error == Locked
    ensures r.Failure? && MayCast(g, caster, req.name) ==> r.error == MissingArgument
    ensures r.Success? ==>
      var a := g.players[caster].ability.value;
      && r.value.players.Keys == g.players.Keys
      && r.value.players[caster] == g.players[caster].(abilityUsed := true, usedAbilityAt := g.round)
      && (forall q :: q in g.players && q != caster ==> r.value.players[q] == g.players[q])
      && (a == Intervention ==>
            r.value.effects == g.effects.(interventions := g.effects.interventions[req.target := req.value]))
      && (a == Blackout ==> r.value.effects == g.effects.(blackout := true))
      && (a == Assimilation ==> r.value.effects == g.effects.(assimilation := g.effects.assimilation[caster := req.target]))
      && (a == Lock ==> r.value.effects == g.effects.(locks := g.effects.locks + {req.target}))
      && (a == Mask ==> r.value.effects == g.effects.(masked := g.effects.masked + {caster}))
      && (a == Share || a == Scan || a == MetaView ==> r.value.effects == g.effects)
      && r.value == g.(players := r.value.players, effects := r.value.effects)
  {
    if g.status != Running || caster !in g.players then Failure(NoRunningGame)
    else
      var pl := g.players[caster];
      if pl.ability.None? || AbilityName(pl.ability.value) != req.name then Failure(NotYourAbility)
      else if pl.abilityUsed then Failure(AlreadyUsed)
      else if caster in g.effects.locks then Failure(Locked)
      else
        var a := pl.ability.value;
        if MissingArguments(a, req.target, req.value) then Failure(MissingArgument)
        else
          var e := Overlay(g.effects, a, caster, req.target, req.value);
          Success(g.(players := g.players[caster := pl.(abilityUsed := true, usedAbilityAt := g.round)],
                     effects := e))
  }

  /** `!ability ...` from the command's words. */
  function UseAbility(g: Game, caster: string, args: seq<string>): (r: Result<Game, AbilityError>)
    requires ParseRequest(args).Some? ==> TargetKnown(g, caster, ParseRequest(args).value)
    ensures |args| < 2 <==> r == Failure(AbilityUsage)
    ensures |args| >= 2 ==> r == Cast(g, caster, ParseRequest(args).value)
  {
    match ParseRequest(args)
    case None => Failure(AbilityUsage)
    case Some(req) => Cast(g, caster, req)
  }
}
