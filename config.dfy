/**
 * The tournament configuration record (src/bracket_tournament/config.rs).
 *
 * Every builder in the source returns a MongoDB document: `make_config` the
 * record that is inserted, the others a `$set` or `$inc` update of it.  Here
 * a record is a `Config`, an update is an `Update`, and `Apply` gives the
 * record that the store holds after it applies an update.
 */
module TournamentConfig {
  import opened Wrappers
  import opened RustInt

  /** The six fields of the stored config document. `None` is BSON `Null`. */
  datatype Config = Config(
    registration: bool,
    tournamentStarted: bool,
    round: int,
    mode: Option<string>,
    mapName: Option<string>,
    total: int)

  /** The body of a `$set` document: each present field is overwritten. */
  datatype SetFields = SetFields(
    registration: Option<bool>,
    tournamentStarted: Option<bool>,
    round: Option<int>,
    mode: Option<Option<string>>,
    mapName: Option<Option<string>>,
    total: Option<int>)

  /** The update documents the builders produce. */
  datatype Update =
    | Set(fields: SetFields)      // { "$set": { ... } }
    | IncRound(amount: int)           // { "$inc": { "round": amount } }

  /**
   * What the store holds after applying `u` to the record `c`: `$set` writes
   * the listed fields and keeps every other one, `$inc` adds to the round.
   */
  function Apply(u: Update, c: Config): (r: Config)
    ensures u.IncRound? ==> r == c.(round := c.round + u.amount)
    ensures u.Set? ==> r.registration == u.fields.registration.UnwrapOr(c.registration)
    ensures u.Set? ==> r.tournamentStarted == u.fields.tournamentStarted.UnwrapOr(c.tournamentStarted)
    ensures u.Set? ==> r.round == u.fields.round.UnwrapOr(c.round)
    ensures u.Set? ==> r.mode == u.fields.mode.UnwrapOr(c.mode)
    ensures u.Set? ==> r.mapName == u.fields.mapName.UnwrapOr(c.mapName)
    ensures u.Set? ==> r.total == u.fields.total.UnwrapOr(c.total)
  {
    match u
    case Set(f) =>
      Config(
        if f.registration.Some? then f.registration.value else c.registration,
        if f.tournamentStarted.Some? then f.tournamentStarted.value else c.tournamentStarted,
        if f.round.Some? then f.round.value else c.round,
        if f.mode.Some? then f.mode.value else c.mode,
        if f.mapName.Some? then f.mapName.value else c.mapName,
        if f.total.Some? then f.total.value else c.total)
    case IncRound(n) => c.(round := c.round + n)
  }

  /** Applying the same `$set` twice is the same as applying it once. */
  lemma SetIdempotent(f: SetFields, c: Config)
    ensures Apply(Set(f), Apply(Set(f), c)) == Apply(Set(f), c)
  {
  }

  /** Two `$inc` updates of the round add up. */
  lemma IncComposes(a: int, b: int, c: Config)
    ensures Apply(IncRound(a), Apply(IncRound(b), c)) == Apply(IncRound(a + b), c)
  {
  }

  const NoFields := SetFields(None, None, None, None, None, None)

  /** The phase a record describes, in the terms of the tournament's life cycle. */
  datatype Phase = RegistrationOpen | RegistrationClosed | InProgress(round: int)

  function PhaseOf(c: Config): Phase
  {
    if c.tournamentStarted then InProgress(c.round)
    else if c.registration then RegistrationOpen
    else RegistrationClosed
  }

  /**
   * The consistency one expects of a tournament record: a tournament that has not
   * started is at round 0, and during play registration is closed and the
   * round lies in 1..total.
   */
  predicate Consistent(c: Config)
  {
    (!c.tournamentStarted ==> c.round == 0)
    && (c.tournamentStarted ==> !c.registration && 1 <= c.round <= c.total)
  }

  /** `make_config`: the record inserted when no config exists yet. */
  function MakeConfig(): (c: Config)
    ensures PhaseOf(c) == RegistrationOpen && Consistent(c)
    ensures c.round == 0 && c.total == 0 && c.mode == None && c.mapName == None
  {
    Config(true, false, 0, None, None, 0)
  }

  /** `set_config(mode, map)`: stores the mode's name and the optional map. */
  function SetConfig(modeName: string, mapName: Option<string>): (u: Update)
    ensures forall c :: Apply(u, c) == c.(mode := Some(modeName), mapName := mapName)
  {
    Set(NoFields.(mode := Some(Some(modeName)), mapName := Some(mapName)))
  }

  /** `disable_registration`. */
  function DisableRegistration(): (u: Update)
    ensures forall c :: Apply(u, c) == c.(registration := false)
  {
    Set(NoFields.(registration := Some(false)))
  }

  /** `enable_registration`. */
  function EnableRegistration(): (u: Update)
    ensures forall c :: Apply(u, c) == c.(registration := true)
  {
    Set(NoFields.(registration := Some(true)))
  }

  /** `start_tournament_config(total)`: round 1 of `total`, registration closed. */
  function StartTournamentConfig(total: uint32): (u: Update)
    ensures forall c ::
      Apply(u, c) == c.(round := 1, tournamentStarted := true, registration := false, total := total as int)
    ensures forall c :: PhaseOf(Apply(u, c)) == InProgress(1)
  {
    Set(NoFields.(round := Some(1), tournamentStarted := Some(true),
                  registration := Some(false), total := Some(total as int)))
  }

  /** `update_round(round)`: `$set` the given round, or `$inc` it by one. */
  function UpdateRound(round: Option<int32>): (u: Update)
    ensures forall c :: round.Some? ==> Apply(u, c) == c.(round := round.value as int)
    ensures forall c :: round.None? ==> Apply(u, c) == c.(round := c.round + 1)
  {
    match round
    case Some(r) => Set(NoFields.(round := Some(r as int)))
    case None => IncRound(1)
  }

  /** `reset_config`: overwrites all six fields with the initial values. */
  function ResetConfig(): (u: Update)
    ensures forall c :: Apply(u, c) == MakeConfig()
  {
    Set(SetFields(Some(true), Some(false), Some(0), Some(None), Some(None), Some(0)))
  }

  /** Resetting twice is the same as resetting once; reset restores the invariant from any record. */
  lemma ResetIdempotent(c: Config)
    ensures Apply(ResetConfig(), Apply(ResetConfig(), c)) == Apply(ResetConfig(), c)
    ensures Consistent(Apply(ResetConfig(), c))
    ensures PhaseOf(Apply(ResetConfig(), c)) == RegistrationOpen
  {
  }

  /** Closing registration twice is the same as closing it once. */
  lemma DisableIdempotent(c: Config)
    ensures Apply(DisableRegistration(), Apply(DisableRegistration(), c)) == Apply(DisableRegistration(), c)
  {
  }

  /** Opening registration twice is the same as opening it once. */
  lemma EnableIdempotent(c: Config)
    ensures Apply(EnableRegistration(), Apply(EnableRegistration(), c)) == Apply(EnableRegistration(), c)
  {
  }

  /** Starting a freshly made config: round 1 of `total`, mode and map still unset. */
  lemma StartFromFresh(total: uint32)
    ensures Apply(StartTournamentConfig(total), MakeConfig())
         == Config(false, true, 1, None, None, total as int)
  {
  }

  /**
   * The invariant survives reset, `set_config`, starting with at least one
   * round, and opening registration before the start.
   */
  lemma ConsistencyKeptBySetup(c: Config, modeName: string, mapName: Option<string>, total: uint32)
    requires Consistent(c)
    ensures Consistent(Apply(ResetConfig(), c))
    ensures Consistent(Apply(SetConfig(modeName, mapName), c))
    ensures !c.tournamentStarted ==> Consistent(Apply(EnableRegistration(), c))
    ensures 1 <= total ==> Consistent(Apply(StartTournamentConfig(total), c))
  {
  }

  /**
   * The invariant survives closing registration and a round update that stays
   * within 1..total.
   */
  lemma ConsistencyKeptByPlay(c: Config, r: int32)
    requires Consistent(c)
    ensures Consistent(Apply(DisableRegistration(), c))
    ensures c.tournamentStarted && 1 <= r as int <= c.total ==> Consistent(Apply(UpdateRound(Some(r)), c))
    ensures c.tournamentStarted && c.round < c.total ==> Consistent(Apply(UpdateRound(None), c))
  {
  }

  /** Opening registration in the middle of a tournament breaks the invariant. */
  lemma EnableDuringPlay(total: uint32)
    requires 1 <= total
    ensures !Consistent(Apply(EnableRegistration(), Apply(StartTournamentConfig(total), MakeConfig())))
  {
  }

  /**
   * `update_round` has no guard: advancing a tournament that never started
   * moves the round to 1 while the record still says it has not started.
   */
  lemma AdvanceBeforeStart()
    ensures Apply(UpdateRound(None), MakeConfig()).round == 1
    ensures !Consistent(Apply(UpdateRound(None), MakeConfig()))
  {
  }
}
