/**
 * The game engine of mafia/game.py: role assignment, the ordered legality
 * check of a command, the event each applied command produces, the end of a
 * phase (elimination by majority vote and the phase switch) and the win check.
 *
 * The rules are stated as functions over a snapshot of the game (GameState);
 * the class MafiaGame keeps that state in fields updated in place, and each of
 * its methods is proved to move its snapshot exactly as the rules say.
 */
module Engine {
  import opened Wrappers
  import opened Common
  import opened Votes

  // ---------------------------------------------------------------------------
  // Commands and events (CommandMessage and InfoMessage of the RPC schema)
  // ---------------------------------------------------------------------------

  /** CommandType; any other code the schema lets through is Unrecognised. */
  datatype CommandType = Finish | Investigate | Publish | Execute | Murder | Unrecognised(code: int)

  /** A command from player `name`; an empty `suspect` is the schema's default, "nobody". */
  datatype Command = Command(kind: CommandType, name: string, suspect: string)

  /** The events the engine emits. */
  datatype Info =
    | PlayerFinish(name: string)
    | InvestigateResult(name: string, role: Role)
    | PublishResult(name: string, role: Role)
    | ExecuteVote(name: string, candidate: Ballot)
    | MurderVote(name: string, candidate: Ballot)
    | Executed(name: string, role: Role)
    | Murdered(name: string, role: Role)
    | PhaseFinish
    | End(winner: Winner)

  /**
   * The answer of the legality check: the source's `(True, None)` and
   * `(False, reason)`, the bare `None` it falls through to for an unknown
   * command type, and the KeyError a role lookup of an unknown name raises.
   */
  datatype Verdict = Allowed | Rejected(reason: Reason) | NoVerdict | UnknownPlayer

  /** Why is_allowed refuses a command; ReasonText gives the text the source returns. */
  datatype Reason =
    | WrongPhase
    | YouAreDead
    | PhaseFinishedForYou
    | InvestigateNotCommissar
    | InvestigateByDay
    | InvestigateNoSuchPlayer
    | InvestigatedTonight
    | PublishNotCommissar
    | PublishByNight
    | PublishUninvestigated
    | PublishNotMafia
    | AlreadyDead
    | ExecuteByNight
    | ExecuteFirstDay
    | MurderNotMafia
    | MurderByDay
    | VoteNoSuchPlayer

  /** The refusal text is_allowed returns for each reason. */
  function ReasonText(r: Reason): string {
    match r
    case WrongPhase => "Wrong phase"
    case YouAreDead => "You are dead!"
    case PhaseFinishedForYou => "This phase is already finished for you"
    case InvestigateNotCommissar => "You are not allowed to investigate since you are not commissar"
    case InvestigateByDay => "You cannot investigate since it is day"
    case InvestigateNoSuchPlayer => "You cannot investigate player that does not exist!"
    case InvestigatedTonight => "You cannot investigate since you already investigated this night"
    case PublishNotCommissar => "You are not allowed to publish information since you are not commissar"
    case PublishByNight => "You cannot publish information since it is night"
    case PublishUninvestigated => "You cannot publish information since you do not know his role"
    case PublishNotMafia => "You cannot publish information since this player is not mafia"
    case AlreadyDead => "This person is already dead!"
    case ExecuteByNight => "You cannot vote to execute person in the night"
    case ExecuteFirstDay => "You cannot vote to execute person on the first day"
    case MurderNotMafia => "You cannot vote for murder since you are not in mafia"
    case MurderByDay => "You cannot vote for murder in the day"
    case VoteNoSuchPlayer => "You cannot vote for player that does not exist!"
  }


  /** A snapshot of the fields of a game. */
  datatype GameState = GameState(
    players: seq<string>,             // the living players, in seating order
    playerRole: map<string, Role>,    // every player's role, dead or alive
    finished: set<string>,            // who has finished the current phase
    phase: Phase,
    canExecute: bool,                 // false until the first night is over
    votes: map<string, Ballot>,       // the ballots of the current vote
    dead: set<string>,
    investigated: set<string>,
    doneInvestigation: bool)          // the commissar already investigated tonight

  // ---------------------------------------------------------------------------
  // Sequences of names
  // ---------------------------------------------------------------------------

  predicate Distinct(xs: seq<string>) {
    forall i, j :: 0 <= i < j < |xs| ==> xs[i] != xs[j]
  }

  /** `list.remove`: drops the first occurrence of x; the source raises ValueError when there is none. */
  function Remove(xs: seq<string>, x: string): (r: seq<string>)
    requires x in xs
    ensures |r| == |xs| - 1
    ensures multiset(r) == multiset(xs) - multiset{x}
    ensures forall y :: y in r ==> y in xs
  {
    assert xs == [xs[0]] + xs[1..];
    if xs[0] == x then xs[1..]
    else [xs[0]] + Remove(xs[1..], x)
  }

  /** Removing a name from a list without repeats leaves the other names, still without repeats. */
  lemma {:induction false} RemoveDistinct(xs: seq<string>, x: string)
    requires x in xs && Distinct(xs)
    ensures Distinct(Remove(xs, x))
    ensures forall y :: y in Remove(xs, x) <==> y in xs && y != x
  {
    if xs[0] != x {
      RemoveDistinct(xs[1..], x);
      var r := Remove(xs, x);
      assert r == [xs[0]] + Remove(xs[1..], x);
      assert forall y :: y in r <==> y == xs[0] || y in Remove(xs[1..], x);
      assert xs[0] !in xs[1..];
    } else {
      assert forall y :: y in xs[1..] <==> y in xs && y != x;
    }
  }

  /** A list without repeats has as many names as the set of its names. */
  lemma {:induction false} DistinctCard(xs: seq<string>)
    requires Distinct(xs)
    ensures |set p | p in xs| == |xs|
  {
    if xs != [] {
      DistinctCard(xs[1..]);
      assert (set p | p in xs) == (set p | p in xs[1..]) + {xs[0]};
      assert xs[0] !in xs[1..];
    }
  }

  // ---------------------------------------------------------------------------
  // Roles
  // ---------------------------------------------------------------------------

  function Repeat(r: Role, k: nat): (deck: seq<Role>)
    ensures |deck| == k
    ensures forall q :: multiset(deck)[q] == if q == r then k else 0
  {
    if k == 0 then [] else [r] + Repeat(r, k - 1)
  }

  /**
   * The unshuffled roles for n players: one commissar, n // 3 mafia and the
   * rest civilians. For n == 0 the civilian count is negative and Python's
   * list repetition yields no civilians, so the deck still holds the commissar.
   */
  function RoleDeck(n: nat): (deck: seq<Role>)
  {
    [Commissar] + Repeat(Mafia, n / 3) + Repeat(Civilian, if n >= 1 then n - 1 - n / 3 else 0)
  }

  /** For at least one player the deck has one role per player, in the stated numbers. */
  lemma RoleDeckCounts(n: nat)
    requires n >= 1
    ensures |RoleDeck(n)| == n
    ensures multiset(RoleDeck(n))[Commissar] == 1
    ensures multiset(RoleDeck(n))[Mafia] == n / 3
    ensures multiset(RoleDeck(n))[Civilian] == n - 1 - n / 3
  {
    var m, c := Repeat(Mafia, n / 3), Repeat(Civilian, n - 1 - n / 3);
    assert RoleDeck(n) == [Commissar] + m + c;
    assert multiset(RoleDeck(n)) == multiset{Commissar} + multiset(m) + multiset(c);
  }

  /**
   * get_roles: the deck shuffled in place by random.shuffle. The random
   * numbers are a parameter: the swap at position i uses draws[i] % (i + 1).
   */
  method GetRoles(n: nat, draws: seq<nat>) returns (roles: seq<Role>)
    requires |draws| >= |RoleDeck(n)|
    ensures |roles| == |RoleDeck(n)|
    ensures multiset(roles) == multiset(RoleDeck(n))
  {
    var deck := RoleDeck(n);
    var a := new Role[|deck|](i requires 0 <= i < |deck| => deck[i]);
    assert a[..] == deck;
    var i := a.Length - 1;
    while i >= 1
      invariant 0 <= i + 1 <= a.Length
      invariant multiset(a[..]) == multiset(deck)
    {
      var j := draws[i] % (i + 1);
      ghost var before := a[..];
      a[i], a[j] := a[j], a[i];
      assert a[..] == Swapped(before, i, j);
      SwapKeepsRoles(before, i, j);
      i := i - 1;
    }
    roles := a[..];
  }

  /** The sequence with the elements at i and j exchanged. */
  function Swapped<T>(s: seq<T>, i: nat, j: nat): (r: seq<T>)
    requires i < |s| && j < |s|
    ensures |r| == |s| && r[i] == s[j] && r[j] == s[i]
  {
    s[i := s[j]][j := s[i]]
  }

  /** A swap only reorders: the multiset of elements is unchanged. */
  lemma SwapKeepsRoles<T>(s: seq<T>, i: nat, j: nat)
    requires i < |s| && j < |s|
    ensures multiset(Swapped(s, i, j)) == multiset(s)
  {
    var t := s[i := s[j]];
    assert multiset(t) == multiset(s) - multiset{s[i]} + multiset{s[j]};
    assert multiset(t[j := s[i]]) == multiset(t) - multiset{t[j]} + multiset{s[i]};
  }

  /** The role map built from the players and the shuffled roles, position by position. */
  function RoleMap(players: seq<string>, roles: seq<Role>): (m: map<string, Role>)
    requires Distinct(players) && |roles| >= |players|
    ensures m.Keys == set p | p in players
    ensures forall i :: 0 <= i < |players| ==> m[players[i]] == roles[i]
  {
    map i | 0 <= i < |players| :: players[i] := roles[i]
  }

  /** Every living player has a role (the source's lookups raise KeyError otherwise). */
  predicate RolesKnown(s: GameState) {
    forall p :: p in s.players ==> p in s.playerRole
  }

  /** get_players_by_role: the players with the given role, in seating order. */
  function PlayersWithRole(players: seq<string>, playerRole: map<string, Role>, role: Role): (r: seq<string>)
    requires forall p :: p in players ==> p in playerRole
    ensures |r| <= |players|
    ensures forall p :: p in r <==> p in players && playerRole[p] == role
  {
    if players == [] then []
    else
      var rest := PlayersWithRole(players[1..], playerRole, role);
      if playerRole[players[0]] == role then [players[0]] + rest else rest
  }

  /** The three role groups split the players: their sizes add up to the number of players. */
  lemma {:induction false} RoleGroupsPartition(players: seq<string>, playerRole: map<string, Role>)
    requires forall p :: p in players ==> p in playerRole
    ensures |PlayersWithRole(players, playerRole, Civilian)|
          + |PlayersWithRole(players, playerRole, Mafia)|
          + |PlayersWithRole(players, playerRole, Commissar)| == |players|
  {
    if players != [] {
      RoleGroupsPartition(players[1..], playerRole);
    }
  }

  /** Where the roles of the players are the shuffled deck position by position, each group has the deck's count of that role. */
  lemma {:induction false} GroupSizeFromDeck(players: seq<string>, roles: seq<Role>, playerRole: map<string, Role>, role: Role)
    requires Distinct(players) && |roles| == |players|
    requires forall i :: 0 <= i < |players| ==> players[i] in playerRole && playerRole[players[i]] == roles[i]
    ensures |PlayersWithRole(players, playerRole, role)| == multiset(roles)[role]
  {
    if players != [] {
      assert players[1..] == players[1..];
      forall i | 0 <= i < |players[1..]| ensures players[1..][i] in playerRole && playerRole[players[1..][i]] == roles[1..][i] {
        assert players[1..][i] == players[i + 1];
      }
      GroupSizeFromDeck(players[1..], roles[1..], playerRole, role);
      assert roles == [roles[0]] + roles[1..];
      assert multiset(roles) == multiset{roles[0]} + multiset(roles[1..]);
    }
  }

  /** get_role: the role of a name, None where the source raises KeyError. */
  function GetRole(s: GameState, name: string): (r: Option<Role>)
    ensures r.Some? <==> name in s.playerRole
    ensures r.Some? ==> s.playerRole[name] == r.value
  {
    if name in s.playerRole then Some(s.playerRole[name]) else None
  }

  // ---------------------------------------------------------------------------
  // The state invariant
  // ---------------------------------------------------------------------------

  /**
   * The living players are distinct; living and dead split the roster, which
   * is the key set of the role map; investigated names belong to the roster;
   * every ballot names a living player.
   */
  ghost predicate Inv(s: GameState) {
    Distinct(s.players)
    && (forall p :: p in s.players ==> p !in s.dead)
    && (forall p :: p in s.playerRole <==> p in s.players || p in s.dead)
    && s.investigated <= s.playerRole.Keys
    && (forall v :: v in s.votes && s.votes[v].Some? ==> s.votes[v].value in s.players)
  }

  /** The state of `MafiaGame(players)` once the shuffled roles are dealt. */
  function NewGame(players: seq<string>, roles: seq<Role>): (s: GameState)
    requires Distinct(players) && |roles| >= |players|
  {
    GameState(players, RoleMap(players, roles), {}, Day, false, NoVotes(players), {}, {}, false)
  }

  /**
   * Dealing a shuffled deck gives a game that satisfies the invariant; for at
   * least one player it has one commissar, n // 3 mafia and the rest civilians.
   */
  lemma NewGameDealsDeck(players: seq<string>, roles: seq<Role>)
    requires Distinct(players)
    requires |roles| == |RoleDeck(|players|)| && multiset(roles) == multiset(RoleDeck(|players|))
    ensures |roles| >= |players|
    ensures var s := NewGame(players, roles);
            Inv(s)
            && (|players| >= 1 ==>
                  |PlayersWithRole(players, s.playerRole, Commissar)| == 1
                  && |PlayersWithRole(players, s.playerRole, Mafia)| == |players| / 3
                  && |PlayersWithRole(players, s.playerRole, Civilian)| == |players| - 1 - |players| / 3)
  {
    if |players| >= 1 {
      RoleDeckCounts(|players|);
      var m := RoleMap(players, roles);
      GroupSizeFromDeck(players, roles, m, Commissar);
      GroupSizeFromDeck(players, roles, m, Mafia);
      GroupSizeFromDeck(players, roles, m, Civilian);
    }
  }

  /** is_role: whether the name has the role, None where the source raises KeyError. */
  function IsRole(s: GameState, name: string, role: Role): (r: Option<bool>)
    ensures r.Some? <==> name in s.playerRole
    ensures r == Some(true) <==> HasRole(s, name, role)
  {
    match GetRole(s, name)
    case None => None
    case Some(r) => Some(r == role)
  }

  // ---------------------------------------------------------------------------
  // is_allowed
  // ---------------------------------------------------------------------------

  predicate HasRole(s: GameState, name: string, role: Role) {
    name in s.playerRole && s.playerRole[name] == role
  }

  function InvestigateVerdict(s: GameState, name: string, suspect: string): (v: Verdict)
    ensures v == Allowed <==> HasRole(s, name, Commissar) && s.phase == Night && suspect in s.players && !s.doneInvestigation
  {
    if name !in s.playerRole then UnknownPlayer
    else if s.playerRole[name] != Commissar then Rejected(InvestigateNotCommissar)
    else if s.phase != Night then Rejected(InvestigateByDay)
    else if suspect !in s.players then Rejected(InvestigateNoSuchPlayer)
    else if s.doneInvestigation then Rejected(InvestigatedTonight)
    else Allowed
  }

  function PublishVerdict(s: GameState, name: string, suspect: string): (v: Verdict)
    ensures v == Allowed <==> HasRole(s, name, Commissar) && s.phase == Day && suspect in s.investigated && HasRole(s, suspect, Mafia)
  {
    if name !in s.playerRole then UnknownPlayer
    else if s.playerRole[name] != Commissar then Rejected(PublishNotCommissar)
    else if s.phase != Day then Rejected(PublishByNight)
    else if suspect !in s.investigated then Rejected(PublishUninvestigated)
    else if suspect !in s.playerRole then UnknownPlayer
    else if s.playerRole[suspect] != Mafia then Rejected(PublishNotMafia)
    else Allowed
  }

  function ExecuteVerdict(s: GameState, suspect: string): (v: Verdict)
    ensures v == Allowed <==> s.phase == Day && s.canExecute && suspect !in s.dead
  {
    if suspect in s.dead then Rejected(AlreadyDead)
    else if s.phase != Day then Rejected(ExecuteByNight)
    else if !s.canExecute then Rejected(ExecuteFirstDay)
    else Allowed
  }

  function MurderVerdict(s: GameState, name: string, suspect: string): (v: Verdict)
    ensures v == Allowed <==> HasRole(s, name, Mafia) && s.phase == Night && suspect !in s.dead
  {
    if name !in s.playerRole then UnknownPlayer
    else if s.playerRole[name] != Mafia then Rejected(MurderNotMafia)
    else if s.phase != Night then Rejected(MurderByDay)
    else if suspect in s.dead then Rejected(AlreadyDead)
    else Allowed
  }

  /**
   * is_allowed exactly as the source has it: the phase, then death, then
   * "already finished", then the rules of the command type. EXECUTE and
   * MURDER never check that the suspect is a player.
   */
  function IsAllowedAsWritten(s: GameState, name: string, cmd: Command, phase: Phase): (v: Verdict)
    ensures phase != s.phase ==> v == Rejected(WrongPhase)
    ensures phase == s.phase && name in s.dead ==> v == Rejected(YouAreDead)
    ensures phase == s.phase && name !in s.dead && name in s.finished ==> v == Rejected(PhaseFinishedForYou)
  {
    if phase != s.phase then Rejected(WrongPhase)
    else if name in s.dead then Rejected(YouAreDead)
    else if name in s.finished then Rejected(PhaseFinishedForYou)
    else match cmd.kind
      case Finish => Allowed
      case Investigate => InvestigateVerdict(s, name, cmd.suspect)
      case Publish => PublishVerdict(s, name, cmd.suspect)
      case Execute => ExecuteVerdict(s, cmd.suspect)
      case Murder => MurderVerdict(s, name, cmd.suspect)
      case Unrecognised(_) => NoVerdict
  }

  /** A vote may name nobody or a living player. */
  predicate Targetable(s: GameState, suspect: string) {
    suspect == "" || suspect in s.players
  }

  /** The legality rules as one order-free condition per command type. */
  predicate Permits(s: GameState, name: string, cmd: Command, phase: Phase) {
    phase == s.phase && name !in s.dead && name !in s.finished &&
    match cmd.kind
    case Finish => true
    case Investigate =>
      HasRole(s, name, Commissar) && s.phase == Night && cmd.suspect in s.players && !s.doneInvestigation
    case Publish =>
      HasRole(s, name, Commissar) && s.phase == Day && cmd.suspect in s.investigated && HasRole(s, cmd.suspect, Mafia)
    case Execute =>
      s.phase == Day && s.canExecute && cmd.suspect !in s.dead && Targetable(s, cmd.suspect)
    case Murder =>
      HasRole(s, name, Mafia) && s.phase == Night && cmd.suspect !in s.dead && Targetable(s, cmd.suspect)
    case Unrecognised(_) => false
  }

  /**
   * The corrected legality check used by the rest of the model: as written,
   * plus a last check that an EXECUTE or MURDER ballot names nobody or a
   * living player.
   */
  function IsAllowed(s: GameState, name: string, cmd: Command, phase: Phase): (v: Verdict)
    ensures v == Allowed <==> Permits(s, name, cmd, phase)
    ensures phase != s.phase ==> v == Rejected(WrongPhase)
    ensures phase == s.phase && name in s.dead ==> v == Rejected(YouAreDead)
    ensures phase == s.phase && name !in s.dead && name in s.finished ==> v == Rejected(PhaseFinishedForYou)
    ensures v != IsAllowedAsWritten(s, name, cmd, phase) ==>
              (cmd.kind.Execute? || cmd.kind.Murder?) && IsAllowedAsWritten(s, name, cmd, phase) == Allowed
              && !Targetable(s, cmd.suspect)
  {
    var v := IsAllowedAsWritten(s, name, cmd, phase);
    if v == Allowed && (cmd.kind.Execute? || cmd.kind.Murder?) && !Targetable(s, cmd.suspect) then
      Rejected(VoteNoSuchPlayer)
    else v
  }

  /**
   * The source's check lets a ballot for a name that is not a player through:
   * on a later day, with nobody dead, anyone may vote to execute "zed".
   */
  lemma AsWrittenAdmitsNonPlayer()
    ensures var s := GameState(["ann", "bob", "cat"], map["ann" := Commissar, "bob" := Mafia, "cat" := Civilian],
                               {}, Day, true, NoVotes(["ann", "bob", "cat"]), {}, {}, false);
            var cmd := Command(Execute, "ann", "zed");
            IsAllowedAsWritten(s, "ann", cmd, Day) == Allowed && IsAllowed(s, "ann", cmd, Day) != Allowed
  {
  }

  /**
   * If every voter backs that name, it wins the vote although it is not a
   * player, and finish_phase's `players.remove` of it raises ValueError after
   * `dead` already holds it.
   */
  lemma NonPlayerCanWin()
    ensures var votes := map["ann" := Some("zed"), "bob" := Some("zed"), "cat" := Some("zed")];
            MajorityOf(votes) == Some("zed") && "zed" !in ["ann", "bob", "cat"]
  {
    var votes := map["ann" := Some("zed"), "bob" := Some("zed"), "cat" := Some("zed")];
    assert (set v | v in votes.Keys && v in votes && votes[v] == Some("zed")) == {"ann", "bob", "cat"};
    MajorityReached(votes, Some("zed"));
  }

  // ---------------------------------------------------------------------------
  // process_command
  // ---------------------------------------------------------------------------

  /** What process_command needs: a known command type, and a suspect with a role where it looks one up. */
  predicate Applicable(s: GameState, cmd: Command) {
    !cmd.kind.Unrecognised? && ((cmd.kind.Investigate? || cmd.kind.Publish?) ==> cmd.suspect in s.playerRole)
  }

  /** The ballot an EXECUTE or MURDER casts: an empty suspect votes for nobody. */
  function BallotOf(suspect: string): (b: Ballot)
    ensures b.None? <==> suspect == ""
    ensures b.Some? ==> b.value == suspect
  {
    if suspect == "" then None else Some(suspect)
  }

  /**
   * process_command: the new state and the one event of an applied command.
   * MURDER ballots go into the same vote as EXECUTE ballots.
   */
  function Step(s: GameState, cmd: Command): (r: (GameState, Info))
    requires Applicable(s, cmd)
    ensures r.0.players == s.players && r.0.dead == s.dead && r.0.playerRole == s.playerRole
    ensures r.0.phase == s.phase && r.0.canExecute == s.canExecute
  {
    match cmd.kind
    case Finish =>
      (s.(finished := s.finished + {cmd.name}), PlayerFinish(cmd.name))
    case Investigate =>
      (s.(investigated := s.investigated + {cmd.suspect}, doneInvestigation := true),
       InvestigateResult(cmd.suspect, s.playerRole[cmd.suspect]))
    case Publish =>
      (s, PublishResult(cmd.suspect, s.playerRole[cmd.suspect]))
    case Execute =>
      (s.(votes := s.votes[cmd.name := BallotOf(cmd.suspect)]), ExecuteVote(cmd.name, BallotOf(cmd.suspect)))
    case Murder =>
      (s.(votes := s.votes[cmd.name := BallotOf(cmd.suspect)]), MurderVote(cmd.name, BallotOf(cmd.suspect)))
  }

  /** An allowed command can be applied. */
  lemma AllowedIsApplicable(s: GameState, cmd: Command, phase: Phase)
    requires Inv(s) && IsAllowed(s, cmd.name, cmd, phase) == Allowed
    ensures Applicable(s, cmd)
  {
  }

  /** Applying an allowed command keeps the invariant. */
  lemma StepKeepsInv(s: GameState, cmd: Command, phase: Phase)
    requires Inv(s) && IsAllowed(s, cmd.name, cmd, phase) == Allowed
    ensures Applicable(s, cmd) && Inv(Step(s, cmd).0)
  {
    var t := Step(s, cmd).0;
    if cmd.kind.Execute? || cmd.kind.Murder? {
      assert t.votes == s.votes[cmd.name := BallotOf(cmd.suspect)];
      forall v | v in t.votes && t.votes[v].Some? ensures t.votes[v].value in t.players {
        if v != cmd.name {
          assert t.votes[v] == s.votes[v];
        }
      }
    }
  }

  /** Whoever finished the phase is refused every further command of that phase. */
  lemma FinishedPlayerRefused(s: GameState, who: string, cmd: Command)
    requires who !in s.dead
    ensures var t := Step(s, Command(Finish, who, "")).0;
            IsAllowed(t, who, cmd, s.phase) == Rejected(PhaseFinishedForYou)
  {
  }

  /** After an investigation, a second one that night is refused. */
  lemma OneInvestigationPerNight(s: GameState, cmd: Command, again: Command)
    requires cmd.kind.Investigate? && Applicable(s, cmd) && again.kind.Investigate?
    ensures IsAllowed(Step(s, cmd).0, again.name, again, s.phase) != Allowed
  {
  }

  /** EXECUTE is refused at night and before the first night is over. */
  lemma ExecuteNeedsLaterDay(s: GameState, name: string, cmd: Command, phase: Phase)
    requires cmd.kind.Execute? && (s.phase == Night || !s.canExecute)
    ensures IsAllowed(s, name, cmd, phase) != Allowed
  {
  }

  // ---------------------------------------------------------------------------
  // is_phase_finished, is_game_finished, finish_phase
  // ---------------------------------------------------------------------------

  /** is_phase_finished: compares sizes only. */
  predicate IsPhaseFinished(s: GameState) {
    |s.finished| == |s.players|
  }

  /** When only living players have finished, the size test means every living player has finished. */
  lemma PhaseFinishedMeansAllFinished(s: GameState)
    requires Distinct(s.players)
    requires forall p :: p in s.finished ==> p in s.players
    ensures IsPhaseFinished(s) <==> s.finished == set p | p in s.players
  {
    var all := set p | p in s.players;
    DistinctCard(s.players);
    if s.finished != all {
      var x :| x in all && x !in s.finished;
      SubsetCard(s.finished, all - {x});
    }
  }

  /** is_game_finished: civilians win when no mafia is alive, mafia when it is at least as many as the others. */
  function IsGameFinished(s: GameState): Winner
    requires RolesKnown(s)
  {
    var mafia := |PlayersWithRole(s.players, s.playerRole, Mafia)|;
    if mafia == 0 then CiviliansWin
    else if |PlayersWithRole(s.players, s.playerRole, Civilian)| + |PlayersWithRole(s.players, s.playerRole, Commissar)| <= mafia then MafiaWin
    else NoWinner
  }

  /** The win check in terms of the living mafia alone: they win once they are at least half of the living. */
  lemma WinnerByMafiaShare(s: GameState)
    requires RolesKnown(s)
    ensures var mafia := |PlayersWithRole(s.players, s.playerRole, Mafia)|;
            (IsGameFinished(s) == CiviliansWin <==> mafia == 0)
            && (IsGameFinished(s) == MafiaWin <==> 0 < mafia && |s.players| <= 2 * mafia)
  {
    RoleGroupsPartition(s.players, s.playerRole);
  }

  /** What finish_phase needs: every living player has a role, and a winning ballot names a living player. */
  ghost predicate Finishable(s: GameState) {
    RolesKnown(s) && (MajorityOf(s.votes).Some? ==> MajorityOf(s.votes).value in s.players)
  }

  /** kill: the player joins the dead and leaves the living. */
  function Killed(s: GameState, p: string): (t: GameState)
    requires p in s.players
  {
    s.(dead := s.dead + {p}, players := Remove(s.players, p))
  }

  /** The state after the vote of the phase: its winner, if any, killed. */
  ghost function AfterVote(s: GameState): (t: GameState)
    requires Finishable(s)
    ensures RolesKnown(t) && t.playerRole == s.playerRole
  {
    var w := MajorityOf(s.votes);
    if w.Some? then Killed(s, w.value) else s
  }

  /** The event announcing the vote's victim, if there is one. */
  ghost function VictimEvents(s: GameState): seq<Info>
    requires Finishable(s)
  {
    var w := MajorityOf(s.votes);
    if w.None? then []
    else if s.phase == Day then [Executed(w.value, s.playerRole[w.value])]
    else [Murdered(w.value, s.playerRole[w.value])]
  }

  /**
   * The switch to the other phase. Into the night: the civilians count as
   * finished and the mafia votes. Into the day: nobody has finished, the
   * commissar may investigate again, executions are allowed, everybody votes.
   */
  function NextPhase(t: GameState): (u: GameState)
    requires RolesKnown(t)
    ensures u.players == t.players && u.dead == t.dead && u.playerRole == t.playerRole
    ensures u.investigated == t.investigated
    ensures u.phase == Toggle(t.phase)
    ensures forall p :: p in u.votes ==> u.votes[p] == None
    ensures t.phase == Day ==>
              (forall p :: p in u.finished <==> p in t.players && t.playerRole[p] == Civilian)
              && (forall p :: p in u.votes <==> p in t.players && t.playerRole[p] == Mafia)
              && u.canExecute == t.canExecute && u.doneInvestigation == t.doneInvestigation
    ensures t.phase == Night ==>
              u.finished == {} && u.canExecute && !u.doneInvestigation
              && (forall p :: p in u.votes <==> p in t.players)
  {
    if t.phase == Day then
      t.(phase := Night,
         finished := (set p | p in PlayersWithRole(t.players, t.playerRole, Civilian)),
         votes := NoVotes(PlayersWithRole(t.players, t.playerRole, Mafia)))
    else
      t.(finished := {}, phase := Day, doneInvestigation := false, canExecute := true,
         votes := NoVotes(t.players))
  }

  /** The last event of a phase: END with the winner, or PHASE_FINISH while nobody has won. */
  function Outcome(u: GameState): (e: Info)
    requires RolesKnown(u)
    ensures e.End? <==> IsGameFinished(u) != NoWinner
    ensures e.End? ==> e.winner == IsGameFinished(u)
    ensures !e.End? ==> e == PhaseFinish
  {
    var winner := IsGameFinished(u);
    if winner == NoWinner then PhaseFinish else End(winner)
  }

  /** finish_phase: the state after the phase and the events it yields, in order. */
  ghost function EndPhase(s: GameState): (r: (GameState, seq<Info>))
    requires Finishable(s)
  {
    var t := AfterVote(s);
    var u := NextPhase(t);
    (u, VictimEvents(s) + [Outcome(u)])
  }

  lemma KilledKeepsRoster(s: GameState, p: string)
    requires Inv(s) && p in s.players
    ensures var t := Killed(s, p);
            Distinct(t.players)
            && (forall q :: q in t.players ==> q !in t.dead)
            && (forall q :: q in t.playerRole <==> q in t.players || q in t.dead)
  {
    RemoveDistinct(s.players, p);
  }

  /**
   * The end of a phase keeps the invariant: the roster stays split between the
   * living and the dead, and the fresh vote has no ballots.
   */
  lemma FinishKeepsInv(s: GameState)
    requires Inv(s)
    ensures Finishable(s) && Inv(EndPhase(s).0)
  {
    var w := MajorityOf(s.votes);
    if w.Some? {
      assert s.votes.Keys != {} by {
        assert Count(s.votes, w) >= 1;
      }
      var v :| v in s.votes && s.votes[v] == w;
      KilledKeepsRoster(s, w.value);
    }
  }

  /**
   * The end of a phase in the terms of the game: the phase flips, exactly the
   * majority's choice dies and is announced with its role, and the last event
   * is END exactly when the win check names a winner. Into the night the
   * living civilians count as finished and the living mafia vote; into the
   * day nobody has finished, executions are allowed, the commissar may
   * investigate again and every living player votes.
   */
  lemma FinishEffect(s: GameState)
    requires Finishable(s)
    ensures var (u, events) := EndPhase(s);
            var w := MajorityOf(s.votes);
            u.phase == Toggle(s.phase)
            && u.playerRole == s.playerRole
            && (w.None? ==> u.players == s.players && u.dead == s.dead && |events| == 1)
            && (w.Some? ==> u.dead == s.dead + {w.value} && multiset(u.players) == multiset(s.players) - multiset{w.value}
                            && |events| == 2 && events[0].role == s.playerRole[w.value] && events[0].name == w.value
                            && (events[0].Executed? <==> s.phase == Day))
            && (events[|events| - 1].End? <==> IsGameFinished(u) != NoWinner)
            && (forall p :: p in u.votes ==> u.votes[p] == None)
            && (s.phase == Day ==>
                  (forall p :: p in u.finished <==> p in u.players && u.playerRole[p] == Civilian)
                  && (forall p :: p in u.votes <==> p in u.players && u.playerRole[p] == Mafia))
            && (s.phase == Night ==>
                  u.finished == {} && u.canExecute && !u.doneInvestigation
                  && (forall p :: p in u.votes <==> p in u.players))
  {
  }

  /**
   * After a night every living player may vote to execute any living player:
   * the new day has nobody finished and executions allowed.
   */
  lemma NightEndOpensExecution(s: GameState, voter: string, suspect: string)
    requires Inv(s) && s.phase == Night
    ensures Finishable(s)
    ensures var u := EndPhase(s).0;
            voter in u.players && suspect in u.players ==>
              IsAllowed(u, voter, Command(Execute, voter, suspect), Day) == Allowed
  {
    FinishKeepsInv(s);
  }

  /**
   * A day that ends with the commissar alive and no investigation done opens
   * a night in which the commissar may investigate any living player.
   */
  lemma DayEndAllowsInvestigation(s: GameState, commissar: string, suspect: string)
    requires Inv(s) && s.phase == Day && !s.doneInvestigation
    ensures Finishable(s)
    ensures var u := EndPhase(s).0;
            commissar in u.players && HasRole(u, commissar, Commissar) && suspect in u.players ==>
              IsAllowed(u, commissar, Command(Investigate, commissar, suspect), Night) == Allowed
  {
    FinishKeepsInv(s);
  }

  // ---------------------------------------------------------------------------
  // The game object
  // ---------------------------------------------------------------------------

  class MafiaGame {
    var players: seq<string>
    var playerRole: map<string, Role>
    var finished: set<string>
    var phase: Phase
    var canExecute: bool
    var executeVoting: Voting
    var dead: set<string>
    var investigated: set<string>
    var doneInvestigation: bool

    /** The fields of the game, with the ballots of its current vote. */
    function State(): GameState
      reads this, executeVoting
    {
      GameState(players, playerRole, finished, phase, canExecute, executeVoting.votes, dead, investigated, doneInvestigation)
    }

    /**
     * MafiaGame(players): deals the shuffled roles to the players in order;
     * the roles come from GetRoles with the given random numbers.
     */
    constructor (players: seq<string>, draws: seq<nat>)
      requires Distinct(players) && |draws| >= |RoleDeck(|players|)|
      ensures Inv(State())
      ensures this.players == players && phase == Day && !canExecute
      ensures finished == {} && dead == {} && investigated == {} && !doneInvestigation
      ensures executeVoting.votes == NoVotes(players)
      ensures playerRole.Keys == set p | p in players
      ensures |players| >= 1 ==> |PlayersWithRole(players, playerRole, Commissar)| == 1
      ensures |players| >= 1 ==> |PlayersWithRole(players, playerRole, Mafia)| == |players| / 3
      ensures |players| >= 1 ==> |PlayersWithRole(players, playerRole, Civilian)| == |players| - 1 - |players| / 3
    {
      var roles := GetRoles(|players|, draws);
      NewGameDealsDeck(players, roles);
      this.players := players;
      playerRole := RoleMap(players, roles);
      finished := {};
      investigated := {};
      dead := {};
      doneInvestigation := false;
      phase := Day;
      canExecute := false;
      executeVoting := new Voting(players);
      new;
      assert State() == NewGame(players, roles);
    }

    /** process_command: applies a command and returns its event. */
    method ProcessCommand(cmd: Command) returns (info: Info)
      requires Applicable(State(), cmd)
      modifies this, executeVoting
      ensures executeVoting == old(executeVoting)
      ensures (State(), info) == Step(old(State()), cmd)
    {
      match cmd.kind
      case Finish =>
        finished := finished + {cmd.name};
        info := PlayerFinish(cmd.name);
      case Investigate =>
        var suspect := cmd.suspect;
        investigated := investigated + {suspect};
        doneInvestigation := true;
        info := InvestigateResult(suspect, playerRole[suspect]);
      case Publish =>
        var suspect := cmd.suspect;
        info := PublishResult(suspect, playerRole[suspect]);
      case Execute =>
        var suspect := if cmd.suspect == "" then None else Some(cmd.suspect);
        executeVoting.Vote(cmd.name, suspect);
        info := ExecuteVote(cmd.name, suspect);
      case Murder =>
        var suspect := if cmd.suspect == "" then None else Some(cmd.suspect);
        executeVoting.Vote(cmd.name, suspect);
        info := MurderVote(cmd.name, suspect);
    }

    /** kill: moves a living player to the dead. */
    method Kill(player: string)
      requires player in players
      modifies this`dead, this`players
      ensures dead == old(dead) + {player}
      ensures players == Remove(old(players), player)
    {
      dead := dead + {player};
      players := Remove(players, player);
    }

    /** The first half of finish_phase: the winner of the vote, if any, is killed and announced. */
    method VoteOut() returns (events: seq<Info>)
      requires Finishable(State())
      modifies this`dead, this`players
      ensures State() == AfterVote(old(State()))
      ensures events == VictimEvents(old(State()))
    {
      events := [];
      var winner := executeVoting.GetWinner();
      if winner.Some? {
        var toExecute := executeVoting.GetWinner();
        Kill(toExecute.value);
        var role := playerRole[toExecute.value];
        events := if phase == Day then [Executed(toExecute.value, role)] else [Murdered(toExecute.value, role)];
      }
    }

    /** The second half of finish_phase: the switch to the other phase with a fresh vote. */
    method SwitchPhase()
      requires RolesKnown(State())
      modifies this
      ensures fresh(executeVoting)
      ensures State() == NextPhase(old(State()))
    {
      if phase == Day {
        phase := Night;
        finished := set p | p in PlayersWithRole(players, playerRole, Civilian);
        executeVoting := new Voting(PlayersWithRole(players, playerRole, Mafia));
      } else {
        finished := {};
        phase := Day;
        doneInvestigation := false;
        canExecute := true;
        executeVoting := new Voting(players);
      }
    }

    /**
     * finish_phase: kills the winner of the vote, switches the phase and
     * returns the events the source's generator yields, in order.
     */
    method FinishPhase() returns (events: seq<Info>)
      requires Finishable(State())
      modifies this
      ensures fresh(executeVoting)
      ensures (State(), events) == EndPhase(old(State()))
    {
      events := VoteOut();
      SwitchPhase();
      var result := IsGameFinished(State());
      if result == NoWinner {
        events := events + [PhaseFinish];
      } else {
        events := events + [End(result)];
      }
    }
  }
}
