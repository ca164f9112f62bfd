/**
 * The game session of mafia/servicer.py: it checks each submitted command
 * against the game, applies it, and fans the resulting events out to
 * subscriber queues — one queue of all players for the day, and by night one
 * queue per role group, chosen by the role of whoever acted.
 */
module Session {
  import opened Wrappers
  import opened Common
  import opened Engine
  import opened Queues
  import Router

  /** The answer to a submitted command: no error, the refusal reason, or an exception raised. */
  datatype Reply = Done | Refused(reason: string) | Raised

  /** The reply to a command is_allowed does not allow: its reason, or the exception of a missing verdict or an unknown role. */
  function Refusal(v: Verdict): (r: Reply)
    requires v != Allowed
    ensures r.Refused? <==> v.Rejected?
    ensures r.Refused? ==> r.reason == ReasonText(v.reason)
  {
    if v.Rejected? then Refused(ReasonText(v.reason)) else Raised
  }

  /**
   * An allowed command played out: the state after it and after the end of
   * the phase if it completed the phase, the event of the command, and the
   * events of the phase end (none if the phase goes on).
   */
  ghost function Played(s: GameState, cmd: Command, phase: Phase): (r: (GameState, Info, seq<Info>))
    requires Inv(s) && IsAllowed(s, cmd.name, cmd, phase) == Allowed
    ensures Inv(r.0)
    ensures r.2 == [] <==> r.0.phase == s.phase
    ensures r.2 != [] ==> r.0.phase == Toggle(s.phase)
    ensures r.2 != [] ==> (r.2[|r.2| - 1].End? <==> IsGameFinished(r.0) != NoWinner)
  {
    StepKeepsInv(s, cmd, phase);
    var (s1, info) := Step(s, cmd);
    if IsPhaseFinished(s1) then
      FinishKeepsInv(s1);
      FinishEffect(s1);
      (EndPhase(s1).0, info, EndPhase(s1).1)
    else (s1, info, [])
  }

  /** A command is only ever allowed in the game's current phase. */
  lemma AllowedOnlyInCurrentPhase(s: GameState, cmd: Command, phase: Phase)
    requires IsAllowed(s, cmd.name, cmd, phase) == Allowed
    ensures phase == s.phase && cmd.name !in s.dead && cmd.name !in s.finished
  {
  }

  /**
   * The phase ends on a command exactly when, after it, as many players have
   * finished as are alive; the last event then reports the win check.
   */
  lemma PhaseEndsWhenAllFinished(s: GameState, cmd: Command, phase: Phase)
    requires Inv(s) && IsAllowed(s, cmd.name, cmd, phase) == Allowed
    ensures var r := Played(s, cmd, phase);
            (r.2 != [] <==> IsPhaseFinished(Step(s, cmd).0))
            && (r.2 != [] ==> r.2[|r.2| - 1] == PhaseFinish || r.2[|r.2| - 1] == End(IsGameFinished(r.0)))
  {
    StepKeepsInv(s, cmd, phase);
    var s1 := Step(s, cmd).0;
    if IsPhaseFinished(s1) {
      FinishKeepsInv(s1);
      FinishEffect(s1);
    }
  }

  /** What a night queue of role `group` receives: the command's event if the actor belongs to it, then the phase-end events. */
  function NightFeed(actor: Role, group: Role, info: Info, finishEvents: seq<Info>): (feed: seq<Info>)
    ensures |feed| == |finishEvents| + (if actor == group then 1 else 0)
    ensures feed[|feed| - |finishEvents|..] == finishEvents
    ensures actor == group ==> feed[0] == info
  {
    (if actor == group then [info] else []) + finishEvents
  }

  /**
   * Exactly one night queue receives the command's event ahead of the
   * phase-end events: the one of the actor's role; the others receive the
   * phase-end events alone.
   */
  lemma OneNightQueueGetsTheEvent(actor: Role, info: Info, finishEvents: seq<Info>)
    ensures forall group: Role :: NightFeed(actor, group, info, finishEvents) == [info] + finishEvents <==> group == actor
    ensures forall group: Role :: group != actor ==> NightFeed(actor, group, info, finishEvents) == finishEvents
    ensures |NightFeed(actor, Civilian, info, finishEvents)| + |NightFeed(actor, Mafia, info, finishEvents)|
            + |NightFeed(actor, Commissar, info, finishEvents)| == 3 * |finishEvents| + 1
  {
  }

  /** The first steps of Servicer(names, room_server): a new game, its three role groups, and the room told who the mafia is. */
  method StartSession(names: seq<string>, room: Router.RoomServer, draws: seq<nat>)
      returns (g: MafiaGame, civilians: seq<string>, mafia: seq<string>, commissars: seq<string>)
    requires Distinct(names) && |draws| >= |RoleDeck(|names|)|
    modifies room`mafia
    ensures Inv(g.State())
    ensures g.players == names && g.phase == Day && !g.canExecute
    ensures g.finished == {} && g.dead == {} && g.investigated == {}
    ensures forall p :: p in names ==> p in g.playerRole
    ensures civilians == PlayersWithRole(names, g.playerRole, Civilian)
    ensures mafia == PlayersWithRole(names, g.playerRole, Mafia)
    ensures commissars == PlayersWithRole(names, g.playerRole, Commissar)
    ensures room.mafia == mafia
  {
    g := new MafiaGame(names, draws);
    ghost var s := g.State();
    civilians := PlayersWithRole(names, g.playerRole, Civilian);
    mafia := PlayersWithRole(names, g.playerRole, Mafia);
    commissars := PlayersWithRole(names, g.playerRole, Commissar);
    room.NotifyMafia(mafia);
    assert g.State() == s;
  }

  class Servicer {
    const names: seq<string>
    const game: MafiaGame
    const dayQueue: SubscriberQueue<Info>
    const nightCivilianQueue: SubscriberQueue<Info>
    const nightMafiaQueue: SubscriberQueue<Info>
    const nightCommissarQueue: SubscriberQueue<Info>
    const roomServer: Router.RoomServer

    /** The game keeps its invariant and the four queues are four different objects. */
    ghost predicate Valid()
      reads this, game, game.executeVoting
    {
      Inv(game.State())
      && dayQueue != nightCivilianQueue && dayQueue != nightMafiaQueue && dayQueue != nightCommissarQueue
      && nightCivilianQueue != nightMafiaQueue && nightCivilianQueue != nightCommissarQueue
      && nightMafiaQueue != nightCommissarQueue
    }

    /**
     * Servicer(names, room_server): a new game of the names; the day queue
     * subscribes every name and each night queue the players of one role; the
     * room is told who the mafia is.
     */
    constructor (names: seq<string>, room: Router.RoomServer, draws: seq<nat>)
      requires Distinct(names) && |draws| >= |RoleDeck(|names|)|
      modifies room`mafia
      ensures Valid()
      ensures this.names == names && roomServer == room
      ensures game.players == names && game.phase == Day && !game.canExecute
      ensures game.finished == {} && game.dead == {} && game.investigated == {}
      ensures Initial(dayQueue.queues, names)
      ensures Initial(nightCivilianQueue.queues, PlayersWithRole(names, game.playerRole, Civilian))
      ensures Initial(nightMafiaQueue.queues, PlayersWithRole(names, game.playerRole, Mafia))
      ensures Initial(nightCommissarQueue.queues, PlayersWithRole(names, game.playerRole, Commissar))
      ensures room.mafia == PlayersWithRole(names, game.playerRole, Mafia)
    {
      this.names := names;
      var g, civilians, mafia, commissars := StartSession(names, room, draws);
      game := g;
      dayQueue := new SubscriberQueue(names);
      nightCivilianQueue := new SubscriberQueue(civilians);
      nightMafiaQueue := new SubscriberQueue(mafia);
      nightCommissarQueue := new SubscriberQueue(commissars);
      roomServer := room;
      new;
    }

    /** start_game: the living players and the caller's role; a name without a role raises KeyError. */
    function StartGame(name: string): (r: Option<(seq<string>, Role)>)
      reads this, game
      ensures r.Some? <==> name in game.playerRole
      ensures r.Some? ==> r.value.0 == game.players && r.value.1 == game.playerRole[name]
    {
      if name in game.playerRole then Some((game.players, game.playerRole[name])) else None
    }

    /**
     * submit_day_command: a command is_allowed refuses changes nothing and is
     * answered with its reason; an allowed one is applied, its event is put to
     * the day queue, and if the day is then over the events of its end follow.
     */
    method SubmitDayCommand(cmd: Command) returns (reply: Reply)
      requires Valid()
      modifies game, game.executeVoting, dayQueue
      ensures Valid()
      ensures var v := IsAllowed(old(game.State()), cmd.name, cmd, Day);
              v != Allowed ==>
                reply == Refusal(v) && game.State() == old(game.State()) && dayQueue.queues == old(dayQueue.queues)
      ensures IsAllowed(old(game.State()), cmd.name, cmd, Day) == Allowed ==>
                var r := Played(old(game.State()), cmd, Day);
                reply == Done && game.State() == r.0 && dayQueue.queues == Appended(old(dayQueue.queues), [r.1] + r.2)
    {
      var v := IsAllowed(game.State(), cmd.name, cmd, Day);
      if v != Allowed {
        return Refusal(v);
      }
      ghost var s := game.State();
      ghost var before := dayQueue.queues;
      StepKeepsInv(s, cmd, Day);
      PlayedUnfolds(s, cmd, Day);
      var info := game.ProcessCommand(cmd);
      dayQueue.Put(info);
      var events := EndPhaseIfOver();
      PutAll(dayQueue, events);
      AppendedTwice(before, [info], events);
      reply := Done;
    }

    /** The phase-end step shared by both submit methods: finish_phase if is_phase_finished, else no events. */
    method EndPhaseIfOver() returns (events: seq<Info>)
      requires Inv(game.State())
      modifies game
      ensures Inv(game.State())
      ensures IsPhaseFinished(old(game.State())) ==> (game.State(), events) == EndPhase(old(game.State()))
      ensures !IsPhaseFinished(old(game.State())) ==> game.State() == old(game.State()) && events == []
    {
      events := [];
      if IsPhaseFinished(game.State()) {
        FinishKeepsInv(game.State());
        events := game.FinishPhase();
      }
    }

    /**
     * submit_night_command: as by day, except that the command's event goes
     * only to the queue of the actor's role group, and the events of the end
     * of the night go to all three night queues. An actor without a role gets
     * the command applied and then KeyError, with no queue touched.
     */
    method SubmitNightCommand(cmd: Command) returns (reply: Reply)
      requires Valid()
      modifies game, game.executeVoting, nightCivilianQueue, nightMafiaQueue, nightCommissarQueue
      ensures Valid()
      ensures var v := IsAllowed(old(game.State()), cmd.name, cmd, Night);
              v != Allowed ==>
                reply == Refusal(v) && game.State() == old(game.State())
                && nightCivilianQueue.queues == old(nightCivilianQueue.queues)
                && nightMafiaQueue.queues == old(nightMafiaQueue.queues)
                && nightCommissarQueue.queues == old(nightCommissarQueue.queues)
      ensures IsAllowed(old(game.State()), cmd.name, cmd, Night) == Allowed && cmd.name !in old(game.playerRole) ==>
                reply == Raised && game.State() == Step(old(game.State()), cmd).0
                && nightCivilianQueue.queues == old(nightCivilianQueue.queues)
                && nightMafiaQueue.queues == old(nightMafiaQueue.queues)
                && nightCommissarQueue.queues == old(nightCommissarQueue.queues)
      ensures IsAllowed(old(game.State()), cmd.name, cmd, Night) == Allowed && cmd.name in old(game.playerRole) ==>
                var r := Played(old(game.State()), cmd, Night);
                var actor := old(game.playerRole)[cmd.name];
                reply == Done && game.State() == r.0
                && nightCivilianQueue.queues == Appended(old(nightCivilianQueue.queues), NightFeed(actor, Civilian, r.1, r.2))
                && nightMafiaQueue.queues == Appended(old(nightMafiaQueue.queues), NightFeed(actor, Mafia, r.1, r.2))
                && nightCommissarQueue.queues == Appended(old(nightCommissarQueue.queues), NightFeed(actor, Commissar, r.1, r.2))
    {
      var v := IsAllowed(game.State(), cmd.name, cmd, Night);
      if v != Allowed {
        return Refusal(v);
      }
      ghost var s := game.State();
      StepKeepsInv(s, cmd, Night);
      PlayedUnfolds(s, cmd, Night);
      var info := game.ProcessCommand(cmd);
      var role := GetRole(game.State(), cmd.name);
      if role.None? {
        return Raised;
      }
      var actor := role.value;
      var events := DeliverNight(info, actor);
      reply := Done;
    }

    /**
     * The rest of submit_night_command once the command is applied: the event
     * to the actor's group, then finish_phase if the night is over, then its
     * events to all three night queues.
     */
    method DeliverNight(info: Info, actor: Role) returns (events: seq<Info>)
      requires Valid()
      modifies game, nightCivilianQueue, nightMafiaQueue, nightCommissarQueue
      ensures Valid()
      ensures IsPhaseFinished(old(game.State())) ==> (game.State(), events) == EndPhase(old(game.State()))
      ensures !IsPhaseFinished(old(game.State())) ==> game.State() == old(game.State()) && events == []
      ensures nightCivilianQueue.queues == Appended(old(nightCivilianQueue.queues), NightFeed(actor, Civilian, info, events))
      ensures nightMafiaQueue.queues == Appended(old(nightMafiaQueue.queues), NightFeed(actor, Mafia, info, events))
      ensures nightCommissarQueue.queues == Appended(old(nightCommissarQueue.queues), NightFeed(actor, Commissar, info, events))
    {
      ghost var civilians, mafia, commissars := nightCivilianQueue.queues, nightMafiaQueue.queues, nightCommissarQueue.queues;
      DeliverToGroup(info, actor);
      events := EndPhaseIfOver();
      PutAllNight(events);
      FeedThenEnd(civilians, actor, Civilian, info, events);
      FeedThenEnd(mafia, actor, Mafia, info, events);
      FeedThenEnd(commissars, actor, Commissar, info, events);
    }

    /**
     * The role dispatch of submit_night_command: the event is put to the
     * queue of the actor's role, and the other two queues are left alone.
     */
    method DeliverToGroup(info: Info, actor: Role)
      requires Valid()
      modifies nightCivilianQueue, nightMafiaQueue, nightCommissarQueue
      ensures Valid() && game.State() == old(game.State())
      ensures nightCivilianQueue.queues == Appended(old(nightCivilianQueue.queues), NightFeed(actor, Civilian, info, []))
      ensures nightMafiaQueue.queues == Appended(old(nightMafiaQueue.queues), NightFeed(actor, Mafia, info, []))
      ensures nightCommissarQueue.queues == Appended(old(nightCommissarQueue.queues), NightFeed(actor, Commissar, info, []))
    {
      AppendedNothing(nightCivilianQueue.queues);
      AppendedNothing(nightMafiaQueue.queues);
      AppendedNothing(nightCommissarQueue.queues);
      assert NightFeed(actor, actor, info, []) == [info];
      if actor == Civilian {
        nightCivilianQueue.Put(info);
      } else if actor == Mafia {
        nightMafiaQueue.Put(info);
      } else {
        nightCommissarQueue.Put(info);
      }
    }

    /** The loop at the end of submit_night_command: each phase-end event is put to all three night queues. */
    method PutAllNight(events: seq<Info>)
      requires Valid()
      modifies nightCivilianQueue, nightMafiaQueue, nightCommissarQueue
      ensures Valid() && game.State() == old(game.State())
      ensures nightCivilianQueue.queues == Appended(old(nightCivilianQueue.queues), events)
      ensures nightMafiaQueue.queues == Appended(old(nightMafiaQueue.queues), events)
      ensures nightCommissarQueue.queues == Appended(old(nightCommissarQueue.queues), events)
    {
      var civilians, mafia, commissars := nightCivilianQueue.queues, nightMafiaQueue.queues, nightCommissarQueue.queues;
      AppendedNothing(civilians);
      AppendedNothing(mafia);
      AppendedNothing(commissars);
      var i := 0;
      while i < |events|
        invariant 0 <= i <= |events|
        invariant nightCivilianQueue.queues == Appended(civilians, events[..i])
        invariant nightMafiaQueue.queues == Appended(mafia, events[..i])
        invariant nightCommissarQueue.queues == Appended(commissars, events[..i])
      {
        assert events[..i + 1] == events[..i] + [events[i]];
        AppendedTwice(civilians, events[..i], [events[i]]);
        AppendedTwice(mafia, events[..i], [events[i]]);
        AppendedTwice(commissars, events[..i], [events[i]]);
        nightCivilianQueue.Put(events[i]);
        nightMafiaQueue.Put(events[i]);
        nightCommissarQueue.Put(events[i]);
        i := i + 1;
      }
      assert events[..i] == events;
    }
  }

  /** The loop at the end of submit_day_command: each event is put to the queue, in order. */
  method PutAll(q: SubscriberQueue<Info>, events: seq<Info>)
    modifies q
    ensures q.queues == Appended(old(q.queues), events)
  {
    var before := q.queues;
    AppendedNothing(before);
    var i := 0;
    while i < |events|
      invariant 0 <= i <= |events|
      invariant q.queues == Appended(before, events[..i])
    {
      assert events[..i + 1] == events[..i] + [events[i]];
      AppendedTwice(before, events[..i], [events[i]]);
      q.Put(events[i]);
      i := i + 1;
    }
    assert events[..i] == events;
  }

  /** Played in terms of the steps the submit methods take: process_command, then finish_phase if the phase is over. */
  lemma PlayedUnfolds(s: GameState, cmd: Command, phase: Phase)
    requires Inv(s) && IsAllowed(s, cmd.name, cmd, phase) == Allowed
    ensures Applicable(s, cmd) && Inv(Step(s, cmd).0)
    ensures var s1 := Step(s, cmd).0;
            var r := Played(s, cmd, phase);
            r.1 == Step(s, cmd).1
            && (IsPhaseFinished(s1) ==> Finishable(s1) && r.0 == EndPhase(s1).0 && r.2 == EndPhase(s1).1)
            && (!IsPhaseFinished(s1) ==> r.0 == s1 && r.2 == [])
  {
    StepKeepsInv(s, cmd, phase);
    FinishKeepsInv(Step(s, cmd).0);
  }

  /** Appending no messages leaves every queue as it was. */
  lemma AppendedNothing(queues: map<string, seq<Info>>)
    ensures Appended(queues, []) == queues
  {
    forall s | s in queues ensures Appended(queues, [])[s] == queues[s] {
      assert queues[s] + [] == queues[s];
    }
  }

  /** The command's event put to a night queue, then the phase-end events: the night feed of that queue. */
  lemma FeedThenEnd(queues: map<string, seq<Info>>, actor: Role, group: Role, info: Info, events: seq<Info>)
    ensures Appended(Appended(queues, NightFeed(actor, group, info, [])), events) == Appended(queues, NightFeed(actor, group, info, events))
  {
    AppendedTwice(queues, NightFeed(actor, group, info, []), events);
    assert NightFeed(actor, group, info, []) + events == NightFeed(actor, group, info, events);
  }
}
