/**
 * The text command parser of mafia/client.py: a line typed by the player
 * becomes a command for the day or the night endpoint, the help text, or
 * nothing. The random pick of a player is a parameter; GetRandomPlayer
 * models the retry loop that draws it.
 */
module Client {
  import opened Wrappers
  import opened Common
  import opened Engine

  /** What process_cmd does with a line. */
  datatype Submission =
    | Help                                          // print_help_text
    | Submit(endpoint: Phase, command: Command)     // submit_day_command or submit_night_command
    | Unrecognized(scope: Option<Phase>, text: string)  // the "Unrecognized command" message
    | Nothing                                       // "night random" by a civilian

  // ---------------------------------------------------------------------------
  // Python string helpers
  // ---------------------------------------------------------------------------

  /** str.isspace for one character: the Unicode white space and the ASCII separators. */
  predicate IsSpace(c: char) {
    var n := c as int;
    (0x09 <= n <= 0x0D) || (0x1C <= n <= 0x20) || n == 0x85 || n == 0xA0 || n == 0x1680
    || (0x2000 <= n <= 0x200A) || n == 0x2028 || n == 0x2029 || n == 0x202F || n == 0x205F || n == 0x3000
  }

  /** Leading white space removed. */
  function LStrip(s: string): (r: string)
    ensures |r| <= |s| && r == s[|s| - |r|..]
    ensures r == [] || !IsSpace(r[0])
  {
    if s != [] && IsSpace(s[0]) then LStrip(s[1..]) else s
  }

  /** Trailing white space removed. */
  function RStrip(s: string): (r: string)
    ensures |r| <= |s| && r == s[..|r|]
    ensures r == [] || !IsSpace(r[|r| - 1])
  {
    if s != [] && IsSpace(s[|s| - 1]) then RStrip(s[..|s| - 1]) else s
  }

  /** Only white space is removed from the front. */
  lemma {:induction false} LStripRemovesSpace(s: string)
    ensures forall i :: 0 <= i < |s| - |LStrip(s)| ==> IsSpace(s[i])
    decreases |s|
  {
    if s != [] && IsSpace(s[0]) {
      LStripRemovesSpace(s[1..]);
    }
  }

  /** Only white space is removed from the back. */
  lemma {:induction false} RStripRemovesSpace(s: string)
    ensures forall i :: |RStrip(s)| <= i < |s| ==> IsSpace(s[i])
    decreases |s|
  {
    if s != [] && IsSpace(s[|s| - 1]) {
      RStripRemovesSpace(s[..|s| - 1]);
    }
  }

  /** str.strip() */
  function Strip(s: string): string {
    LStrip(RStrip(s))
  }

  predicate StartsWith(s: string, prefix: string) {
    |prefix| <= |s| && s[..|prefix|] == prefix
  }

  /** str.removeprefix */
  function RemovePrefix(s: string, prefix: string): (r: string)
    ensures StartsWith(s, prefix) ==> prefix + r == s
    ensures !StartsWith(s, prefix) ==> r == s
  {
    if StartsWith(s, prefix) then s[|prefix|..] else s
  }

  /** Trailing white space after a part that does not end in white space stays with the suffix. */
  lemma {:induction false} RStripAppend(x: string, y: string)
    requires RStrip(y) != []
    ensures RStrip(x + y) == x + RStrip(y)
    decreases |y|
  {
    if IsSpace(y[|y| - 1]) {
      assert (x + y)[..|x + y| - 1] == x + y[..|y| - 1];
      RStripAppend(x, y[..|y| - 1]);
    }
  }

  /** Stripping a right-stripped string is stripping the original. */
  lemma StripRStrip(x: string)
    ensures Strip(RStrip(x)) == Strip(x)
  {
    var r := RStrip(x);
    assert RStrip(r) == r;
  }

  /** One leading space before a non-space is stripped. */
  lemma LStripOneSpace(k: string)
    requires k != [] && !IsSpace(k[0])
    ensures LStrip([' '] + k) == k
  {
    assert ([' '] + k)[1..] == k;
  }

  /**
   * A keyword with one space before and after it, then x: stripping keeps the
   * keyword and its trailing space, and x without its trailing white space.
   */
  lemma StripPadded(k: string, x: string)
    requires |k| >= 2 && k[0] == ' ' && !IsSpace(k[1])
    requires RStrip(x) != []
    ensures Strip(k + x) == k[1..] + RStrip(x)
  {
    var rest := k[1..] + RStrip(x);
    RStripAfterSpace(k, x);
    assert rest[0] == k[1];
    LStripOneSpace(rest);
  }

  /** Right-stripping a line that starts with a space keeps that space apart. */
  lemma RStripAfterSpace(k: string, x: string)
    requires k != [] && k[0] == ' ' && RStrip(x) != []
    ensures RStrip(k + x) == [' '] + (k[1..] + RStrip(x))
  {
    RStripAppend(k, x);
    assert k == [' '] + k[1..];
    Associative([' '], k[1..], RStrip(x));
  }

  // ---------------------------------------------------------------------------
  // process_cmd
  // ---------------------------------------------------------------------------

  /** The part of a day line after "day": what the day branch of process_cmd does with it. */
  function DayCommand(cmd: string, self: string, pick: string): (r: Submission)
    ensures r.Submit? ==> r.endpoint == Day && r.command.name == self
                          && (r.command.kind.Finish? || r.command.kind.Publish? || r.command.kind.Execute?)
    ensures r.Submit? || r == Unrecognized(Some(Day), cmd)
  {
    if cmd == "finish" then Submit(Day, Command(Finish, self, ""))
    else if StartsWith(cmd, "publish ") then Submit(Day, Command(Publish, self, Strip(RemovePrefix(cmd, "publish "))))
    else if StartsWith(cmd, "execute ") then Submit(Day, Command(Execute, self, Strip(RemovePrefix(cmd, "execute "))))
    else if cmd == "skip" then Submit(Day, Command(Execute, self, ""))
    else if cmd == "random" then Submit(Day, Command(Execute, self, pick))
    else Unrecognized(Some(Day), cmd)
  }

  /** The part of a night line after "night": what the night branch of process_cmd does with it. */
  function NightCommand(cmd: string, self: string, role: Role, pick: string): (r: Submission)
    ensures r.Submit? ==> r.endpoint == Night && r.command.name == self
                          && (r.command.kind.Finish? || r.command.kind.Investigate? || r.command.kind.Murder?)
    ensures r.Submit? || r == Nothing || r == Unrecognized(Some(Night), cmd)
    ensures r == Nothing <==> cmd == "random" && role == Civilian
  {
    if cmd == "finish" then Submit(Night, Command(Finish, self, ""))
    else if StartsWith(cmd, "investigate ") then Submit(Night, Command(Investigate, self, Strip(RemovePrefix(cmd, "investigate "))))
    else if cmd == "random" then
      (if role == Mafia then Submit(Night, Command(Murder, self, pick))
       else if role == Commissar then Submit(Night, Command(Investigate, self, pick))
       else assert role == Civilian; Nothing)
    else if StartsWith(cmd, "murder ") then Submit(Night, Command(Murder, self, Strip(RemovePrefix(cmd, "murder "))))
    else if cmd == "skip" then Submit(Night, Command(Murder, self, ""))
    else Unrecognized(Some(Night), cmd)
  }

  /**
   * process_cmd as a parser: "help", then lines starting with "day", then
   * lines starting with "night"; `pick` is the player get_random_player
   * returned for a "random" line.
   */
  function ParseCommand(phaseCmd: string, self: string, role: Role, pick: string): (r: Submission)
    ensures r.Submit? ==> r.command.name == self
    ensures r.Submit? && r.endpoint == Day ==> StartsWith(phaseCmd, "day")
    ensures r.Submit? && r.endpoint == Night ==> StartsWith(phaseCmd, "night") && !StartsWith(phaseCmd, "day")
    ensures r == Help <==> phaseCmd == "help"
  {
    if phaseCmd == "help" then Help
    else if StartsWith(phaseCmd, "day") then DayCommand(Strip(RemovePrefix(phaseCmd, "day")), self, pick)
    else if StartsWith(phaseCmd, "night") then NightCommand(Strip(RemovePrefix(phaseCmd, "night")), self, role, pick)
    else Unrecognized(None, phaseCmd)
  }

  /** Whether process_cmd calls get_random_player on the line. */
  predicate NeedsPick(phaseCmd: string) {
    (StartsWith(phaseCmd, "day") && Strip(RemovePrefix(phaseCmd, "day")) == "random")
    || (!StartsWith(phaseCmd, "day") && StartsWith(phaseCmd, "night") && Strip(RemovePrefix(phaseCmd, "night")) == "random")
  }

  /** The pick only matters on a "random" line. */
  lemma PickOnlyForRandom(phaseCmd: string, self: string, role: Role, pick: string, other: string)
    requires !NeedsPick(phaseCmd)
    ensures ParseCommand(phaseCmd, self, role, pick) == ParseCommand(phaseCmd, self, role, other)
  {
    if phaseCmd != "help" && StartsWith(phaseCmd, "day") {
      var cmd := Strip(RemovePrefix(phaseCmd, "day"));
      DayLine(phaseCmd, cmd, self, role, pick);
      DayLine(phaseCmd, cmd, self, role, other);
      DayPickUnused(cmd, self, pick, other);
    } else if phaseCmd != "help" && StartsWith(phaseCmd, "night") {
      var cmd := Strip(RemovePrefix(phaseCmd, "night"));
      NightLine(phaseCmd, cmd, self, role, pick);
      NightLine(phaseCmd, cmd, self, role, other);
      NightPickUnused(cmd, self, role, pick, other);
    }
  }

  lemma DayPickUnused(cmd: string, self: string, pick: string, other: string)
    requires cmd != "random"
    ensures DayCommand(cmd, self, pick) == DayCommand(cmd, self, other)
  {
  }

  lemma NightPickUnused(cmd: string, self: string, role: Role, pick: string, other: string)
    requires cmd != "random"
    ensures NightCommand(cmd, self, role, pick) == NightCommand(cmd, self, role, other)
  {
  }

  // ---------------------------------------------------------------------------
  // The lines a player types
  // ---------------------------------------------------------------------------

  /** "day finish" (with any spacing) submits FINISH to the day endpoint. */
  lemma DayFinish(w: string, self: string, role: Role, pick: string)
    requires Strip(w) == "finish"
    ensures ParseCommand("day" + w, self, role, pick) == Submit(Day, Command(Finish, self, ""))
  {
    assert ("day" + w)[..3] == "day";
    assert ("day" + w)[3..] == w;
  }

  /** "night finish" (with any spacing) submits FINISH to the night endpoint. */
  lemma NightFinish(w: string, self: string, role: Role, pick: string)
    requires Strip(w) == "finish"
    ensures ParseCommand("night" + w, self, role, pick) == Submit(Night, Command(Finish, self, ""))
  {
    assert ("night" + w)[..5] == "night";
    assert ("night" + w)[5..] == w;
    assert ("night" + w)[0] == 'n';
  }

  /** The suspect after "<keyword> ": x stripped. */
  lemma SuspectAfter(k: string, x: string)
    ensures StartsWith(k + RStrip(x), k)
    ensures Strip(RemovePrefix(k + RStrip(x), k)) == Strip(x)
  {
    assert (k + RStrip(x))[..|k|] == k;
    assert (k + RStrip(x))[|k|..] == RStrip(x);
    StripRStrip(x);
  }

  /** The command after the phase word of "<phase> <keyword> <x>". */
  lemma AfterPhaseWord(phaseWord: string, k: string, x: string)
    requires |k| >= 2 && k[0] == ' ' && !IsSpace(k[1]) && RStrip(x) != []
    ensures StartsWith(phaseWord + (k + x), phaseWord)
    ensures Strip(RemovePrefix(phaseWord + (k + x), phaseWord)) == k[1..] + RStrip(x)
  {
    assert (phaseWord + (k + x))[..|phaseWord|] == phaseWord;
    assert (phaseWord + (k + x))[|phaseWord|..] == k + x;
    StripPadded(k, x);
  }

  /** A day line: the day branch gets the command after "day". */
  lemma DayLine(line: string, cmd: string, self: string, role: Role, pick: string)
    requires StartsWith(line, "day") && Strip(RemovePrefix(line, "day")) == cmd
    ensures ParseCommand(line, self, role, pick) == DayCommand(cmd, self, pick)
  {
    assert line != "help" by {
      assert line[0] == 'd';
    }
  }

  /** A night line: the night branch gets the command after "night". */
  lemma NightLine(line: string, cmd: string, self: string, role: Role, pick: string)
    requires StartsWith(line, "night") && Strip(RemovePrefix(line, "night")) == cmd
    ensures ParseCommand(line, self, role, pick) == NightCommand(cmd, self, role, pick)
  {
    assert line[0] == 'n';
  }

  /** The keywords of process_cmd with the space before and after them. */
  predicate PaddedKeyword(k: string) {
    |k| >= 2 && k[0] == ' ' && !IsSpace(k[1])
  }

  lemma Keywords()
    ensures PaddedKeyword(" execute ") && " execute "[1..] == "execute " && "execute "[0] == 'e'
    ensures PaddedKeyword(" publish ") && " publish "[1..] == "publish " && "publish "[0] == 'p'
    ensures PaddedKeyword(" investigate ") && " investigate "[1..] == "investigate " && "investigate "[0] == 'i'
    ensures PaddedKeyword(" murder ") && " murder "[1..] == "murder " && "murder "[0] == 'm'
    ensures "finish"[0] == 'f' && "random"[0] == 'r' && "skip"[0] == 's'
    ensures "help"[0] == 'h' && "day"[0] == 'd' && "night"[0] == 'n'
  {
  }

  /** A string whose first character differs from that of p neither is p nor starts with it. */
  lemma FirstCharDiffers(s: string, p: string)
    requires s != [] && p != [] && s[0] != p[0]
    ensures s != p && !StartsWith(s, p)
  {
    if |p| <= |s| {
      assert s[..|p|][0] == s[0];
    }
  }

  /** The day branch on "<keyword> X" for the keyword of a vote or a publication. */
  lemma DaySuspectCommand(k: string, x: string, self: string, pick: string)
    requires k == "execute " || k == "publish "
    ensures DayCommand(k + RStrip(x), self, pick)
            == Submit(Day, Command(if k == "execute " then Execute else Publish, self, Strip(x)))
  {
    var cmd := k + RStrip(x);
    Keywords();
    assert cmd[0] == k[0];
    FirstCharDiffers(cmd, "finish");
    if k == "execute " {
      FirstCharDiffers(cmd, "publish ");
    }
    SuspectAfter(k, x);
  }

  /** The night branch on "<keyword> X" for the keyword of an investigation or a murder vote. */
  lemma NightSuspectCommand(k: string, x: string, self: string, role: Role, pick: string)
    requires k == "investigate " || k == "murder "
    ensures NightCommand(k + RStrip(x), self, role, pick)
            == Submit(Night, Command(if k == "investigate " then Investigate else Murder, self, Strip(x)))
  {
    var cmd := k + RStrip(x);
    Keywords();
    assert cmd[0] == k[0];
    FirstCharDiffers(cmd, "finish");
    if k == "murder " {
      FirstCharDiffers(cmd, "investigate ");
      FirstCharDiffers(cmd, "random");
    }
    SuspectAfter(k, x);
  }

  /** "day execute X" votes to execute X, stripped. */
  lemma DayExecute(x: string, self: string, role: Role, pick: string)
    requires RStrip(x) != []
    ensures ParseCommand("day" + (" execute " + x), self, role, pick) == Submit(Day, Command(Execute, self, Strip(x)))
  {
    Keywords();
    AfterPhaseWord("day", " execute ", x);
    DayLine("day" + (" execute " + x), "execute " + RStrip(x), self, role, pick);
    DaySuspectCommand("execute ", x, self, pick);
  }

  /** "day publish X" publishes the role of X, stripped. */
  lemma DayPublish(x: string, self: string, role: Role, pick: string)
    requires RStrip(x) != []
    ensures ParseCommand("day" + (" publish " + x), self, role, pick) == Submit(Day, Command(Publish, self, Strip(x)))
  {
    Keywords();
    AfterPhaseWord("day", " publish ", x);
    DayLine("day" + (" publish " + x), "publish " + RStrip(x), self, role, pick);
    DaySuspectCommand("publish ", x, self, pick);
  }

  /** "night investigate X" investigates X, stripped. */
  lemma NightInvestigate(x: string, self: string, role: Role, pick: string)
    requires RStrip(x) != []
    ensures ParseCommand("night" + (" investigate " + x), self, role, pick) == Submit(Night, Command(Investigate, self, Strip(x)))
  {
    Keywords();
    AfterPhaseWord("night", " investigate ", x);
    NightLine("night" + (" investigate " + x), "investigate " + RStrip(x), self, role, pick);
    NightSuspectCommand("investigate ", x, self, role, pick);
  }

  /** "night murder X" votes to murder X, stripped. */
  lemma NightMurder(x: string, self: string, role: Role, pick: string)
    requires RStrip(x) != []
    ensures ParseCommand("night" + (" murder " + x), self, role, pick) == Submit(Night, Command(Murder, self, Strip(x)))
  {
    Keywords();
    AfterPhaseWord("night", " murder ", x);
    NightLine("night" + (" murder " + x), "murder " + RStrip(x), self, role, pick);
    NightSuspectCommand("murder ", x, self, role, pick);
  }

  /** "day skip" votes for nobody; "night skip" votes to murder nobody. */
  lemma Skip(w: string, self: string, role: Role, pick: string)
    requires Strip(w) == "skip"
    ensures ParseCommand("day" + w, self, role, pick) == Submit(Day, Command(Execute, self, ""))
    ensures ParseCommand("night" + w, self, role, pick) == Submit(Night, Command(Murder, self, ""))
  {
    assert ("day" + w)[..3] == "day";
    assert ("day" + w)[3..] == w;
    assert ("night" + w)[..5] == "night";
    assert ("night" + w)[5..] == w;
    assert ("night" + w)[0] == 'n';
  }

  /** "night random": mafia vote to murder the pick, the commissar investigates it, a civilian submits nothing. */
  lemma NightRandom(w: string, self: string, role: Role, pick: string)
    requires Strip(w) == "random"
    ensures NeedsPick("night" + w)
    ensures var r := ParseCommand("night" + w, self, role, pick);
            (role == Mafia ==> r == Submit(Night, Command(Murder, self, pick)))
            && (role == Commissar ==> r == Submit(Night, Command(Investigate, self, pick)))
            && (role == Civilian ==> r == Nothing)
  {
    assert ("night" + w)[..5] == "night";
    assert ("night" + w)[5..] == w;
    assert ("night" + w)[0] == 'n';
  }

  /** A line that is not "help" and starts with neither phase word is unrecognized as a whole. */
  lemma UnrecognizedLine(phaseCmd: string, self: string, role: Role, pick: string)
    requires phaseCmd != "help" && !StartsWith(phaseCmd, "day") && !StartsWith(phaseCmd, "night")
    ensures ParseCommand(phaseCmd, self, role, pick) == Unrecognized(None, phaseCmd)
  {
  }

  // ---------------------------------------------------------------------------
  // get_random_player
  // ---------------------------------------------------------------------------

  /** The player random.choice returns for one random number. */
  function Choice(players: seq<string>, draw: nat): (p: string)
    requires |players| > 0
    ensures p in players
  {
    players[draw % |players|]
  }

  /** Some draw picks a player other than `self`: what the retry loop needs to stop. */
  predicate SomeOtherDraw(players: seq<string>, self: string, draws: seq<nat>) {
    |players| > 0 && exists k :: 0 <= k < |draws| && Choice(players, draws[k]) != self
  }

  /** get_random_player: draws players until one is not the caller. */
  method GetRandomPlayer(players: seq<string>, self: string, draws: seq<nat>) returns (suspect: string)
    requires SomeOtherDraw(players, self, draws)
    ensures suspect in players && suspect != self
    ensures exists k :: 0 <= k < |draws| && suspect == Choice(players, draws[k])
              && forall j :: 0 <= j < k ==> Choice(players, draws[j]) == self
  {
    var k := 0;
    suspect := Choice(players, draws[0]);
    while suspect == self
      invariant 0 <= k < |draws| && suspect == Choice(players, draws[k])
      invariant forall j :: 0 <= j < k ==> Choice(players, draws[j]) == self
      invariant exists m :: k <= m < |draws| && Choice(players, draws[m]) != self
      decreases |draws| - k
    {
      k := k + 1;
      suspect := Choice(players, draws[k]);
    }
  }

  /**
   * process_cmd with its random pick: a "random" line draws another player
   * than the caller, and the line is then parsed with that pick.
   */
  method ProcessCmd(phaseCmd: string, self: string, role: Role, players: seq<string>, draws: seq<nat>) returns (r: Submission)
    requires NeedsPick(phaseCmd) ==> SomeOtherDraw(players, self, draws)
    ensures NeedsPick(phaseCmd) ==> exists pick :: pick in players && pick != self && r == ParseCommand(phaseCmd, self, role, pick)
    ensures !NeedsPick(phaseCmd) ==> forall pick :: r == ParseCommand(phaseCmd, self, role, pick)
    ensures r.Submit? ==> r.command.suspect != self || !NeedsPick(phaseCmd)
  {
    var pick := "";
    if NeedsPick(phaseCmd) {
      pick := GetRandomPlayer(players, self, draws);
    }
    r := ParseCommand(phaseCmd, self, role, pick);
    forall other ensures !NeedsPick(phaseCmd) ==> r == ParseCommand(phaseCmd, self, role, other) {
      if !NeedsPick(phaseCmd) {
        PickOnlyForRandom(phaseCmd, self, role, pick, other);
      }
    }
    if NeedsPick(phaseCmd) && r.Submit? {
      RandomSuspectIsPick(phaseCmd, self, role, pick);
    }
  }

  /** On a "random" line that submits, the suspect is the pick. */
  lemma RandomSuspectIsPick(phaseCmd: string, self: string, role: Role, pick: string)
    requires NeedsPick(phaseCmd) && ParseCommand(phaseCmd, self, role, pick).Submit?
    ensures ParseCommand(phaseCmd, self, role, pick).command.suspect == pick
  {
    assert phaseCmd != "help" by {
      Keywords();
      FirstCharDiffers("help", "day");
      FirstCharDiffers("help", "night");
    }
    if StartsWith(phaseCmd, "day") {
      DayLine(phaseCmd, "random", self, role, pick);
    } else {
      NightLine(phaseCmd, "random", self, role, pick);
    }
  }
}
