/** The farming session: the base search (find_base), the attack sequence
    (deploy_troops and the body of farm_loop) and the session loop that accumulates loot
    until every goal is reached (farm_loop in main.py).

    The screen is abstracted as the sequence of frames the recognizer reads, one per
    read cycle, in the order the bot reads them; clicks, drags and pauses become a trace
    of actions. The source's loops are unbounded; here they run until the goals are met
    or the given frames run out, and running out means the bot is still waiting for its
    next reading. */
module Session {
  import opened Reading
  import opened Decision

  /** The configured screen points, by role. Deployment lines are numbered 1 to 4. */
  datatype Target =
    | NextButton | SelectTroop | EndBattle | ConfirmEnd | ReturnLobby | AttackButton | FindMatch
    | LineStart(line: nat) | LineEnd(line: nat)

  /** One simulated input: a click, a drag from the pointer's position to a point, or a
      pause in milliseconds. */
  datatype Action = Click(target: Target) | DragTo(target: Target) | Sleep(ms: nat)

  /** What the recognizer produced for the gold, elixir and dark elixir regions of one
      screen. */
  datatype Frame = Frame(gold: Extraction, elixir: Extraction, dark: Extraction)

  /** The region list of one read cycle: resources_coord or extracted_res_coord, each
      name paired with what its region yielded. */
  function Regions(f: Frame): seq<(string, Extraction)> {
    [(GoldName, f.gold), (ElixirName, f.elixir), (DarkName, f.dark)]
  }

  /** Reference meaning of a frame: the amount each region yields on its own. */
  function Amounts(f: Frame): Levels {
    Levels(ExtractedValue(f.gold), ExtractedValue(f.elixir), ExtractedValue(f.dark))
  }

  /** A read cycle over a frame leaves each tracked entry equal to what that frame's
      region yields, whatever the table held before. */
  lemma ReadFrame(f: Frame, table: Table)
    ensures forall i :: 0 <= i < 3 ==> Get(ReadAll(Regions(f), table), Tracked[i]) == Amounts(f).At(i)
  {
    var rs := Regions(f);
    assert IsLastFor(rs, 0) && IsLastFor(rs, 1) && IsLastFor(rs, 2);
    ReadAllLastWins(rs, table, 0);
    ReadAllLastWins(rs, table, 1);
    ReadAllLastWins(rs, table, 2);
    assert rs[0].0 == Tracked[0] && rs[1].0 == Tracked[1] && rs[2].0 == Tracked[2];
  }

  /** The three entries read back after a read cycle over a frame are that frame's
      amounts. */
  lemma LootRead(f: Frame, table: Table)
    ensures var t := ReadAll(Regions(f), table);
            Levels(Get(t, GoldName), Get(t, ElixirName), Get(t, DarkName)) == Amounts(f)
  {
    ReadFrame(f, table);
    var t := ReadAll(Regions(f), table);
    assert Get(t, Tracked[0]) == Amounts(f).At(0);
    assert Get(t, Tracked[1]) == Amounts(f).At(1);
    assert Get(t, Tracked[2]) == Amounts(f).At(2);
  }

  /** Reference meaning of the decision on a frame: some resource's amount reaches its
      threshold. */
  predicate Qualifies(th: Levels, f: Frame) {
    exists i :: 0 <= i < 3 && Amounts(f).At(i) >= th.At(i)
  }

  /** checkif after a search read cycle decides on the current frame alone. */
  lemma DecideOnFrame(th: Levels, f: Frame, table: Table)
    ensures CheckIf(th, ReadAll(Regions(f), table)) <==> Qualifies(th, f)
  {
    ReadFrame(f, table);
  }

  // ---------------------------------------------------------------------------
  // Base search

  /** `n` rejected bases: each one costs a click on Next and a 4-second wait. */
  function Skips(n: nat): seq<Action> {
    if n == 0 then [] else [Click(NextButton), Sleep(4000)] + Skips(n - 1)
  }

  lemma {:induction false} SkipsShape(n: nat)
    ensures |Skips(n)| == 2 * n
    ensures forall k :: 0 <= k < n ==> Skips(n)[2 * k] == Click(NextButton) && Skips(n)[2 * k + 1] == Sleep(4000)
  {
    if n > 0 {
      SkipsShape(n - 1);
      var s := Skips(n);
      forall k | 0 <= k < n
        ensures s[2 * k] == Click(NextButton) && s[2 * k + 1] == Sleep(4000)
      {
        if k > 0 {
          assert s[2 * k] == Skips(n - 1)[2 * (k - 1)];
          assert s[2 * k + 1] == Skips(n - 1)[2 * (k - 1) + 1];
        }
      }
    }
  }

  /** The outcome of a search: whether a base qualified, the search table afterwards,
      how many frames were read, and the actions issued. */
  datatype Search = Search(found: bool, table: Table, used: nat, trace: seq<Action>) {
    /** The number of bases looked at and skipped. */
    function Rejected(): nat {
      if found && used > 0 then used - 1 else used
    }
  }

  /** find_base: read the search regions, stop at the first base whose read cycle
      passes checkif, click Next and wait after every other one. */
  function FindBase(th: Levels, table: Table, frames: seq<Frame>): (r: Search)
    ensures r.used <= |frames|
    ensures r.found ==> r.used >= 1 && CheckIf(th, r.table)
    ensures !r.found ==> r.used == |frames|
    ensures r.trace == Skips(r.Rejected())
    ensures r.used == 0 ==> r.table == table
    decreases |frames|
  {
    if |frames| == 0 then Search(false, table, 0, [])
    else
      var t := ReadAll(Regions(frames[0]), table);
      if CheckIf(th, t) then Search(true, t, 1, [])
      else
        var rest := FindBase(th, t, frames[1..]);
        var r := Search(rest.found, if rest.used == 0 then t else rest.table, rest.used + 1,
                        [Click(NextButton), Sleep(4000)] + rest.trace);
        assert r.Rejected() == rest.Rejected() + 1;
        assert Skips(r.Rejected()) == [Click(NextButton), Sleep(4000)] + Skips(rest.Rejected());
        r
  }

  /** The frame the search stops at qualifies. */
  lemma {:induction false} FindBaseStopQualifies(th: Levels, table: Table, frames: seq<Frame>)
    ensures var r := FindBase(th, table, frames);
            r.found ==> Qualifies(th, frames[r.used - 1])
    decreases |frames|
  {
    if |frames| > 0 {
      var t := ReadAll(Regions(frames[0]), table);
      var r := FindBase(th, table, frames);
      DecideOnFrame(th, frames[0], table);
      if !CheckIf(th, t) {
        var tail := frames[1..];
        var rest := FindBase(th, t, tail);
        FindBaseStopQualifies(th, t, tail);
        assert r.found == rest.found && r.used == rest.used + 1;
        if r.found {
          assert frames[r.used - 1] == tail[rest.used - 1];
        }
      }
    }
  }

  /** Every frame the search skips fails the decision. */
  lemma {:induction false} FindBaseSkippedFail(th: Levels, table: Table, frames: seq<Frame>)
    ensures var r := FindBase(th, table, frames);
            forall j :: 0 <= j < r.Rejected() ==> !Qualifies(th, frames[j])
    decreases |frames|
  {
    if |frames| > 0 {
      var t := ReadAll(Regions(frames[0]), table);
      var r := FindBase(th, table, frames);
      DecideOnFrame(th, frames[0], table);
      if !CheckIf(th, t) {
        var tail := frames[1..];
        var rest := FindBase(th, t, tail);
        FindBaseSkippedFail(th, t, tail);
        assert r.Rejected() == rest.Rejected() + 1;
        forall j | 0 <= j < r.Rejected()
          ensures !Qualifies(th, frames[j])
        {
          if j > 0 {
            assert frames[j] == tail[j - 1];
          }
        }
      }
    }
  }

  /** The search stops at the first frame that qualifies: that frame qualifies and
      every frame skipped before it does not. */
  lemma FindBaseFirstQualifying(th: Levels, table: Table, frames: seq<Frame>)
    ensures var r := FindBase(th, table, frames);
            && (r.found ==> Qualifies(th, frames[r.used - 1]))
            && (forall j :: 0 <= j < r.Rejected() ==> !Qualifies(th, frames[j]))
  {
    FindBaseStopQualifies(th, table, frames);
    FindBaseSkippedFail(th, table, frames);
  }

  /** After the search, the table holds the amounts of the last frame read. */
  lemma {:induction false} FindBaseReadsLast(th: Levels, table: Table, frames: seq<Frame>)
    ensures var r := FindBase(th, table, frames);
            r.used > 0 ==> forall i :: 0 <= i < 3 ==> Get(r.table, Tracked[i]) == Amounts(frames[r.used - 1]).At(i)
    decreases |frames|
  {
    if |frames| > 0 {
      var t := ReadAll(Regions(frames[0]), table);
      var r := FindBase(th, table, frames);
      ReadFrame(frames[0], table);
      if CheckIf(th, t) {
        assert r.used == 1 && r.table == t;
      } else {
        var tail := frames[1..];
        var rest := FindBase(th, t, tail);
        FindBaseReadsLast(th, t, tail);
        assert r.used == rest.used + 1;
        if rest.used > 0 {
          assert r.table == rest.table;
          assert frames[r.used - 1] == tail[rest.used - 1];
        } else {
          assert r.table == t && r.used == 1;
        }
      }
    }
  }

  // ---------------------------------------------------------------------------
  // Attack

  /** deploy_troops: for each of the four lines, click its start and drag to its end. */
  const DeployRound: seq<Action> := [
    Click(LineStart(1)), DragTo(LineEnd(1)),
    Click(LineStart(2)), DragTo(LineEnd(2)),
    Click(LineStart(3)), DragTo(LineEnd(3)),
    Click(LineStart(4)), DragTo(LineEnd(4))]

  /** deploy_troops called `n` times in a row: its round of eight actions, repeated. */
  function Deploys(n: nat): seq<Action> {
    seq(8 * n, k requires 0 <= k < 8 * n => DeployRound[k % 8])
  }

  /** One more call of deploy_troops appends one more round. */
  lemma DeploysSnoc(n: nat)
    ensures Deploys(n + 1) == Deploys(n) + DeployRound
  {
    var a := Deploys(n + 1);
    var b := Deploys(n) + DeployRound;
    assert |a| == |b|;
    forall k | 0 <= k < |a|
      ensures a[k] == b[k]
    {
      if k >= 8 * n {
        assert k % 8 == k - 8 * n;
      }
    }
  }

  /** `n` deployments are `4 * n` click/drag pairs, cycling through lines 1 to 4. */
  lemma DeploysShape(n: nat)
    ensures |Deploys(n)| == 8 * n
    ensures forall k :: 0 <= k < 4 * n ==>
              Deploys(n)[2 * k] == Click(LineStart(k % 4 + 1)) &&
              Deploys(n)[2 * k + 1] == DragTo(LineEnd(k % 4 + 1))
  {
    var s := Deploys(n);
    forall k | 0 <= k < 4 * n
      ensures s[2 * k] == Click(LineStart(k % 4 + 1)) && s[2 * k + 1] == DragTo(LineEnd(k % 4 + 1))
    {
      var q, j := k / 4, k % 4;
      assert 2 * k == 8 * q + 2 * j;
      assert (2 * k) / 8 == q && (2 * k + 1) / 8 == q;
      assert (2 * k) % 8 == 2 * j;
      assert (2 * k + 1) % 8 == 2 * j + 1;
    }
  }

  /** How many times deploy_troops runs per attack. */
  const DeployRepeats: nat := 15

  /** From selecting the troop to confirming the end of the battle. */
  const AttackOpening: seq<Action> :=
    [Click(SelectTroop), Sleep(500)] + Deploys(DeployRepeats) +
    [Sleep(15000), Click(EndBattle), Sleep(250), Click(ConfirmEnd), Sleep(4000)]

  /** From the results screen back to a new search. */
  const AttackClosing: seq<Action> :=
    [Click(ReturnLobby), Sleep(5000), Click(AttackButton), Sleep(1000), Click(FindMatch), Sleep(5000)]

  /** An attack deploys along the four lines 15 times over: 60 click/drag pairs between
      selecting the troop and the long wait for the battle. */
  lemma AttackDeploysSixtyPairs()
    ensures |AttackOpening| == 2 + 120 + 5
    ensures AttackOpening[..2] == [Click(SelectTroop), Sleep(500)]
    ensures forall k :: 0 <= k < 60 ==>
              AttackOpening[2 + 2 * k] == Click(LineStart(k % 4 + 1)) &&
              AttackOpening[3 + 2 * k] == DragTo(LineEnd(k % 4 + 1))
    ensures AttackOpening[122] == Sleep(15000)
  {
    DeploysShape(DeployRepeats);
    var head := [Click(SelectTroop), Sleep(500)];
    var tail := [Sleep(15000), Click(EndBattle), Sleep(250), Click(ConfirmEnd), Sleep(4000)];
    assert AttackOpening == head + Deploys(15) + tail;
    forall k | 0 <= k < 60
      ensures AttackOpening[2 + 2 * k] == Click(LineStart(k % 4 + 1))
      ensures AttackOpening[3 + 2 * k] == DragTo(LineEnd(k % 4 + 1))
    {
      assert AttackOpening[2 + 2 * k] == Deploys(15)[2 * k];
      assert AttackOpening[3 + 2 * k] == Deploys(15)[2 * k + 1];
    }
  }

  // ---------------------------------------------------------------------------
  // Session loop

  /** The loop's state: running totals, attacks made, the two global reading tables,
      and every action issued so far. */
  datatype State = State(totals: Levels, attacks: nat, found: Table, earned: Table, trace: seq<Action>)

  /** The state farm_loop starts from. */
  const Start: State := State(Levels(0, 0, 0), 0, map[], map[], [])

  function Add(a: Levels, b: Levels): Levels {
    Levels(a.gold + b.gold, a.elixir + b.elixir, a.dark + b.dark)
  }

  /** Every component of `a` is at least the same component of `b`. */
  predicate AtLeast(a: Levels, b: Levels) {
    a.gold >= b.gold && a.elixir >= b.elixir && a.dark >= b.dark
  }

  /** The loop's exit test: every total has reached its target. */
  predicate GoalsMet(targets: Levels, totals: Levels) {
    AtLeast(totals, targets)
  }

  predicate NonNegative(a: Levels) {
    a.gold >= 0 && a.elixir >= 0 && a.dark >= 0
  }

  /** One pass of the loop after the goal check: either an attack was completed and its
      loot read, leaving the remaining frames, or the frames ran out first. */
  datatype StepResult = Attacked(next: State, lootAt: nat, rest: seq<Frame>) | Starved(last: State)

  /** The attack on a found base and the loot read afterwards: the actions of one
      attack are issued, the results screen is read into the loot table, and what it
      yields is added to the totals. */
  function Attack(s: State, search: Search, loot: Frame): (next: State)
    ensures next.totals == Add(s.totals, Amounts(loot))
    ensures next.attacks == s.attacks + 1
    ensures next.trace == s.trace + search.trace + AttackOpening + AttackClosing
  {
    var earned := ReadAll(Regions(loot), s.earned);
    var gained := Levels(Get(earned, GoldName), Get(earned, ElixirName), Get(earned, DarkName));
    LootRead(loot, s.earned);
    State(Add(s.totals, gained), s.attacks + 1, search.table, earned,
          s.trace + search.trace + AttackOpening + AttackClosing)
  }

  /** One pass of farm_loop's body: search, attack, read the loot earned, add it to the
      totals, and head back to a new search. */
  function Step(th: Levels, s: State, frames: seq<Frame>): (r: StepResult)
    ensures r.Starved? ==> r.last.totals == s.totals && r.last.attacks <= s.attacks + 1
    ensures r.Attacked? ==>
              && 1 <= r.lootAt < |frames|
              && r.rest == frames[r.lootAt + 1..]
              && r.next.totals == Add(s.totals, Amounts(frames[r.lootAt]))
              && r.next.attacks == s.attacks + 1
    ensures r.Attacked? ==> s.trace <= r.next.trace
    ensures r.Starved? ==> s.trace <= r.last.trace
  {
    var search := FindBase(th, s.found, frames);
    if !search.found then
      Starved(s.(found := search.table, trace := s.trace + search.trace))
    else if search.used == |frames| then
      Starved(s.(found := search.table, attacks := s.attacks + 1,
                 trace := s.trace + search.trace + AttackOpening))
    else
      Attacked(Attack(s, search, frames[search.used]), search.used, frames[search.used + 1..])
  }

  /** The actions a pass that attacks appends: one Next click and wait per skipped
      base, the attack itself, and the trip back to a new search. */
  lemma StepTrace(th: Levels, s: State, frames: seq<Frame>)
    ensures var r := Step(th, s, frames);
            r.Attacked? ==> r.next.trace == s.trace + Skips(r.lootAt - 1) + AttackOpening + AttackClosing
  {
    var search := FindBase(th, s.found, frames);
    var r := Step(th, s, frames);
    if r.Attacked? {
      assert search.found && search.used < |frames|;
      assert r.next == Attack(s, search, frames[search.used]) && r.lootAt == search.used;
      assert search.trace == Skips(search.used - 1);
    }
  }

  /** The base a pass attacks qualifies. */
  lemma StepAttackedQualifies(th: Levels, s: State, frames: seq<Frame>)
    ensures var r := Step(th, s, frames);
            r.Attacked? ==> Qualifies(th, frames[r.lootAt - 1])
  {
    var search := FindBase(th, s.found, frames);
    FindBaseStopQualifies(th, s.found, frames);
    if Step(th, s, frames).Attacked? {
      assert search.found && Step(th, s, frames).lootAt == search.used;
    }
  }

  /** Every base a pass skips before attacking fails the decision. */
  lemma StepSkippedFail(th: Levels, s: State, frames: seq<Frame>)
    ensures var r := Step(th, s, frames);
            r.Attacked? ==> forall j :: 0 <= j < r.lootAt - 1 ==> !Qualifies(th, frames[j])
  {
    var search := FindBase(th, s.found, frames);
    FindBaseSkippedFail(th, s.found, frames);
    assert search.found ==> search.Rejected() == search.used - 1;
  }

  /** The base a pass attacks is the first qualifying one: its frame qualifies and
      every frame skipped before it does not. */
  lemma StepAttacksFirstQualifying(th: Levels, s: State, frames: seq<Frame>)
    ensures var r := Step(th, s, frames);
            r.Attacked? ==>
              && Qualifies(th, frames[r.lootAt - 1])
              && forall j :: 0 <= j < r.lootAt - 1 ==> !Qualifies(th, frames[j])
  {
    StepAttackedQualifies(th, s, frames);
    StepSkippedFail(th, s, frames);
  }

  /** Some frame that still has a frame after it, to read the loot from, shows a base
      that qualifies. */
  predicate SomeQualifies(th: Levels, frames: seq<Frame>) {
    exists k :: 0 <= k < |frames| - 1 && Qualifies(th, frames[k])
  }

  /** A pass attacks exactly when some base qualifies before the last frame: find_base
      returns at the first qualifying base and the attack always follows. */
  lemma StepAttacksIff(th: Levels, s: State, frames: seq<Frame>)
    ensures Step(th, s, frames).Attacked? <==> SomeQualifies(th, frames)
  {
    var search := FindBase(th, s.found, frames);
    FindBaseFirstQualifying(th, s.found, frames);
    StepAttacksFirstQualifying(th, s, frames);
    if SomeQualifies(th, frames) {
      var k :| 0 <= k < |frames| - 1 && Qualifies(th, frames[k]);
      assert search.found;
      assert search.used - 1 <= k;
    }
  }

  /** How a session ends: with every goal reached, or still running when the frames
      ran out. */
  datatype Outcome = GoalsReached(state: State) | OutOfFrames(state: State)

  /** farm_loop from a given state: check the goals, and if they are not all met, run
      one more pass. The loop ends exactly when every total has reached its target;
      totals only grow; actions are only appended. */
  function Farm(targets: Levels, th: Levels, s: State, frames: seq<Frame>): (r: Outcome)
    ensures r.GoalsReached? <==> GoalsMet(targets, r.state.totals)
    ensures GoalsMet(targets, s.totals) ==> r == GoalsReached(s)
    ensures AtLeast(r.state.totals, s.totals)
    ensures r.state.attacks >= s.attacks
    ensures s.trace <= r.state.trace
    decreases |frames|
  {
    if GoalsMet(targets, s.totals) then GoalsReached(s)
    else
      match Step(th, s, frames)
      case Starved(last) => OutOfFrames(last)
      case Attacked(next, _, rest) => Farm(targets, th, next, rest)
  }

  /** With goals unmet and no qualifying base with a frame after it, the loop searches
      to the end of the frames and stops there without adding any loot. */
  lemma FarmGivesUp(targets: Levels, th: Levels, s: State, frames: seq<Frame>)
    requires !GoalsMet(targets, s.totals) && !SomeQualifies(th, frames)
    ensures Farm(targets, th, s, frames).OutOfFrames?
    ensures Farm(targets, th, s, frames).state.totals == s.totals
  {
    StepAttacksIff(th, s, frames);
  }

  /** With goals unmet and a qualifying base ahead, the loop does not give up: it attacks
      in this pass and carries on from the frames after the loot frame. */
  lemma FarmContinues(targets: Levels, th: Levels, s: State, frames: seq<Frame>)
    requires !GoalsMet(targets, s.totals) && SomeQualifies(th, frames)
    ensures var st := Step(th, s, frames);
            st.Attacked? && Farm(targets, th, s, frames) == Farm(targets, th, st.next, st.rest)
  {
    StepAttacksIff(th, s, frames);
  }

  /** The search thresholds farm_loop uses. */
  const SearchThresholds: Levels := Levels(500000, 500000, 50000)

  /** farm_loop as called: from zero totals, with the fixed thresholds. */
  function FarmLoop(targets: Levels, frames: seq<Frame>): Outcome {
    Farm(targets, SearchThresholds, Start, frames)
  }

  /** Totals of a session started from zero are never negative. */
  lemma FarmLoopTotalsNonNegative(targets: Levels, frames: seq<Frame>)
    ensures NonNegative(FarmLoop(targets, frames).state.totals)
  {
  }
}

/** Two search scenarios worked through the model. */
module SessionExamples {
  import opened Reading
  import opened Decision
  import opened Session

  function Shown(text: string): Extraction {
    Detected([Detection(text, 0.9)])
  }

  lemma SixHundredThousandKept()
    ensures Keep("600,000") == "600000"
  {
    KeepAppend("600", ",000");
    assert "600" + ",000" == "600,000";
  }

  lemma SixHundredThousandDigits()
    ensures ToDigits(600000) == "600000"
  {
    assert ToDigits(6) == "6";
    assert ToDigits(60) == "60";
    assert ToDigits(600) == "600";
    assert ToDigits(6000) == "6000";
    assert ToDigits(60000) == "60000";
  }

  lemma ReadsSixHundredThousand()
    ensures ParseText("600,000") == 600000
  {
    SixHundredThousandKept();
    SixHundredThousandDigits();
    ParseSeparated("600,000", 600000);
  }

  lemma HundredThousandKept()
    ensures Keep("100,000") == "100000"
  {
    KeepAppend("100", ",000");
    assert "100" + ",000" == "100,000";
  }

  lemma HundredThousandDigits()
    ensures ToDigits(100000) == "100000"
  {
    assert ToDigits(1) == "1";
    assert ToDigits(10) == "10";
    assert ToDigits(100) == "100";
    assert ToDigits(1000) == "1000";
    assert ToDigits(10000) == "10000";
  }

  lemma ReadsHundredThousand()
    ensures ParseText("100,000") == 100000
  {
    HundredThousandKept();
    HundredThousandDigits();
    ParseSeparated("100,000", 100000);
  }

  lemma TenThousandKept()
    ensures Keep("10,000") == "10000"
  {
    KeepAppend("10", ",000");
    assert "10" + ",000" == "10,000";
  }

  lemma TenThousandDigits()
    ensures ToDigits(10000) == "10000"
  {
    assert ToDigits(1) == "1";
    assert ToDigits(10) == "10";
    assert ToDigits(100) == "100";
    assert ToDigits(1000) == "1000";
  }

  lemma ReadsTenThousand()
    ensures ParseText("10,000") == 10000
  {
    TenThousandKept();
    TenThousandDigits();
    ParseSeparated("10,000", 10000);
  }

  /** A base showing 600,000 gold (and nothing readable elsewhere) qualifies at once:
      the search stops after one frame without clicking Next. */
  lemma RichBaseStopsSearch()
    ensures var r := FindBase(SearchThresholds, map[], [Frame(Shown("600,000"), Detected([]), Detected([]))]);
            r.found && r.used == 1 && r.trace == []
  {
    var f := Frame(Shown("600,000"), Detected([]), Detected([]));
    ReadsSixHundredThousand();
    assert Amounts(f).At(0) == 600000;
    assert Qualifies(SearchThresholds, f);
    DecideOnFrame(SearchThresholds, f, map[]);
  }

  /** A base showing 100,000 gold, 100,000 elixir and 10,000 dark elixir does not
      qualify: the bot clicks Next, waits, and keeps searching. */
  lemma PoorBaseIsSkipped()
    ensures var r := FindBase(SearchThresholds, map[], [Frame(Shown("100,000"), Shown("100,000"), Shown("10,000"))]);
            !r.found && r.used == 1 && r.trace == [Click(NextButton), Sleep(4000)]
  {
    var f := Frame(Shown("100,000"), Shown("100,000"), Shown("10,000"));
    ReadsHundredThousand();
    ReadsTenThousand();
    assert !Qualifies(SearchThresholds, f);
    DecideOnFrame(SearchThresholds, f, map[]);
  }
}
