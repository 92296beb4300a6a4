/**
 * SnooStateMachine of python_snoo/containers.py: a state machine snapshot whose
 * `time_left_timestamp` and `level` are filled in by `__post_init__` from the other
 * fields, right after the dataclass constructor has stored them.
 *
 * The wall clock read by `__post_init__` is the parameter `now`, in whole seconds, and
 * the timestamp is an instant in the same seconds.
 */
module StateMachine {
  import opened Wrappers
  import opened Levels
  import States

  /** The raw transition value meaning "no pending transition in that direction". */
  const NoTransition: string := "NONE"

  /** One row of the level-inference table; a `None` pattern matches any value. */
  datatype Rule = Rule(up: Option<string>, down: Option<string>, level: Level)

  /**
   * The level-inference table in the order the rules are tried: the level is the one
   * below a pending up-transition, the top level when the only pending transition is
   * down to LEVEL3, and the stopped level when nothing is pending.
   */
  const LevelRules: seq<Rule> := [
    Rule(Some(NoTransition), Some(NoTransition), Stop),
    Rule(Some("LEVEL1"), None, Baseline),
    Rule(Some("LEVEL2"), None, Level1),
    Rule(Some("LEVEL3"), None, Level2),
    Rule(Some("LEVEL4"), None, Level3),
    Rule(None, Some("LEVEL3"), Level4)
  ]

  predicate Matches(pattern: Option<string>, raw: string)
  {
    pattern.None? || pattern.value == raw
  }

  predicate RuleMatches(rule: Rule, up: string, down: string)
  {
    Matches(rule.up, up) && Matches(rule.down, down)
  }

  /** The level of the first rule that matches both transitions, if any rule does. */
  function FirstMatch(rules: seq<Rule>, up: string, down: string): (r: Option<Level>)
    ensures r.Some? ==>
              exists i :: 0 <= i < |rules| && RuleMatches(rules[i], up, down) && rules[i].level == r.value
                          && forall j :: 0 <= j < i ==> !RuleMatches(rules[j], up, down)
    ensures r.None? <==> forall i :: 0 <= i < |rules| ==> !RuleMatches(rules[i], up, down)
  {
    if |rules| == 0 then None
    else if RuleMatches(rules[0], up, down) then Some(rules[0].level)
    else
      var r := FirstMatch(rules[1..], up, down);
      assert forall i :: 1 <= i < |rules| ==> rules[i] == rules[1..][i - 1];
      r
  }

  /** The level a snapshot reports for its raw transitions, when the table decides one. */
  function InferLevel(up: string, down: string): (r: Option<Level>)
    ensures r != Some(WeaningBaseline)
  {
    FirstMatch(LevelRules, up, down)
  }

  /** The up-transition values the table maps, in table order. */
  const UpCodes: seq<string> := ["LEVEL1", "LEVEL2", "LEVEL3", "LEVEL4"]

  /** The soothing levels from the gentlest to the strongest. */
  const Ladder: seq<Level> := [Baseline, Level1, Level2, Level3, Level4]

  /** Trying a table: the first rule decides when it matches, the rest otherwise. */
  lemma FirstMatchStep(rules: seq<Rule>, up: string, down: string)
    requires |rules| > 0
    ensures FirstMatch(rules, up, down) ==
      if RuleMatches(rules[0], up, down) then Some(rules[0].level)
      else FirstMatch(rules[1..], up, down)
  {
  }

  /** The table as a chain of cases, rule by rule. */
  lemma InferLevelCases(up: string, down: string)
    ensures InferLevel(up, down) ==
      if up == NoTransition && down == NoTransition then Some(Stop)
      else if up == "LEVEL1" then Some(Baseline)
      else if up == "LEVEL2" then Some(Level1)
      else if up == "LEVEL3" then Some(Level2)
      else if up == "LEVEL4" then Some(Level3)
      else if down == "LEVEL3" then Some(Level4)
      else None
  {
    assert LevelRules[0..] == LevelRules;
    TableRule0(up, down);
    TableRule1(up, down);
    TableRule2(up, down);
    TableRule3(up, down);
    TableRule4(up, down);
    TableRule5(up, down);
  }

  /** Trying the table from rule k on. */
  lemma TableStep(k: nat, up: string, down: string)
    requires k < |LevelRules|
    ensures FirstMatch(LevelRules[k..], up, down) ==
      if RuleMatches(LevelRules[k], up, down) then Some(LevelRules[k].level)
      else FirstMatch(LevelRules[k + 1..], up, down)
  {
    FirstMatchStep(LevelRules[k..], up, down);
    assert LevelRules[k..][1..] == LevelRules[k + 1..];
  }

  lemma TableRule0(up: string, down: string)
    ensures FirstMatch(LevelRules[0..], up, down) == if up == NoTransition && down == NoTransition then Some(Stop) else FirstMatch(LevelRules[1..], up, down)
  {
    TableStep(0, up, down);
  }

  lemma TableRule1(up: string, down: string)
    ensures FirstMatch(LevelRules[1..], up, down) == if up == "LEVEL1" then Some(Baseline) else FirstMatch(LevelRules[2..], up, down)
  {
    TableStep(1, up, down);
  }

  lemma TableRule2(up: string, down: string)
    ensures FirstMatch(LevelRules[2..], up, down) == if up == "LEVEL2" then Some(Level1) else FirstMatch(LevelRules[3..], up, down)
  {
    TableStep(2, up, down);
  }

  lemma TableRule3(up: string, down: string)
    ensures FirstMatch(LevelRules[3..], up, down) == if up == "LEVEL3" then Some(Level2) else FirstMatch(LevelRules[4..], up, down)
  {
    TableStep(3, up, down);
  }

  lemma TableRule4(up: string, down: string)
    ensures FirstMatch(LevelRules[4..], up, down) == if up == "LEVEL4" then Some(Level3) else FirstMatch(LevelRules[5..], up, down)
  {
    TableStep(4, up, down);
  }

  lemma TableRule5(up: string, down: string)
    ensures FirstMatch(LevelRules[5..], up, down) == if down == "LEVEL3" then Some(Level4) else None
  {
    TableStep(5, up, down);
    assert LevelRules[6..] == [];
  }

  /** Nothing pending in either direction: the device is stopped, coded "ONLINE". */
  lemma IdleIsStop(up: string, down: string)
    ensures InferLevel(up, down) == Some(Stop) <==> up == NoTransition && down == NoTransition
    ensures Code(Stop) == "ONLINE"
  {
    InferLevelCases(up, down);
  }

  /**
   * A pending up-transition to a level decides the level, whatever the down-transition:
   * the current level is the rung just below it.
   */
  lemma UpTransitionWins(i: int, down: string)
    requires 1 <= i < |Ladder|
    ensures InferLevel(Code(Ladder[i]), down) == Some(Ladder[i - 1])
  {
    InferLevelCases(Code(Ladder[i]), down);
  }

  /**
   * The one mapped down-transition: pending LEVEL3 means the strongest level, but only
   * when no up-transition rule applies.
   */
  lemma DownTransitionRule(up: string, down: string)
    ensures InferLevel(up, down) == Some(Level4) <==> down == Code(Level3) && up !in UpCodes
  {
    InferLevelCases(up, down);
  }

  /** The gap in the table: no rule matches, so no level is inferred. */
  lemma NoRuleMatches(up: string, down: string)
    ensures InferLevel(up, down).None? <==>
      !(up == NoTransition && down == NoTransition) && up !in UpCodes && down != Code(Level3)
  {
    InferLevelCases(up, down);
  }

  /** Every inferred level is also a valid SnooStates value with the same code. */
  lemma InferredLevelIsState(up: string, down: string)
    requires InferLevel(up, down).Some?
    ensures States.Decode(Code(InferLevel(up, down).value)).Ok?
  {
    States.Accepted(Code(InferLevel(up, down).value));
  }

  /** Some transition pairs and the level the table gives them. */
  lemma InferLevelExamples()
    ensures InferLevel("NONE", "NONE") == Some(Stop)
    ensures InferLevel("LEVEL2", "LEVEL1") == Some(Level1)
    ensures InferLevel("LEVEL4", "LEVEL3") == Some(Level3)
    ensures InferLevel("NONE", "LEVEL3") == Some(Level4)
    ensures InferLevel("WEANING_BASELINE", "NONE") == None
  {
    InferLevelCases("NONE", "NONE");
    InferLevelCases("LEVEL2", "LEVEL1");
    InferLevelCases("LEVEL4", "LEVEL3");
    InferLevelCases("NONE", "LEVEL3");
    InferLevelCases("WEANING_BASELINE", "NONE");
  }

  /** The level `__post_init__` leaves: the inferred one, else the incoming value. */
  function DerivedLevel(up: string, down: string, incoming: Option<Level>): (r: Option<Level>)
    ensures InferLevel(up, down).Some? ==> r == InferLevel(up, down)
    ensures !(up == NoTransition && down == NoTransition) && up !in UpCodes && down != Code(Level3)
      ==> r == incoming
  {
    NoRuleMatches(up, down);
    if InferLevel(up, down).Some? then InferLevel(up, down) else incoming
  }

  /** Deriving again from a derived snapshot changes nothing (a re-decoded snapshot keeps its level). */
  lemma DerivedLevelStable(up: string, down: string, incoming: Option<Level>)
    ensures DerivedLevel(up, down, DerivedLevel(up, down, incoming)) == DerivedLevel(up, down, incoming)
  {
  }

  /**
   * The countdown's expiry instant: absent when `time_left` is the sentinel -1,
   * otherwise `time_left` seconds after `now` (before it, for a negative value).
   */
  function ExpiryTimestamp(timeLeft: int, now: int): (r: Option<int>)
    ensures r.None? <==> timeLeft == -1
    ensures r.Some? ==> r.value - now == timeLeft
  {
    if timeLeft != -1 then Some(now + timeLeft) else None
  }

  /** Two snapshots built at different instants expire apart by exactly the clock difference. */
  lemma ExpiryFollowsClock(timeLeft: int, now1: int, now2: int)
    requires timeLeft != -1
    ensures ExpiryTimestamp(timeLeft, now2).value - ExpiryTimestamp(timeLeft, now1).value == now2 - now1
  {
  }

  /** A state machine snapshot, mutable as a Python dataclass instance is. */
  class SnooStateMachine {
    var upTransition: string
    var sinceSessionStartMs: int
    var stickyWhiteNoise: string
    var weaning: string
    var timeLeft: int
    var sessionId: string
    var state: States.State
    var isActiveSession: bool
    var downTransition: string
    var hold: string
    var audio: string
    var timeLeftTimestamp: Option<int>
    var level: Option<Level>

    /** The derived fields agree with the fields they are derived from, for clock reading `now`. */
    ghost predicate Derived(now: int)
      reads this
    {
      && timeLeftTimestamp == ExpiryTimestamp(timeLeft, now)
      && (InferLevel(upTransition, downTransition).Some? ==> level == InferLevel(upTransition, downTransition))
    }

    /**
     * The dataclass constructor followed by `__post_init__`: stores every argument,
     * then overwrites the timestamp and, when the table decides one, the level.
     */
    constructor (upTransition: string, sinceSessionStartMs: int, stickyWhiteNoise: string,
                 weaning: string, timeLeft: int, sessionId: string, state: States.State,
                 isActiveSession: bool, downTransition: string, hold: string, audio: string,
                 timeLeftTimestamp: Option<int>, level: Option<Level>, now: int)
      ensures this.upTransition == upTransition && this.sinceSessionStartMs == sinceSessionStartMs
      ensures this.stickyWhiteNoise == stickyWhiteNoise && this.weaning == weaning
      ensures this.timeLeft == timeLeft && this.sessionId == sessionId && this.state == state
      ensures this.isActiveSession == isActiveSession && this.downTransition == downTransition
      ensures this.hold == hold && this.audio == audio
      ensures this.timeLeftTimestamp == ExpiryTimestamp(timeLeft, now)
      ensures this.level == DerivedLevel(upTransition, downTransition, level)
      ensures Derived(now)
    {
      this.upTransition := upTransition;
      this.sinceSessionStartMs := sinceSessionStartMs;
      this.stickyWhiteNoise := stickyWhiteNoise;
      this.weaning := weaning;
      this.timeLeft := timeLeft;
      this.sessionId := sessionId;
      this.state := state;
      this.isActiveSession := isActiveSession;
      this.downTransition := downTransition;
      this.hold := hold;
      this.audio := audio;
      this.timeLeftTimestamp := timeLeftTimestamp;
      this.level := level;
      new;
      PostInit(now);
    }

    /** `__post_init__`: the timestamp rule, then the level rules tried in order. */
    method PostInit(now: int)
      modifies this`timeLeftTimestamp, this`level
      ensures timeLeftTimestamp == ExpiryTimestamp(timeLeft, now)
      ensures level == DerivedLevel(upTransition, downTransition, old(level))
      ensures Derived(now)
    {
      if timeLeft != -1 {
        timeLeftTimestamp := Some(now + timeLeft);
      } else {
        timeLeftTimestamp := None;
      }
      InferLevelCases(upTransition, downTransition);
      if upTransition == NoTransition && downTransition == NoTransition {
        level := Some(Stop);
      } else if upTransition == Code(Level1) {
        level := Some(Baseline);
      } else if upTransition == Code(Level2) {
        level := Some(Level1);
      } else if upTransition == Code(Level3) {
        level := Some(Level2);
      } else if upTransition == Code(Level4) {
        level := Some(Level3);
      } else if downTransition == Code(Level3) {
        level := Some(Level4);
      }
    }
  }
}
