# python-snoo containers, modelled in Dafny

This project models `python_snoo/containers.py`, the payload layer of a client for the
SNOO smart bassinet cloud service. It covers three things.

- The closed wire-code enumerations `SnooLevels`, `SnooNoiseTimeoutLevels`, `SnooStates`,
  `SnooEvents` and `DiaperTypes`. Each is a datatype with `Code` (the member's wire
  value) and `Decode` (calling the Enum class on a raw value). Decoding is the exact
  value lookup of module `Registry`, over the members in declaration order.
- `SnooStateMachine.__post_init__`, which derives two fields after construction.
  - `time_left_timestamp` is derived from `time_left`, where -1 means "no countdown".
  - `level` is derived from the raw `up_transition` and `down_transition` strings by an
    ordered, first-match-wins table (`StateMachine.LevelRules`).
  - The snapshot is a class whose constructor stores every argument and then runs
    `PostInit`, as the dataclass does. `PostInit` is the source's if/elif chain and is
    proved against the table.
  - The wall clock is the parameter `now`, in whole seconds.
- `DiaperData.__post_init__`, which refuses a missing or empty `types` list. It then
  decodes every element, all or nothing, and the first bad element is reported.

Files: `wrappers.dfy` (Option, Result), `registry.dfy` (enum value lookup, errors),
`enums.dfy` (the five enumerations), `state_machine.dfy`, `diaper.dfy`.

Behaviour of the source that the model keeps as it is:
- When no rule matches, `level` keeps the value passed to the constructor (line 140,
  default `None`).
- The derived fields are ordinary constructor arguments. `time_left_timestamp` is always
  overwritten. `level` is overwritten only when a rule matches.
- Both construction errors are `ValueError`s. The enum error names the enum and the raw
  value (`Registry.Error`).
- `Activity` (line 251) is a plain type alias; nothing in the module dispatches on an
  activity's `type` field.

## Model

| member | source | states |
|---|---|---|
| Registry.Lookup | python_snoo/containers.py:9-93 | Enum value lookup: a found member is listed and has exactly the raw code; nothing is found exactly when no member has that code |
| Registry.LookupMember | python_snoo/containers.py:9-93 | when no two members share a code, looking up a member's own code finds that member |
| Levels.Code | python_snoo/containers.py:9-16 | the encode half: each level's wire value, always one of the seven listed codes |
| Levels.Decode | python_snoo/containers.py:9-16 | `SnooLevels(raw)`: a decoded level's code is the raw value; a failure names SnooLevels and the raw value |
| Levels.RoundTrip | python_snoo/containers.py:9-16 | decoding a level's wire code gives that level back |
| Levels.DecodeExact | python_snoo/containers.py:9-16 | decoding yields level l exactly when the raw value is l's code (both directions) |
| Levels.Accepted | python_snoo/containers.py:9-16 | each of the seven listed codes, "ONLINE" for stop included, decodes |
| Levels.Rejected | python_snoo/containers.py:9-16 | every other string fails with the SnooLevels error for that string |
| NoiseTimeouts.Code | python_snoo/containers.py:18-54 | the encode half: each timeout's value in minutes, always between 5 and 180 |
| NoiseTimeouts.Decode | python_snoo/containers.py:18-54 | `SnooNoiseTimeoutLevels(raw)`: a decoded timeout's minutes are the raw number; a failure names the enum and the number |
| NoiseTimeouts.RoundTrip | python_snoo/containers.py:18-54 | decoding a timeout's minutes gives that timeout back |
| NoiseTimeouts.Accepted | python_snoo/containers.py:18-54 | every multiple of 5 from 5 to 180 decodes |
| NoiseTimeouts.Rejected | python_snoo/containers.py:18-54 | every other integer fails with the SnooNoiseTimeoutLevels error for that number |
| NoiseTimeouts.AcceptedExactly | python_snoo/containers.py:18-54 | decoding succeeds if and only if the number is a multiple of 5 from 5 to 180 |
| States.Code | python_snoo/containers.py:57-72 | the encode half: each state's wire value, always one of the fifteen listed codes |
| States.Decode | python_snoo/containers.py:57-72 | `SnooStates(raw)`: a decoded state's code is the raw value; a failure names SnooStates and the raw value |
| States.RoundTrip | python_snoo/containers.py:57-72 | decoding a state's wire code gives that state back |
| States.DecodeExact | python_snoo/containers.py:57-72 | decoding yields state s exactly when the raw value is s's code |
| States.Accepted | python_snoo/containers.py:57-72 | each of the fifteen listed codes, "NONE" included, decodes |
| States.Rejected | python_snoo/containers.py:57-72 | every other string fails with the SnooStates error for that string |
| Events.Code | python_snoo/containers.py:75-86 | the encode half: each event's wire value, always one of the eleven listed codes |
| Events.Decode | python_snoo/containers.py:75-86 | `SnooEvents(raw)`: a decoded event's code is the raw value; a failure names SnooEvents and the raw value |
| Events.RoundTrip | python_snoo/containers.py:75-86 | decoding an event's wire code gives that event back |
| Events.DecodeExact | python_snoo/containers.py:75-86 | decoding yields event e exactly when the raw value is e's code |
| Events.Accepted | python_snoo/containers.py:75-86 | each of the eleven listed codes decodes |
| Events.Rejected | python_snoo/containers.py:75-86 | every other string fails with the SnooEvents error for that string |
| DiaperTypes.Code | python_snoo/containers.py:89-93 | the encode half: WET is "pee" and DIRTY is "poo", always one of the two listed codes |
| DiaperTypes.Decode | python_snoo/containers.py:89-93 | `DiaperTypes(raw)`: a decoded type's code is the raw value; a failure names DiaperTypes and the raw value |
| DiaperTypes.RoundTrip | python_snoo/containers.py:89-93 | decoding "pee" or "poo" gives WET or DIRTY back |
| DiaperTypes.DecodeExact | python_snoo/containers.py:89-93 | decoding yields type d exactly when the raw value is d's code |
| DiaperTypes.Accepted | python_snoo/containers.py:89-93 | "pee" and "poo" decode |
| DiaperTypes.Rejected | python_snoo/containers.py:89-93 | every other string fails with the DiaperTypes error for that string |
| StateMachine.FirstMatch | python_snoo/containers.py:149-160 | first-match-wins over an ordered rule table: a result is the level of a rule that matches both transitions with no matching rule before it; no result exactly when no rule matches |
| StateMachine.InferLevel | python_snoo/containers.py:149-160 | the level rule: the first matching rule of the table decides; the weaning baseline is never inferred |
| StateMachine.InferLevelCases | python_snoo/containers.py:149-160 | the rule table, tried in order, is the source's if/elif chain over the two transition strings |
| StateMachine.IdleIsStop | python_snoo/containers.py:149-150 | the level is stop (wire code "ONLINE") if and only if both transitions are "NONE" |
| StateMachine.UpTransitionWins | python_snoo/containers.py:151-158 | an up-transition to LEVEL1..LEVEL4 gives the level one rung below it, whatever the down-transition (so up LEVEL4, down LEVEL3 gives level3) |
| StateMachine.DownTransitionRule | python_snoo/containers.py:159-160 | the level is level4 if and only if the down-transition is LEVEL3 and no up-transition rule applies |
| StateMachine.NoRuleMatches | python_snoo/containers.py:149-160 | no level is inferred if and only if the transitions are not both "NONE", the up-transition is not LEVEL1..LEVEL4 and the down-transition is not LEVEL3 |
| StateMachine.InferredLevelIsState | python_snoo/containers.py:57-72 | every inferred level's wire code is also a valid SnooStates code |
| StateMachine.InferLevelExamples | python_snoo/containers.py:149-160 | NONE/NONE gives stop, LEVEL2/LEVEL1 gives level1, LEVEL4/LEVEL3 gives level3, NONE/LEVEL3 gives level4, WEANING_BASELINE/NONE gives nothing |
| StateMachine.DerivedLevel | python_snoo/containers.py:140-160 | a matched rule overrides the incoming level; when the transitions fall in the table's gap, the incoming level (default `None`) is kept |
| StateMachine.DerivedLevelStable | python_snoo/containers.py:140-160 | deriving the level again from an already derived snapshot leaves it unchanged |
| StateMachine.ExpiryTimestamp | python_snoo/containers.py:143-148 | the timestamp is absent if and only if time_left is -1, and otherwise lies time_left seconds after now |
| StateMachine.ExpiryFollowsClock | python_snoo/containers.py:143-146 | snapshots built at two instants expire apart by exactly the clock difference |
| StateMachine.SnooStateMachine.constructor | python_snoo/containers.py:127-160 | every argument is stored as given; the timestamp is recomputed whatever was passed; the level is the inferred one, else the value passed in |
| StateMachine.SnooStateMachine.PostInit | python_snoo/containers.py:142-160 | only the two derived fields change: the timestamp follows the expiry rule and the level follows the table, keeping its old value when no rule matches |
| Diaper.DecodeTypes | python_snoo/containers.py:214 | element-wise decoding succeeds if and only if every element is a code; the result keeps length and order; a failure reports the first bad element |
| Diaper.NewDiaperData | python_snoo/containers.py:210-214 | a missing or empty list fails with the empty-list error; a built payload is non-empty, as long as the input, each element the type with that code; a non-empty list succeeds if and only if every element is a code, and otherwise fails with the DiaperTypes error of its first bad element |
| Diaper.DecodeEncodeTypes | python_snoo/containers.py:214 | decoding the wire form of a list of types gives the list back |
| Diaper.EncodeDecodeTypes | python_snoo/containers.py:214 | encoding a successfully decoded list gives the raw list back |
| Diaper.DiaperDataRoundTrip | python_snoo/containers.py:204-214 | building a payload from the wire form of a non-empty payload gives the same payload |
| Diaper.Examples | python_snoo/containers.py:210-214 | an empty or missing list fails; ["pee", "poo"] gives [WET, DIRTY] in order |

## Left out

- The JSON mixin (`to_dict`, `from_dict`, JSON) from the mashumaro library is left out. Its coercion rules are not part of this model, so the record-level round trip and malformed-payload errors are not modelled. Only the enum codecs and the diaper list codec are.
- The `Activity` union (line 251) is left out. It is a bare type alias with no code of its own.
- `datetime.now` and `timedelta` are left out. The clock is the integer parameter `now` in whole seconds, so sub-second precision and time zones are not modelled.
- StateMachine.ExpiryTimestamp: does not model the OverflowError that `timedelta` or the datetime addition raises when `now + time_left` falls outside years 1 to 9999. The model returns a timestamp for every integer, so the constructor and `PostInit` never fail there.
- `AuthorizationInfo`, `AwsIOT`, `SnooDevice`, `SnooData`, `BabySettings`, `BabyData`, `BreastfeedingData`, `DiaperActivity` and `BreastfeedingActivity` are left out. They are field bundles with no behaviour, and no derivation reads them. Their opaque `dict`/`list`/`Any` fields are left out with them.
- StateMachine.SnooStateMachine.constructor: `state` is taken as an already decoded `SnooStates` member. The plain dataclass constructor does not check this annotation, and `from_dict` decoding is left out with the JSON mixin.
- Registry.Lookup: raw values are strings for the string enums and integers for `SnooNoiseTimeoutLevels`. Python's lookup also accepts a member itself, which is equal to its value, and numbers equal to an int value, such as `5.0`; these are not modelled separately.
