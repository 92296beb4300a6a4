/**
 * The closed wire-code enumerations of python_snoo/containers.py. Each module holds
 * the members in declaration order (`All`), the member-to-wire-code map (`Code`,
 * i.e. the enum member's value), the decoder (`Decode`, i.e. calling the Enum class
 * on a raw value) and the proofs that the two are inverse on the closed code set.
 */

/** SnooLevels: the soothing levels a state machine snapshot can report. */
module Levels {
  import opened Wrappers
  import Registry

  datatype Level = Baseline | WeaningBaseline | Level1 | Level2 | Level3 | Level4 | Stop

  /** The member's wire value; always one of the listed codes. */
  function Code(l: Level): (r: string)
    ensures r in Codes
  {
    match l
    case Baseline => "BASELINE"
    case WeaningBaseline => "WEANING_BASELINE"
    case Level1 => "LEVEL1"
    case Level2 => "LEVEL2"
    case Level3 => "LEVEL3"
    case Level4 => "LEVEL4"
    case Stop => "ONLINE"
  }

  const All: seq<Level> := [Baseline, WeaningBaseline, Level1, Level2, Level3, Level4, Stop]

  /** The accepted wire codes, in declaration order. */
  const Codes: seq<string> :=
    ["BASELINE", "WEANING_BASELINE", "LEVEL1", "LEVEL2", "LEVEL3", "LEVEL4", "ONLINE"]

  function Decode(raw: string): (r: Result<Level, Registry.Error>)
    ensures r.Ok? ==> Code(r.value) == raw
    ensures r.Err? ==> r.error == Registry.InvalidEnumValue("SnooLevels", Registry.Text(raw))
  {
    match Registry.Lookup(All, Code, raw)
    case Some(l) => Ok(l)
    case None => Err(Registry.InvalidEnumValue("SnooLevels", Registry.Text(raw)))
  }

  /** No two members share a wire code. */
  lemma CodeDistinct(a: Level, b: Level)
    ensures Code(a) == Code(b) ==> a == b
  {
  }

  lemma CodeInjective()
    ensures Registry.Injective(All, Code)
  {
    forall a, b | a in All && b in All && Code(a) == Code(b) ensures a == b {
      CodeDistinct(a, b);
    }
  }

  /** Every member is listed. */
  lemma Listed(l: Level)
    ensures l in All
  {
  }

  /** The listed codes are the members' codes, position by position. */
  lemma CodeAt(i: int)
    requires 0 <= i < |All|
    ensures |Codes| == |All| && Code(All[i]) == Codes[i]
  {
  }

  /** Encoding a member and decoding the code gives the member back. */
  lemma RoundTrip(l: Level)
    ensures Decode(Code(l)) == Ok(l)
  {
    CodeInjective();
    Listed(l);
    Registry.LookupMember(All, Code, l);
  }

  /** Decoding yields a member exactly when the raw value is that member's code. */
  lemma DecodeExact(raw: string, l: Level)
    ensures Decode(raw) == Ok(l) <==> Code(l) == raw
  {
    if Code(l) == raw { RoundTrip(l); }
  }

  /** Every listed wire code is accepted. */
  lemma Accepted(raw: string)
    requires raw in Codes
    ensures Decode(raw).Ok?
  {
    var i :| 0 <= i < |Codes| && Codes[i] == raw;
    CodeAt(i);
    Registry.LookupFinds(All, Code, raw, All[i]);
  }

  /** Every other raw value is refused, naming the enumeration and the value. */
  lemma Rejected(raw: string)
    requires raw !in Codes
    ensures Decode(raw) == Err(Registry.InvalidEnumValue("SnooLevels", Registry.Text(raw)))
  {
  }
}

/** SnooNoiseTimeoutLevels: the sticky white noise timeout, in minutes. */
module NoiseTimeouts {
  import opened Wrappers
  import Registry

  datatype NoiseTimeout =
    | Min5 | Min10 | Min15 | Min20 | Min25 | Min30 | Min35 | Min40 | Min45
    | Min50 | Min55 | Min60 | Min65 | Min70 | Min75 | Min80 | Min85 | Min90
    | Min95 | Min100 | Min105 | Min110 | Min115 | Min120 | Min125 | Min130 | Min135
    | Min140 | Min145 | Min150 | Min155 | Min160 | Min165 | Min170 | Min175 | Min180

  /** The timeout in minutes, from 5 to 180. */
  function Code(t: NoiseTimeout): (r: int)
    ensures 5 <= r <= 180
  {
    match t
    case Min5 => 5 case Min10 => 10 case Min15 => 15 case Min20 => 20
    case Min25 => 25 case Min30 => 30 case Min35 => 35 case Min40 => 40
    case Min45 => 45 case Min50 => 50 case Min55 => 55 case Min60 => 60
    case Min65 => 65 case Min70 => 70 case Min75 => 75 case Min80 => 80
    case Min85 => 85 case Min90 => 90 case Min95 => 95 case Min100 => 100
    case Min105 => 105 case Min110 => 110 case Min115 => 115 case Min120 => 120
    case Min125 => 125 case Min130 => 130 case Min135 => 135 case Min140 => 140
    case Min145 => 145 case Min150 => 150 case Min155 => 155 case Min160 => 160
    case Min165 => 165 case Min170 => 170 case Min175 => 175 case Min180 => 180
  }

  /** The members in declaration order, written in quarters to keep proofs about them small. */
  const All: seq<NoiseTimeout> := Quarter1 + Quarter2 + Quarter3 + Quarter4

  const Quarter1: seq<NoiseTimeout> := [Min5, Min10, Min15, Min20, Min25, Min30, Min35, Min40, Min45]
  const Quarter2: seq<NoiseTimeout> := [Min50, Min55, Min60, Min65, Min70, Min75, Min80, Min85, Min90]
  const Quarter3: seq<NoiseTimeout> := [Min95, Min100, Min105, Min110, Min115, Min120, Min125, Min130, Min135]
  const Quarter4: seq<NoiseTimeout> := [Min140, Min145, Min150, Min155, Min160, Min165, Min170, Min175, Min180]

  function Decode(raw: int): (r: Result<NoiseTimeout, Registry.Error>)
    ensures r.Ok? ==> Code(r.value) == raw
    ensures r.Err? ==> r.error == Registry.InvalidEnumValue("SnooNoiseTimeoutLevels", Registry.Number(raw))
  {
    match Registry.Lookup(All, Code, raw)
    case Some(t) => Ok(t)
    case None => Err(Registry.InvalidEnumValue("SnooNoiseTimeoutLevels", Registry.Number(raw)))
  }

  /** No two members share a wire code. */
  lemma CodeDistinct(a: NoiseTimeout, b: NoiseTimeout)
    ensures Code(a) == Code(b) ==> a == b
  {
  }

  lemma CodeInjective()
    ensures Registry.Injective(All, Code)
  {
    forall a, b | a in All && b in All && Code(a) == Code(b) ensures a == b {
      CodeDistinct(a, b);
    }
  }

  /** Every member is listed. */
  lemma Listed(t: NoiseTimeout)
    ensures t in All
  {
    assert t in Quarter1 || t in Quarter2 || t in Quarter3 || t in Quarter4;
  }

  /** Encoding a member and decoding the code gives the member back. */
  lemma RoundTrip(t: NoiseTimeout)
    ensures Decode(Code(t)) == Ok(t)
  {
    CodeInjective();
    Listed(t);
    Registry.LookupMember(All, Code, t);
  }

  /** The i-th member, in declaration order, is the (i+1)-th multiple of five. */
  lemma CodeAt(i: int)
    requires 0 <= i < |All|
    ensures Code(All[i]) == 5 * (i + 1)
  {
    if i < 9 {
      assert All[i] == Quarter1[i];
      CodeAtQuarter1(i);
    } else if i < 18 {
      assert All[i] == Quarter2[i - 9];
      CodeAtQuarter2(i - 9);
    } else if i < 27 {
      assert All[i] == Quarter3[i - 18];
      CodeAtQuarter3(i - 18);
    } else {
      assert All[i] == Quarter4[i - 27];
      CodeAtQuarter4(i - 27);
    }
  }

  lemma CodeAtQuarter1(i: int)
    requires 0 <= i < |Quarter1|
    ensures Code(Quarter1[i]) == 5 * (i + 1)
  {
  }

  lemma CodeAtQuarter2(i: int)
    requires 0 <= i < |Quarter2|
    ensures Code(Quarter2[i]) == 5 * (i + 10)
  {
  }

  lemma CodeAtQuarter3(i: int)
    requires 0 <= i < |Quarter3|
    ensures Code(Quarter3[i]) == 5 * (i + 19)
  {
  }

  lemma CodeAtQuarter4(i: int)
    requires 0 <= i < |Quarter4|
    ensures Code(Quarter4[i]) == 5 * (i + 28)
  {
  }

  /** Every member's code is a multiple of five between 5 and 180. */
  lemma CodeRange(t: NoiseTimeout)
    ensures 5 <= Code(t) <= 180 && Code(t) % 5 == 0
  {
  }

  /** Every multiple of five from 5 to 180 is accepted. */
  lemma Accepted(raw: int)
    requires 5 <= raw <= 180 && raw % 5 == 0
    ensures Decode(raw).Ok?
  {
    var i := raw / 5 - 1;
    assert 0 <= i < |All| && raw == 5 * (i + 1);
    CodeAt(i);
    Registry.LookupFinds(All, Code, raw, All[i]);
  }

  /** Every other number is refused, naming the enumeration and the value. */
  lemma Rejected(raw: int)
    requires !(5 <= raw <= 180 && raw % 5 == 0)
    ensures Decode(raw) == Err(Registry.InvalidEnumValue("SnooNoiseTimeoutLevels", Registry.Number(raw)))
  {
    forall t ensures 5 <= Code(t) <= 180 && Code(t) % 5 == 0 {
      CodeRange(t);
    }
  }

  /** The accepted timeouts are exactly the multiples of 5 from 5 to 180. */
  lemma AcceptedExactly(raw: int)
    ensures Decode(raw).Ok? <==> 5 <= raw <= 180 && raw % 5 == 0
  {
    if 5 <= raw <= 180 && raw % 5 == 0 {
      Accepted(raw);
    } else {
      Rejected(raw);
    }
  }
}

/** SnooStates: every state the device's state machine can be in. */
module States {
  import Wrappers
  import Registry

  datatype State =
    | Baseline | Level1 | Level2 | Level3 | Level4 | Stop | Pretimeout | Timeout | Suspended
    | WeaningBaseline | GlobalSettings | UnrecoverableSuspended | UnrecoverableError | None | Manual

  /** The member's wire value; always one of the listed codes. */
  function Code(s: State): (r: string)
    ensures r in Codes
  {
    match s
    case Baseline => "BASELINE"
    case Level1 => "LEVEL1"
    case Level2 => "LEVEL2"
    case Level3 => "LEVEL3"
    case Level4 => "LEVEL4"
    case Stop => "ONLINE"
    case Pretimeout => "PRETIMEOUT"
    case Timeout => "TIMEOUT"
    case Suspended => "SUSPENDED"
    case WeaningBaseline => "WEANING_BASELINE"
    case GlobalSettings => "GLOBAL_SETTINGS"
    case UnrecoverableSuspended => "UNRECOVERABLE_SUSPENDED"
    case UnrecoverableError => "UNRECOVERABLE_ERROR"
    case None => "NONE"
    case Manual => "MANUAL"
  }

  const All: seq<State> :=
    [Baseline, Level1, Level2, Level3, Level4, Stop, Pretimeout, Timeout, Suspended,
     WeaningBaseline, GlobalSettings, UnrecoverableSuspended, UnrecoverableError, None, Manual]

  /** The accepted wire codes, in declaration order. */
  const Codes: seq<string> :=
    ["BASELINE", "LEVEL1", "LEVEL2", "LEVEL3", "LEVEL4", "ONLINE", "PRETIMEOUT", "TIMEOUT",
     "SUSPENDED", "WEANING_BASELINE", "GLOBAL_SETTINGS", "UNRECOVERABLE_SUSPENDED",
     "UNRECOVERABLE_ERROR", "NONE", "MANUAL"]

  function Decode(raw: string): (r: Wrappers.Result<State, Registry.Error>)
    ensures r.Ok? ==> Code(r.value) == raw
    ensures r.Err? ==> r.error == Registry.InvalidEnumValue("SnooStates", Registry.Text(raw))
  {
    match Registry.Lookup(All, Code, raw)
    case Some(s) => Wrappers.Ok(s)
    case None => Wrappers.Err(Registry.InvalidEnumValue("SnooStates", Registry.Text(raw)))
  }

  /** No two members share a wire code. */
  lemma CodeDistinct(a: State, b: State)
    ensures Code(a) == Code(b) ==> a == b
  {
  }

  lemma CodeInjective()
    ensures Registry.Injective(All, Code)
  {
    forall a, b | a in All && b in All && Code(a) == Code(b) ensures a == b {
      CodeDistinct(a, b);
    }
  }

  /** Every member is listed. */
  lemma Listed(s: State)
    ensures s in All
  {
  }

  /** The listed codes are the members' codes, position by position. */
  lemma CodeAt(i: int)
    requires 0 <= i < |All|
    ensures |Codes| == |All| && Code(All[i]) == Codes[i]
  {
  }

  /** Encoding a member and decoding the code gives the member back. */
  lemma RoundTrip(s: State)
    ensures Decode(Code(s)) == Wrappers.Ok(s)
  {
    CodeInjective();
    Listed(s);
    Registry.LookupMember(All, Code, s);
  }

  /** Decoding yields a member exactly when the raw value is that member's code. */
  lemma DecodeExact(raw: string, s: State)
    ensures Decode(raw) == Wrappers.Ok(s) <==> Code(s) == raw
  {
    if Code(s) == raw { RoundTrip(s); }
  }

  /** Every listed wire code is accepted. */
  lemma Accepted(raw: string)
    requires raw in Codes
    ensures Decode(raw).Ok?
  {
    var i :| 0 <= i < |Codes| && Codes[i] == raw;
    CodeAt(i);
    Registry.LookupFinds(All, Code, raw, All[i]);
  }

  /** Every other raw value is refused, naming the enumeration and the value. */
  lemma Rejected(raw: string)
    requires raw !in Codes
    ensures Decode(raw) == Wrappers.Err(Registry.InvalidEnumValue("SnooStates", Registry.Text(raw)))
  {
  }
}

/** SnooEvents: the kind of event a device status message reports. */
module Events {
  import opened Wrappers
  import Registry

  datatype Event =
    | Timer | Cry | Command | SafetyClip | LongActivityPress | Activity | Power
    | StatusRequested | StickyWhiteNoiseUpdated | ConfigChange | Restart

  /** The member's wire value; always one of the listed codes. */
  function Code(e: Event): (r: string)
    ensures r in Codes
  {
    match e
    case Timer => "timer"
    case Cry => "cry"
    case Command => "command"
    case SafetyClip => "safety_clip"
    case LongActivityPress => "long_activity_press"
    case Activity => "activity"
    case Power => "power"
    case StatusRequested => "status_requested"
    case StickyWhiteNoiseUpdated => "sticky_white_noise_updated"
    case ConfigChange => "config_change"
    case Restart => "restart"
  }

  const All: seq<Event> :=
    [Timer, Cry, Command, SafetyClip, LongActivityPress, Activity, Power,
     StatusRequested, StickyWhiteNoiseUpdated, ConfigChange, Restart]

  /** The accepted wire codes, in declaration order. */
  const Codes: seq<string> :=
    ["timer", "cry", "command", "safety_clip", "long_activity_press", "activity", "power",
     "status_requested", "sticky_white_noise_updated", "config_change", "restart"]

  function Decode(raw: string): (r: Result<Event, Registry.Error>)
    ensures r.Ok? ==> Code(r.value) == raw
    ensures r.Err? ==> r.error == Registry.InvalidEnumValue("SnooEvents", Registry.Text(raw))
  {
    match Registry.Lookup(All, Code, raw)
    case Some(e) => Ok(e)
    case None => Err(Registry.InvalidEnumValue("SnooEvents", Registry.Text(raw)))
  }

  /** No two members share a wire code. */
  lemma CodeDistinct(a: Event, b: Event)
    ensures Code(a) == Code(b) ==> a == b
  {
  }

  lemma CodeInjective()
    ensures Registry.Injective(All, Code)
  {
    forall a, b | a in All && b in All && Code(a) == Code(b) ensures a == b {
      CodeDistinct(a, b);
    }
  }

  /** Every member is listed. */
  lemma Listed(e: Event)
    ensures e in All
  {
  }

  /** The listed codes are the members' codes, position by position. */
  lemma CodeAt(i: int)
    requires 0 <= i < |All|
    ensures |Codes| == |All| && Code(All[i]) == Codes[i]
  {
  }

  /** Encoding a member and decoding the code gives the member back. */
  lemma RoundTrip(e: Event)
    ensures Decode(Code(e)) == Ok(e)
  {
    CodeInjective();
    Listed(e);
    Registry.LookupMember(All, Code, e);
  }

  /** Decoding yields a member exactly when the raw value is that member's code. */
  lemma DecodeExact(raw: string, e: Event)
    ensures Decode(raw) == Ok(e) <==> Code(e) == raw
  {
    if Code(e) == raw { RoundTrip(e); }
  }

  /** Every listed wire code is accepted. */
  lemma Accepted(raw: string)
    requires raw in Codes
    ensures Decode(raw).Ok?
  {
    var i :| 0 <= i < |Codes| && Codes[i] == raw;
    CodeAt(i);
    Registry.LookupFinds(All, Code, raw, All[i]);
  }

  /** Every other raw value is refused, naming the enumeration and the value. */
  lemma Rejected(raw: string)
    requires raw !in Codes
    ensures Decode(raw) == Err(Registry.InvalidEnumValue("SnooEvents", Registry.Text(raw)))
  {
  }
}

/** DiaperTypes: the diaper change kinds, coded as the companion app codes them. */
module DiaperTypes {
  import opened Wrappers
  import Registry

  datatype DiaperType = Wet | Dirty

  /** The member's wire value; always one of the listed codes. */
  function Code(d: DiaperType): (r: string)
    ensures r in Codes
  {
    match d
    case Wet => "pee"
    case Dirty => "poo"
  }

  const All: seq<DiaperType> := [Wet, Dirty]

  /** The accepted wire codes, in declaration order. */
  const Codes: seq<string> := ["pee", "poo"]

  function Decode(raw: string): (r: Result<DiaperType, Registry.Error>)
    ensures r.Ok? ==> Code(r.value) == raw
    ensures r.Err? ==> r.error == Registry.InvalidEnumValue("DiaperTypes", Registry.Text(raw))
  {
    match Registry.Lookup(All, Code, raw)
    case Some(d) => Ok(d)
    case None => Err(Registry.InvalidEnumValue("DiaperTypes", Registry.Text(raw)))
  }

  /** No two members share a wire code. */
  lemma CodeDistinct(a: DiaperType, b: DiaperType)
    ensures Code(a) == Code(b) ==> a == b
  {
  }

  lemma CodeInjective()
    ensures Registry.Injective(All, Code)
  {
    forall a, b | a in All && b in All && Code(a) == Code(b) ensures a == b {
      CodeDistinct(a, b);
    }
  }

  /** Every member is listed. */
  lemma Listed(d: DiaperType)
    ensures d in All
  {
  }

  /** The listed codes are the members' codes, position by position. */
  lemma CodeAt(i: int)
    requires 0 <= i < |All|
    ensures |Codes| == |All| && Code(All[i]) == Codes[i]
  {
  }

  /** Encoding a member and decoding the code gives the member back. */
  lemma RoundTrip(d: DiaperType)
    ensures Decode(Code(d)) == Ok(d)
  {
    CodeInjective();
    Listed(d);
    Registry.LookupMember(All, Code, d);
  }

  /** Decoding yields a member exactly when the raw value is that member's code. */
  lemma DecodeExact(raw: string, d: DiaperType)
    ensures Decode(raw) == Ok(d) <==> Code(d) == raw
  {
    if Code(d) == raw { RoundTrip(d); }
  }

  /** Every listed wire code is accepted. */
  lemma Accepted(raw: string)
    requires raw in Codes
    ensures Decode(raw).Ok?
  {
    var i :| 0 <= i < |Codes| && Codes[i] == raw;
    CodeAt(i);
    Registry.LookupFinds(All, Code, raw, All[i]);
  }

  /** Every other raw value is refused, naming the enumeration and the value. */
  lemma Rejected(raw: string)
    requires raw !in Codes
    ensures Decode(raw) == Err(Registry.InvalidEnumValue("DiaperTypes", Registry.Text(raw)))
  {
  }
}
