/**
 * DiaperData of python_snoo/containers.py: `__post_init__` refuses a missing or empty
 * `types` list, then rebuilds the list by turning every raw element into its
 * DiaperTypes member, so that one unrecognised element fails the whole construction.
 */
module Diaper {
  import opened Wrappers
  import Registry
  import opened DiaperTypes

  /** A diaper change's payload after successful construction. */
  datatype DiaperData = DiaperData(types: seq<DiaperType>)

  /** The wire form of a list of diaper types. */
  function EncodeTypes(types: seq<DiaperType>): (raws: seq<string>)
    ensures |raws| == |types|
    ensures forall i :: 0 <= i < |types| ==> raws[i] == Code(types[i])
  {
    if types == [] then [] else [Code(types[0])] + EncodeTypes(types[1..])
  }

  /** `e` reports an element of `raws` that is not a code, and every element before it is one. */
  ghost predicate FirstRejected(raws: seq<string>, e: Registry.Error)
  {
    exists i :: 0 <= i < |raws| && raws[i] !in Codes
      && (forall j :: 0 <= j < i ==> raws[j] in Codes)
      && e == Registry.InvalidEnumValue("DiaperTypes", Registry.Text(raws[i]))
  }

  lemma FirstRejectedShift(raws: seq<string>, e: Registry.Error)
    requires raws != [] && raws[0] in Codes
    requires FirstRejected(raws[1..], e)
    ensures FirstRejected(raws, e)
  {
    var k :| 0 <= k < |raws[1..]| && raws[1..][k] !in Codes
      && (forall j :: 0 <= j < k ==> raws[1..][j] in Codes)
      && e == Registry.InvalidEnumValue("DiaperTypes", Registry.Text(raws[1..][k]));
    assert raws[k + 1] == raws[1..][k];
    assert forall j :: 1 <= j < k + 1 ==> raws[j] == raws[1..][j - 1];
  }

  /**
   * The list comprehension `[DiaperTypes(dt) for dt in types]`: every element decoded
   * in order, stopping at the first one that is not a diaper type code.
   */
  function DecodeTypes(raws: seq<string>): (r: Result<seq<DiaperType>, Registry.Error>)
    ensures r.Ok? <==> forall i :: 0 <= i < |raws| ==> raws[i] in Codes
    ensures r.Ok? ==> |r.value| == |raws| && forall i :: 0 <= i < |raws| ==> Code(r.value[i]) == raws[i]
    ensures r.Err? ==> FirstRejected(raws, r.error)
  {
    if raws == [] then Ok([])
    else
      match Decode(raws[0])
      case Err(e) =>
        Rejected(raws[0]);
        Err(e)
      case Ok(d) =>
        Listed(d);
        var rest := DecodeTypes(raws[1..]);
        assert forall i :: 1 <= i < |raws| ==> raws[i] == raws[1..][i - 1];
        match rest
        case Err(e) =>
          FirstRejectedShift(raws, e);
          Err(e)
        case Ok(ds) => Ok([d] + ds)
  }

  /**
   * `DiaperData(types)`: a missing or empty list is refused, otherwise every element
   * must be a diaper type code.
   */
  function NewDiaperData(types: Option<seq<string>>): (r: Result<DiaperData, Registry.Error>)
    ensures (types.None? || types.value == []) ==> r == Err(Registry.EmptyDiaperTypes)
    ensures r.Ok? ==> types.Some? && |r.value.types| == |types.value| > 0
    ensures r.Ok? ==> forall i :: 0 <= i < |types.value| ==> Code(r.value.types[i]) == types.value[i]
    ensures types.Some? && types.value != [] ==>
      (r.Ok? <==> forall i :: 0 <= i < |types.value| ==> types.value[i] in Codes)
    ensures types.Some? && types.value != [] && r.Err? ==> FirstRejected(types.value, r.error)
  {
    if types.None? || types.value == [] then Err(Registry.EmptyDiaperTypes)
    else
      match DecodeTypes(types.value)
      case Ok(ds) => Ok(DiaperData(ds))
      case Err(e) => Err(e)
  }

  /** Decoding the wire form of a list of diaper types gives the list back. */
  lemma {:induction false} DecodeEncodeTypes(types: seq<DiaperType>)
    ensures DecodeTypes(EncodeTypes(types)) == Ok(types)
  {
    if types != [] {
      var raws := EncodeTypes(types);
      RoundTrip(types[0]);
      assert Decode(raws[0]) == Ok(types[0]);
      assert raws[1..] == EncodeTypes(types[1..]);
      DecodeEncodeTypes(types[1..]);
      assert [types[0]] + types[1..] == types;
    }
  }

  /** Encoding what was decoded gives the raw list back. */
  lemma EncodeDecodeTypes(raws: seq<string>)
    requires DecodeTypes(raws).Ok?
    ensures EncodeTypes(DecodeTypes(raws).value) == raws
  {
  }

  /** Rebuilding a successfully built payload from its wire form gives the same payload. */
  lemma DiaperDataRoundTrip(d: DiaperData)
    requires d.types != []
    ensures NewDiaperData(Some(EncodeTypes(d.types))) == Ok(d)
  {
    DecodeEncodeTypes(d.types);
  }

  /** Examples: an empty or missing list fails, ["pee", "poo"] keeps its order. */
  lemma Examples()
    ensures NewDiaperData(Some([])) == Err(Registry.EmptyDiaperTypes)
    ensures NewDiaperData(None) == Err(Registry.EmptyDiaperTypes)
    ensures NewDiaperData(Some(["pee", "poo"])) == Ok(DiaperData([Wet, Dirty]))
  {
    DiaperDataRoundTrip(DiaperData([Wet, Dirty]));
    assert EncodeTypes([Wet, Dirty]) == ["pee", "poo"];
  }
}
