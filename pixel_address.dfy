/** The pixel-addressing control of the captureOEMLite sample: its mode and value
    enumerations with their conversions to and from the API's float values, the
    probing that builds the two entry lists, and the two selection handlers. Pixel
    addressing is symmetric here: one value serves both directions. */
module PixelAddressing {
  import opened Sdk
  import opened Lists

  /** PXL_PIXEL_ADDRESS_MODES. */
  datatype AddressMode = Decimate | Average | Binning | Resample

  /** PXL_PIXEL_ADDRESS_VALUES. */
  datatype AddressValue = PaNone | Pa2By2 | Pa3By3 | Pa4By4 | Pa6By6 | Pa8By8

  /** The API's PIXEL_ADDRESSING_MODE_* constants, whose values the SDK header fixes. */
  datatype ModeCodes = ModeCodes(decimate: int, average: int, bin: int, resample: int)

  /** The constants are distinct (a switch over them would not compile otherwise). */
  predicate Distinct(codes: ModeCodes) {
    && codes.decimate != codes.average && codes.decimate != codes.bin && codes.decimate != codes.resample
    && codes.average != codes.bin && codes.average != codes.resample && codes.bin != codes.resample
  }

  /** C's conversion of a float to int: the fraction is dropped, towards zero. */
  function TruncateToInt(x: real): (r: int)
    ensures x >= 0.0 ==> r as real <= x < r as real + 1.0
    ensures x < 0.0 ==> r as real - 1.0 < x <= r as real
  {
    if x >= 0.0 then x.Floor else -((-x).Floor)
  }

  /** modeToApi: the API constant of a mode, as a float. */
  function ModeToApi(codes: ModeCodes, m: AddressMode): (r: real)
    ensures r == r.Floor as real
  {
    match m
    case Decimate => codes.decimate as real
    case Average => codes.average as real
    case Binning => codes.bin as real
    case Resample => codes.resample as real
  }

  /** modeFromApi: the mode whose constant equals the truncated argument; decimation for
      a value that is no mode's constant. */
  function ModeFromApi(codes: ModeCodes, apiMode: real): (r: AddressMode)
    ensures r != Decimate ==> ModeToApi(codes, r) == TruncateToInt(apiMode) as real
    ensures var t := TruncateToInt(apiMode);
            t != codes.decimate && t != codes.average && t != codes.bin && t != codes.resample ==> r == Decimate
  {
    var t := TruncateToInt(apiMode);
    if t == codes.decimate then Decimate
    else if t == codes.average then Average
    else if t == codes.bin then Binning
    else if t == codes.resample then Resample
    else Decimate
  }

  /** valueToApi: the factor of a value (1 for none), as a float. */
  function ValueToApi(v: AddressValue): (r: real)
    ensures 1.0 <= r <= 8.0 && r == r.Floor as real
  {
    match v
    case PaNone => 1.0
    case Pa2By2 => 2.0
    case Pa3By3 => 3.0
    case Pa4By4 => 4.0
    case Pa6By6 => 6.0
    case Pa8By8 => 8.0
  }

  /** valueFromApi: the value whose factor equals the truncated argument; none for 0, 1
      and every other integer, 5 and 7 among them. */
  function ValueFromApi(apiValue: real): (r: AddressValue)
    ensures var t := TruncateToInt(apiValue);
            r == PaNone <==> t != 2 && t != 3 && t != 4 && t != 6 && t != 8
    ensures r != PaNone ==> ValueToApi(r) == TruncateToInt(apiValue) as real
  {
    match TruncateToInt(apiValue)
    case 0 => PaNone
    case 1 => PaNone
    case 2 => Pa2By2
    case 3 => Pa3By3
    case 4 => Pa4By4
    case 6 => Pa6By6
    case 8 => Pa8By8
    case _ => PaNone
  }

  /** Every value survives the trip to the API and back. */
  lemma ValueRoundTrip(v: AddressValue)
    ensures ValueFromApi(ValueToApi(v)) == v
  {
    assert TruncateToInt(ValueToApi(v)) as real == ValueToApi(v);
  }

  /** Every mode survives the trip to the API and back, the constants being distinct. */
  lemma ModeRoundTrip(codes: ModeCodes, m: AddressMode)
    ensures Distinct(codes) ==> ModeFromApi(codes, ModeToApi(codes, m)) == m
  {
    assert TruncateToInt(ModeToApi(codes, m)) as real == ModeToApi(codes, m);
  }

  /** What `initialize` reads from a camera that is present: whether it supports pixel
      addressing, the range of modes and values, the current mode and value, and which
      (mode, value) pairs a `setPixelAddressValue` would accept. The float-typed
      quantities take whole-number values. */
  datatype AddressCamera = AddressCamera(supported: bool, minMode: int, maxMode: int,
                                         minValue: int, maxValue: int,
                                         currentMode: int, currentValue: int,
                                         accepts: (int, int) -> bool)

  /** The values strictly between min and max that the camera accepts in its current
      mode, and the modes strictly between min and max it accepts with the maximum
      value. */
  function ValueTest(cam: AddressCamera): int -> bool {
    c => cam.accepts(cam.currentMode, c)
  }

  function ModeTest(cam: AddressCamera): int -> bool {
    c => cam.accepts(c, cam.maxValue)
  }

  function AcceptedValues(cam: AddressCamera): seq<int> {
    Filter(Between(cam.minValue, cam.maxValue), ValueTest(cam))
  }

  function AcceptedModes(cam: AddressCamera): seq<int> {
    Filter(Between(cam.minMode, cam.maxMode), ModeTest(cam))
  }

  /** The entry a whole-number candidate becomes. */
  function ValueOf(c: int): AddressValue {
    ValueFromApi(c as real)
  }

  function ModeOf(codes: ModeCodes): int -> AddressMode {
    c => ModeFromApi(codes, c as real)
  }

  /** The pair a candidate is probed with. */
  function ValueProbe(cam: AddressCamera): int -> (int, int) {
    c => (cam.currentMode, c)
  }

  function ModeProbe(cam: AddressCamera): int -> (int, int) {
    c => (c, cam.maxValue)
  }

  function ValueEntries(cam: AddressCamera): seq<AddressValue> {
    [ValueFromApi(cam.minValue as real)]
    + MapSeq(AcceptedValues(cam), ValueOf)
    + (if cam.maxValue > cam.minValue then [ValueFromApi(cam.maxValue as real)] else [])
  }

  function ModeEntries(codes: ModeCodes, cam: AddressCamera): seq<AddressMode> {
    [ModeFromApi(codes, cam.minMode as real)]
    + MapSeq(AcceptedModes(cam), ModeOf(codes))
    + (if cam.maxMode > cam.minMode then [ModeFromApi(codes, cam.maxMode as real)] else [])
  }

  /** A probe left the camera away from its current setting. */
  predicate AddressRestoreRequired(cam: AddressCamera) {
    AnyOther(AcceptedValues(cam), cam.currentValue) || AnyOther(AcceptedModes(cam), cam.currentMode)
  }

  /** The (mode, value) pairs `initialize` sets: every value probe in the current mode,
      every mode probe at the maximum value, then the restore of the current setting
      when needed. */
  function AddressCalls(cam: AddressCamera): seq<(int, int)> {
    MapSeq(Between(cam.minValue, cam.maxValue), ValueProbe(cam))
    + MapSeq(Between(cam.minMode, cam.maxMode), ModeProbe(cam))
    + (if AddressRestoreRequired(cam) then [(cam.currentMode, cam.currentValue)] else [])
  }

  /** Some accepted candidate differs from the current setting. */
  predicate AnyOther(accepted: seq<int>, current: int) {
    exists k :: 0 <= k < |accepted| && accepted[k] != current
  }

  lemma AnyOtherSnoc(accepted: seq<int>, c: int, current: int)
    ensures AnyOther(accepted + [c], current) <==> AnyOther(accepted, current) || c != current
  {
    var s := accepted + [c];
    if AnyOther(accepted, current) {
      var k :| 0 <= k < |accepted| && accepted[k] != current;
      assert s[k] == accepted[k];
    }
    if AnyOther(s, current) {
      var k :| 0 <= k < |s| && s[k] != current;
      if k < |accepted| {
        assert accepted[k] != current;
      }
    }
    if c != current {
      assert s[|accepted|] == c;
    }
  }

  /** A probing loop of step 4: every candidate strictly between `lo` and `hi` is tried
      with the call `probe(c)`; each accepted one is appended as `toEntry(c)`, and one
      that differs from `current` makes a restore necessary. */
  method ProbeRange<E, C>(lo: int, hi: int, ok: int -> bool, toEntry: int -> E, probe: int -> C, current: int)
    returns (entries: seq<E>, calls: seq<C>, restoreRequired: bool)
    ensures entries == MapSeq(Filter(Between(lo, hi), ok), toEntry)
    ensures calls == MapSeq(Between(lo, hi), probe)
    ensures restoreRequired <==> AnyOther(Filter(Between(lo, hi), ok), current)
  {
    entries, calls, restoreRequired := [], [], false;
    ghost var accepted: seq<int> := [];
    var candidate := lo + 1;
    while candidate < hi
      invariant lo + 1 <= candidate && (candidate <= hi || candidate == lo + 1)
      invariant accepted == Filter(Between(lo, candidate), ok)
      invariant entries == MapSeq(accepted, toEntry)
      invariant calls == MapSeq(Between(lo, candidate), probe)
      invariant restoreRequired <==> AnyOther(accepted, current)
      decreases hi - candidate
    {
      ghost var before := Between(lo, candidate);
      assert Between(lo, candidate + 1) == before + [candidate];
      FilterSnoc(before, candidate, ok);
      MapSnoc(before, candidate, probe);
      calls := calls + [probe(candidate)];
      if ok(candidate) {
        if candidate != current {
          restoreRequired := true;
        }
        MapSnoc(accepted, candidate, toEntry);
        entries := entries + [toEntry(candidate)];
        AnyOtherSnoc(accepted, candidate, current);
        accepted := accepted + [candidate];
      }
      candidate := candidate + 1;
    }
    assert Between(lo, candidate) == Between(lo, hi);
  }

  /** Steps 3 to 6 of initialize for a camera that supports pixel addressing: the
      minimum mode and value, the accepted intermediate values (in the current mode)
      and modes (at the maximum value), the restore, then the maximum mode and value
      when they exceed the minimum. */
  method PopulateAddress(codes: ModeCodes, cam: AddressCamera)
    returns (modeEntries: seq<AddressMode>, valueEntries: seq<AddressValue>, calls: seq<(int, int)>)
    ensures modeEntries == ModeEntries(codes, cam)
    ensures valueEntries == ValueEntries(cam)
    ensures calls == AddressCalls(cam)
  {
    modeEntries := [ModeFromApi(codes, cam.minMode as real)];
    valueEntries := [ValueFromApi(cam.minValue as real)];
    var values, valueCalls, valueRestore :=
      ProbeRange(cam.minValue, cam.maxValue, ValueTest(cam), ValueOf, ValueProbe(cam), cam.currentValue);
    var modes, modeCalls, modeRestore :=
      ProbeRange(cam.minMode, cam.maxMode, ModeTest(cam), ModeOf(codes), ModeProbe(cam), cam.currentMode);
    valueEntries := valueEntries + values;
    modeEntries := modeEntries + modes;
    calls := valueCalls + modeCalls;
    if valueRestore || modeRestore {
      calls := calls + [(cam.currentMode, cam.currentValue)];
    }
    if cam.maxMode > cam.minMode {
      modeEntries := modeEntries + [ModeFromApi(codes, cam.maxMode as real)];
    }
    if cam.maxValue > cam.minValue {
      valueEntries := valueEntries + [ValueFromApi(cam.maxValue as real)];
    }
  }

  /** The control's entry lists and the rows last made active in its two combos. */
  class PixelAddressControl {
    var modeEntries: seq<AddressMode>
    var valueEntries: seq<AddressValue>
    var activeMode: Option<nat>
    var activeValue: Option<nat>

    constructor ()
      ensures modeEntries == [] && valueEntries == [] && activeMode == None && activeValue == None
    {
      modeEntries, valueEntries, activeMode, activeValue := [], [], None, None;
    }

    /** initialize: both lists are cleared, and filled only for a camera that supports
        pixel addressing: the minimum first, the accepted intermediate candidates, the
        maximum when it exceeds the minimum; the current setting is restored if a probe
        changed it, and the entries equal to the current mode and value become active. */
    method Initialize(codes: ModeCodes, camera: Option<AddressCamera>) returns (calls: seq<(int, int)>)
      modifies this
      ensures camera.None? || !camera.value.supported ==>
                modeEntries == [] && valueEntries == [] && calls == []
                && activeMode == old(activeMode) && activeValue == old(activeValue)
      ensures camera.Some? && camera.value.supported ==>
                var cam := camera.value;
                && modeEntries == ModeEntries(codes, cam)
                && valueEntries == ValueEntries(cam)
                && calls == AddressCalls(cam)
                && activeMode == (var m := ModeFromApi(codes, cam.currentMode as real);
                                  if m in modeEntries then FirstIndexOf(modeEntries, m) else old(activeMode))
                && activeValue == (var v := ValueFromApi(cam.currentValue as real);
                                   if v in valueEntries then FirstIndexOf(valueEntries, v) else old(activeValue))
    {
      modeEntries, valueEntries, calls := [], [], [];
      if camera.None? || !camera.value.supported {
        return;
      }
      var cam := camera.value;
      modeEntries, valueEntries, calls := PopulateAddress(codes, cam);
      var foundMode := FindFirst(modeEntries, ModeFromApi(codes, cam.currentMode as real));
      if foundMode.Some? {
        activeMode := foundMode;
      }
      var foundValue := FindFirst(valueEntries, ValueFromApi(cam.currentValue as real));
      if foundValue.Some? {
        activeValue := foundValue;
      }
    }
  }

  /** The intermediate values offered are exactly the accepted candidates strictly
      between min and max, in increasing order; likewise the modes. */
  lemma AcceptedAreProbedInOrder(cam: AddressCamera, c: int)
    ensures c in AcceptedValues(cam) <==> cam.minValue < c < cam.maxValue && cam.accepts(cam.currentMode, c)
    ensures c in AcceptedModes(cam) <==> cam.minMode < c < cam.maxMode && cam.accepts(c, cam.maxValue)
    ensures Increasing(AcceptedValues(cam)) && Increasing(AcceptedModes(cam))
  {
    FilterMembers(Between(cam.minValue, cam.maxValue), ValueTest(cam), c);
    FilterMembers(Between(cam.minMode, cam.maxMode), ModeTest(cam), c);
    BetweenIncreasing(cam.minValue, cam.maxValue);
    BetweenIncreasing(cam.minMode, cam.maxMode);
    FilterIncreasing(Between(cam.minValue, cam.maxValue), ValueTest(cam));
    FilterIncreasing(Between(cam.minMode, cam.maxMode), ModeTest(cam));
    BetweenMembers(cam.minValue, cam.maxValue, c);
    BetweenMembers(cam.minMode, cam.maxMode, c);
  }

  /** The lists start with the minimum and end with the maximum when it exceeds the
      minimum; otherwise nothing is probed and the minimum is the only entry. */
  lemma EntriesRunFromMinToMax(codes: ModeCodes, cam: AddressCamera)
    ensures ValueEntries(cam)[0] == ValueFromApi(cam.minValue as real)
    ensures cam.maxValue > cam.minValue ==> ValueEntries(cam)[|ValueEntries(cam)| - 1] == ValueFromApi(cam.maxValue as real)
    ensures cam.maxValue <= cam.minValue ==> ValueEntries(cam) == [ValueFromApi(cam.minValue as real)]
    ensures ModeEntries(codes, cam)[0] == ModeFromApi(codes, cam.minMode as real)
    ensures cam.maxMode > cam.minMode ==> ModeEntries(codes, cam)[|ModeEntries(codes, cam)| - 1] == ModeFromApi(codes, cam.maxMode as real)
    ensures cam.maxMode <= cam.minMode ==> ModeEntries(codes, cam) == [ModeFromApi(codes, cam.minMode as real)]
  {
    if cam.maxValue <= cam.minValue {
      assert AcceptedValues(cam) == [];
    }
    if cam.maxMode <= cam.minMode {
      assert AcceptedModes(cam) == [];
    }
  }

  /** The camera is set back to its current mode and value, as the last call, exactly
      when an accepted probe differed from the current setting. */
  lemma RestoreComesLast(cam: AddressCamera)
    ensures var calls := AddressCalls(cam);
            AddressRestoreRequired(cam) <==> |calls| > 0 && calls[|calls| - 1] == (cam.currentMode, cam.currentValue)
                                                      && |calls| == |Between(cam.minValue, cam.maxValue)| + |Between(cam.minMode, cam.maxMode)| + 1
  {
  }

  /** NewPixelAddressModeSelected: with a camera and both combos showing a row, sets the
      selected mode and value, unless the selected value is none. The call's
      arguments convert back to the selected entries. */
  function ModeSelected(codes: ModeCodes, cameraPresent: bool, modeEntries: seq<AddressMode>,
                        valueEntries: seq<AddressValue>, modeIndex: int, valueIndex: int): (r: Option<(real, real)>)
    requires modeIndex < |modeEntries| && valueIndex < |valueEntries|
    ensures r.Some? <==> cameraPresent && modeIndex >= 0 && valueIndex >= 0 && valueEntries[valueIndex] != PaNone
    ensures r.Some? && Distinct(codes) ==>
              ModeFromApi(codes, r.value.0) == modeEntries[modeIndex] && ValueFromApi(r.value.1) == valueEntries[valueIndex]
  {
    if !cameraPresent then None
    else if modeIndex < 0 || valueIndex < 0 then None
    else if valueEntries[valueIndex] == PaNone then None
    else
      ModeRoundTrip(codes, modeEntries[modeIndex]);
      ValueRoundTrip(valueEntries[valueIndex]);
      Some((ModeToApi(codes, modeEntries[modeIndex]), ValueToApi(valueEntries[valueIndex])))
  }

  /** NewPixelAddressValueSelected: the same, but a selected value of none is set too. */
  function ValueSelected(codes: ModeCodes, cameraPresent: bool, modeEntries: seq<AddressMode>,
                         valueEntries: seq<AddressValue>, modeIndex: int, valueIndex: int): (r: Option<(real, real)>)
    requires modeIndex < |modeEntries| && valueIndex < |valueEntries|
    ensures r.Some? <==> cameraPresent && modeIndex >= 0 && valueIndex >= 0
    ensures r.Some? && Distinct(codes) ==>
              ModeFromApi(codes, r.value.0) == modeEntries[modeIndex] && ValueFromApi(r.value.1) == valueEntries[valueIndex]
  {
    if !cameraPresent then None
    else if modeIndex < 0 || valueIndex < 0 then None
    else
      ModeRoundTrip(codes, modeEntries[modeIndex]);
      ValueRoundTrip(valueEntries[valueIndex]);
      Some((ModeToApi(codes, modeEntries[modeIndex]), ValueToApi(valueEntries[valueIndex])))
  }
}
