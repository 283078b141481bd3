/** The getCameraFeature sample: decoding a feature's flags, trigger type and polarity
    into text, the report printed for one feature, and the search for a feature in the
    list of all of them. Printed output is the sequence of lines the sample writes;
    numbers stay values rather than formatted text. */
module CameraFeatures {
  import opened Sdk
  import opened Lists

  /** The flags a CAMERA_FEATURE can carry, in the order they are reported. */
  datatype FeatureFlag = Presence | ReadOnly | DescSupported | Manual | Auto | OnePush | Off

  const FLAG_ORDER: seq<FeatureFlag> := [Presence, ReadOnly, DescSupported, Manual, Auto, OnePush, Off]

  /** The bit of each flag; the FEATURE_FLAG_* values come from the SDK's header. */
  datatype FlagMasks = FlagMasks(presence: bv32, readOnly: bv32, descSupported: bv32, manual: bv32,
                                 auto: bv32, onePush: bv32, off: bv32)

  function Mask(m: FlagMasks, f: FeatureFlag): bv32 {
    match f
    case Presence => m.presence
    case ReadOnly => m.readOnly
    case DescSupported => m.descSupported
    case Manual => m.manual
    case Auto => m.auto
    case OnePush => m.onePush
    case Off => m.off
  }

  /** The line printed for a set flag. */
  function Message(f: FeatureFlag): string {
    match f
    case Presence => "FEATURE_FLAG_PRESENCE - feature is supported"
    case ReadOnly => "FEATURE_FLAG_READ_ONLY - feature can only be read"
    case DescSupported => "FEATURE_FLAG_DESC_SUPPORTED - feature can be saved to different descriptors"
    case Manual => "FEATURE_FLAG_MANUAL - feature controlled by external app"
    case Auto => "FEATURE_FLAG_AUTO - feature automatically controlled by camera"
    case OnePush => "FEATURE_FLAG_ONEPUSH - camera sets feature only once, then returns to manual operation"
    case Off => "FEATURE_FLAG_OFF - feature is set to last known state and cannot be controlled by app"
  }

  predicate IsSet(m: FlagMasks, flags: bv32, f: FeatureFlag) {
    flags & Mask(m, f) != 0
  }

  /** The test for a set flag, as a function value. */
  function SetIn(m: FlagMasks, flags: bv32): FeatureFlag -> bool {
    f => IsSet(m, flags, f)
  }

  /** The line for flag `f` when `keep` picks the reported flags and `msg` gives their
      text: the text if the flag is picked, nothing otherwise. */
  function Pick(keep: FeatureFlag -> bool, msg: FeatureFlag -> string, f: FeatureFlag): seq<string> {
    if keep(f) then [msg(f)] else []
  }

  function Line(m: FlagMasks, flags: bv32, f: FeatureFlag): seq<string> {
    Pick(SetIn(m, flags), Message, f)
  }

  /** DecodeFeatureFlags: one line per set flag, tested one after the other, then an
      empty line. */
  function DecodeFeatureFlags(m: FlagMasks, flags: bv32): (lines: seq<string>)
    ensures |lines| >= 1 && lines[|lines| - 1] == ""
  {
    Line(m, flags, Presence) + Line(m, flags, ReadOnly) + Line(m, flags, DescSupported)
      + Line(m, flags, Manual) + Line(m, flags, Auto) + Line(m, flags, OnePush) + Line(m, flags, Off)
      + [""]
  }

  /** The texts of the flags of `order` that `keep` picks, in that order. */
  function Picked(keep: FeatureFlag -> bool, msg: FeatureFlag -> string, order: seq<FeatureFlag>): seq<string> {
    MapSeq(Filter(order, keep), msg)
  }

  /** The messages of the set flags among `order`, in that order. */
  function Reported(m: FlagMasks, flags: bv32, order: seq<FeatureFlag>): seq<string> {
    Picked(SetIn(m, flags), Message, order)
  }

  lemma PickedSnoc(keep: FeatureFlag -> bool, msg: FeatureFlag -> string, order: seq<FeatureFlag>, f: FeatureFlag)
    ensures Picked(keep, msg, order + [f]) == Picked(keep, msg, order) + Pick(keep, msg, f)
  {
    FilterSnoc(order, f, keep);
    var kept := Filter(order, keep);
    if keep(f) {
      MapSnoc(kept, f, msg);
    } else {
      assert Filter(order + [f], keep) == kept;
    }
  }

  /** Testing the flags one after the other in the fixed order picks them as a filter
      over that order does. */
  lemma PickedInFlagOrder(keep: FeatureFlag -> bool, msg: FeatureFlag -> string)
    ensures Picked(keep, msg, FLAG_ORDER)
            == Pick(keep, msg, Presence) + Pick(keep, msg, ReadOnly) + Pick(keep, msg, DescSupported)
               + Pick(keep, msg, Manual) + Pick(keep, msg, Auto) + Pick(keep, msg, OnePush) + Pick(keep, msg, Off)
  {
    var o0: seq<FeatureFlag> := [];
    var o1 := o0 + [Presence];
    var o2 := o1 + [ReadOnly];
    var o3 := o2 + [DescSupported];
    var o4 := o3 + [Manual];
    var o5 := o4 + [Auto];
    var o6 := o5 + [OnePush];
    var o7 := o6 + [Off];
    PickedSnoc(keep, msg, o0, Presence);
    PickedSnoc(keep, msg, o1, ReadOnly);
    PickedSnoc(keep, msg, o2, DescSupported);
    PickedSnoc(keep, msg, o3, Manual);
    PickedSnoc(keep, msg, o4, Auto);
    PickedSnoc(keep, msg, o5, OnePush);
    PickedSnoc(keep, msg, o6, Off);
    assert Picked(keep, msg, o0) == [];
    var l1, l2, l3, l4 := Pick(keep, msg, Presence), Pick(keep, msg, ReadOnly), Pick(keep, msg, DescSupported), Pick(keep, msg, Manual);
    var l5, l6, l7 := Pick(keep, msg, Auto), Pick(keep, msg, OnePush), Pick(keep, msg, Off);
    assert Picked(keep, msg, o1) == l1;
    assert Picked(keep, msg, o2) == l1 + l2;
    assert Picked(keep, msg, o3) == l1 + l2 + l3;
    assert Picked(keep, msg, o4) == l1 + l2 + l3 + l4;
    assert Picked(keep, msg, o5) == l1 + l2 + l3 + l4 + l5;
    assert Picked(keep, msg, o6) == l1 + l2 + l3 + l4 + l5 + l6;
    assert o7 == FLAG_ORDER;
  }

  /** The decoded lines are the messages of exactly the set flags, in the fixed order
      PRESENCE, READ_ONLY, DESC_SUPPORTED, MANUAL, AUTO, ONEPUSH, OFF, then an empty
      line. */
  lemma DecodeReportsSetFlagsInOrder(m: FlagMasks, flags: bv32)
    ensures DecodeFeatureFlags(m, flags) == Reported(m, flags, FLAG_ORDER) + [""]
  {
    PickedInFlagOrder(SetIn(m, flags), Message);
  }

  /** A flag is reported exactly when its bit is set, and each at most once. */
  lemma ReportedFlagsAreTheSetOnes(m: FlagMasks, flags: bv32, f: FeatureFlag)
    ensures f in Filter(FLAG_ORDER, SetIn(m, flags)) <==> IsSet(m, flags, f)
    ensures NoDuplicates(Filter(FLAG_ORDER, SetIn(m, flags)))
  {
    FilterMembers(FLAG_ORDER, SetIn(m, flags), f);
    assert f in FLAG_ORDER by {
      match f
      case Presence => assert FLAG_ORDER[0] == f;
      case ReadOnly => assert FLAG_ORDER[1] == f;
      case DescSupported => assert FLAG_ORDER[2] == f;
      case Manual => assert FLAG_ORDER[3] == f;
      case Auto => assert FLAG_ORDER[4] == f;
      case OnePush => assert FLAG_ORDER[5] == f;
      case Off => assert FLAG_ORDER[6] == f;
    }
    FilterNoDuplicates(FLAG_ORDER, SetIn(m, flags));
  }

  /** The trigger type codes; the TRIGGER_TYPE_* values come from the SDK's header. */
  datatype TriggerTypes = TriggerTypes(freeRunning: int, software: int, hardware: int)

  predicate Distinct(codes: TriggerTypes) {
    codes.freeRunning != codes.software && codes.freeRunning != codes.hardware && codes.software != codes.hardware
  }

  /** The text for an unknown trigger type, misspelt as the sample prints it. */
  const UNKNOWN_TRIGGER: string := "Unkown trigger type"

  /** DecodeTriggerType: each known type's name, and a fixed text for any other value. */
  function DecodeTriggerType(codes: TriggerTypes, triggerType: int): (r: string)
    ensures Distinct(codes) ==> (r == "TRIGGER_TYPE_FREE_RUNNING" <==> triggerType == codes.freeRunning)
    ensures Distinct(codes) ==> (r == "TRIGGER_TYPE_SOFTWARE" <==> triggerType == codes.software)
    ensures Distinct(codes) ==> (r == "TRIGGER_TYPE_HARDWARE" <==> triggerType == codes.hardware)
    ensures r == UNKNOWN_TRIGGER <==> triggerType !in {codes.freeRunning, codes.software, codes.hardware}
  {
    if triggerType == codes.freeRunning then "TRIGGER_TYPE_FREE_RUNNING"
    else if triggerType == codes.software then "TRIGGER_TYPE_SOFTWARE"
    else if triggerType == codes.hardware then "TRIGGER_TYPE_HARDWARE"
    else UNKNOWN_TRIGGER
  }

  const UNKNOWN_POLARITY: string := "Unkown polarity"

  /** DecodePolarity: 0 is negative, 1 positive, anything else unknown. */
  function DecodePolarity(polarity: int): (r: string)
    ensures r == "negative polarity" <==> polarity == 0
    ensures r == "positive polarity" <==> polarity == 1
    ensures r == UNKNOWN_POLARITY <==> polarity != 0 && polarity != 1
  {
    if polarity == 0 then "negative polarity"
    else if polarity == 1 then "positive polarity"
    else UNKNOWN_POLARITY
  }

  /** The limits of one parameter of a feature. */
  datatype ParamLimits = ParamLimits(minValue: real, maxValue: real)

  /** A CAMERA_FEATURE: its id, flags and one limit pair per parameter; the parameter
      count is the length of `params`. */
  datatype CameraFeature = CameraFeature(featureId: U32, flags: bv32, params: seq<ParamLimits>)

  /** The lines the sample prints, with their numbers kept as values. */
  datatype ReportLine =
    | Banner(featureId: U32)
    | NotSupported(featureId: U32)
    | NotFound(featureId: U32)
    | ParameterCount(count: nat)
    | Text(text: string)
    | ParameterIndex(index: nat)
    | MinValue(minValue: real)
    | MaxValue(maxValue: real)

  function AsLine(s: string): ReportLine {
    Text(s)
  }

  /** The three lines for parameter `i`. */
  function ParameterBlock(i: nat, p: ParamLimits): seq<ReportLine> {
    [ParameterIndex(i), MinValue(p.minValue), MaxValue(p.maxValue)]
  }

  /** The lines for all parameters, in order. */
  function ParameterLines(params: seq<ParamLimits>): (r: seq<ReportLine>)
    ensures |r| == 3 * |params|
  {
    if params == [] then []
    else ParameterLines(params[..|params| - 1]) + ParameterBlock(|params| - 1, params[|params| - 1])
  }

  /** Parameter `i` is reported in lines 3i to 3i+2: its index, minimum and maximum. */
  lemma {:induction false} ParameterLinesAt(params: seq<ParamLimits>, i: nat)
    requires i < |params|
    ensures ParameterLines(params)[3 * i..3 * i + 3] == ParameterBlock(i, params[i])
  {
    var n := |params| - 1;
    var before := ParameterLines(params[..n]);
    assert ParameterLines(params) == before + ParameterBlock(n, params[n]);
    assert |before| == 3 * n;
    if i < n {
      ParameterLinesAt(params[..n], i);
      assert ParameterLines(params)[3 * i..3 * i + 3] == before[3 * i..3 * i + 3];
    }
  }

  /** The report for one feature: a line saying it is not supported when the presence
      flag is clear; otherwise the parameter count, the decoded flags and each
      parameter's limits. */
  function FeatureReport(m: FlagMasks, feature: CameraFeature): seq<ReportLine> {
    if !IsSet(m, feature.flags, Presence) then [NotSupported(feature.featureId)]
    else [ParameterCount(|feature.params|), Text("CAMERA_FEATURE flags:")]
         + MapSeq(DecodeFeatureFlags(m, feature.flags), AsLine) + ParameterLines(feature.params)
  }

  /** PrintCameraFeature, with the parameter loop. */
  method PrintCameraFeature(m: FlagMasks, feature: CameraFeature) returns (lines: seq<ReportLine>)
    ensures lines == FeatureReport(m, feature)
  {
    if !IsSet(m, feature.flags, Presence) {
      return [NotSupported(feature.featureId)];
    }
    lines := [ParameterCount(|feature.params|), Text("CAMERA_FEATURE flags:")]
             + MapSeq(DecodeFeatureFlags(m, feature.flags), AsLine);
    ghost var head := lines;
    var i := 0;
    while i < |feature.params|
      invariant 0 <= i <= |feature.params|
      invariant lines == head + ParameterLines(feature.params[..i])
    {
      var p := feature.params[i];
      assert feature.params[..i + 1][..i] == feature.params[..i];
      lines := lines + [ParameterIndex(i), MinValue(p.minValue), MaxValue(p.maxValue)];
      i := i + 1;
    }
    assert feature.params[..i] == feature.params;
  }

  /** An unsupported feature's report is the single not-supported line; a supported
      one lists every parameter's limits, in order, after the decoded flags. */
  lemma FeatureReportShape(m: FlagMasks, feature: CameraFeature, i: nat)
    requires i < |feature.params|
    ensures !IsSet(m, feature.flags, Presence) ==> FeatureReport(m, feature) == [NotSupported(feature.featureId)]
    ensures IsSet(m, feature.flags, Presence) ==>
              var k := 2 + |DecodeFeatureFlags(m, feature.flags)| + 3 * i;
              |FeatureReport(m, feature)| == 2 + |DecodeFeatureFlags(m, feature.flags)| + 3 * |feature.params|
              && FeatureReport(m, feature)[k..k + 3] == ParameterBlock(i, feature.params[i])
  {
    if IsSet(m, feature.flags, Presence) {
      var flagLines := DecodeFeatureFlags(m, feature.flags);
      var head := [ParameterCount(|feature.params|), Text("CAMERA_FEATURE flags:")] + MapSeq(flagLines, AsLine);
      assert |head| == 2 + |flagLines|;
      assert FeatureReport(m, feature) == head + ParameterLines(feature.params);
      BlockAfterHead(head, feature.params, i);
    }
  }

  /** Whatever precedes the parameter lines, parameter `i`'s block follows it at 3i. */
  lemma BlockAfterHead(head: seq<ReportLine>, params: seq<ParamLimits>, i: nat)
    requires i < |params|
    ensures |head + ParameterLines(params)| == |head| + 3 * |params|
    ensures (head + ParameterLines(params))[|head| + 3 * i..|head| + 3 * i + 3] == ParameterBlock(i, params[i])
  {
    ParameterLinesAt(params, i);
    var lines := ParameterLines(params);
    assert (head + lines)[|head| + 3 * i..|head| + 3 * i + 3] == lines[3 * i..3 * i + 3];
  }

  /** The position of the first feature with id `featureId`, or -1 when none has it. */
  function FeatureIndex(features: seq<CameraFeature>, featureId: U32): (r: int)
    ensures -1 <= r < |features|
    ensures r == -1 <==> forall k :: 0 <= k < |features| ==> features[k].featureId != featureId
    ensures r >= 0 ==> features[r].featureId == featureId
                       && forall k :: 0 <= k < r ==> features[k].featureId != featureId
  {
    if features == [] then -1
    else if features[0].featureId == featureId then 0
    else
      var rest := FeatureIndex(features[1..], featureId);
      if rest == -1 then -1 else rest + 1
  }

  /** The search loop of PrintFeatureParameterInfo2: it stops at the first match. */
  method FindFeature(features: seq<CameraFeature>, featureId: U32) returns (featureIndex: int)
    ensures featureIndex == FeatureIndex(features, featureId)
  {
    featureIndex := -1;
    var i := 0;
    while i < |features|
      invariant 0 <= i <= |features|
      invariant forall k :: 0 <= k < i ==> features[k].featureId != featureId
      invariant featureIndex == -1
    {
      if features[i].featureId == featureId {
        featureIndex := i;
        break;
      }
      i := i + 1;
    }
  }

  /** What the two PxLGetCameraFeatures calls and the allocation between them yield:
      whether the size query succeeds, whether the buffer is obtained, and the features
      read into it, None when the second call fails. */
  datatype AllFeaturesQuery = AllFeaturesQuery(sizeQueryOk: bool, bufferObtained: bool, features: Option<seq<CameraFeature>>)

  /** The lines PrintFeatureParameterInfo2 prints: the banner, then, once all features are
      read, the report of the first one with the id, or a not-found line. */
  function Info2Lines(m: FlagMasks, q: AllFeaturesQuery, featureId: U32): seq<ReportLine> {
    if !q.sizeQueryOk || !q.bufferObtained || q.features.None? then [Banner(featureId)]
    else
      var index := FeatureIndex(q.features.value, featureId);
      if index == -1 then [Banner(featureId), NotFound(featureId)]
      else [Banner(featureId)] + FeatureReport(m, q.features.value[index])
  }

  /** The buffer is still held on return: all features were read and none has the id. */
  predicate LeavesBufferHeld(q: AllFeaturesQuery, featureId: U32) {
    q.sizeQueryOk && q.bufferObtained && q.features.Some?
    && forall k :: 0 <= k < |q.features.value| ==> q.features.value[k].featureId != featureId
  }

  /** PrintFeatureParameterInfo2 as written: the not-found path returns before the buffer
      is freed. `leaked` says whether the buffer is still held on return. */
  method PrintFeatureParameterInfo2(m: FlagMasks, q: AllFeaturesQuery, featureId: U32)
    returns (lines: seq<ReportLine>, leaked: bool)
    ensures lines == Info2Lines(m, q, featureId)
    ensures leaked <==> LeavesBufferHeld(q, featureId)
  {
    lines, leaked := [Banner(featureId)], false;
    if !q.sizeQueryOk || !q.bufferObtained {
      return;
    }
    leaked := true;
    if q.features.Some? {
      var featureIndex := FindFeature(q.features.value, featureId);
      if featureIndex == -1 {
        lines := lines + [NotFound(featureId)];
        return;
      }
      var report := PrintCameraFeature(m, q.features.value[featureIndex]);
      lines := lines + report;
    }
    leaked := false;
  }

  /** PrintFeatureParameterInfo2 with the buffer freed on the not-found path as well:
      the same lines, and no path keeps the buffer. */
  method PrintFeatureParameterInfo2Freed(m: FlagMasks, q: AllFeaturesQuery, featureId: U32)
    returns (lines: seq<ReportLine>, leaked: bool)
    ensures lines == Info2Lines(m, q, featureId)
    ensures !leaked
  {
    lines, leaked := [Banner(featureId)], false;
    if !q.sizeQueryOk || !q.bufferObtained {
      return;
    }
    leaked := true;
    if q.features.Some? {
      var featureIndex := FindFeature(q.features.value, featureId);
      if featureIndex == -1 {
        lines := lines + [NotFound(featureId)];
      } else {
        var report := PrintCameraFeature(m, q.features.value[featureIndex]);
        lines := lines + report;
      }
    }
    leaked := false;
  }

  /** A camera that reports no feature with the id makes the sample keep its buffer:
      an empty list read successfully is such a case. */
  lemma MissingFeatureKeepsBuffer(m: FlagMasks, featureId: U32)
    ensures LeavesBufferHeld(AllFeaturesQuery(true, true, Some([])), featureId)
    ensures Info2Lines(m, AllFeaturesQuery(true, true, Some([])), featureId) == [Banner(featureId), NotFound(featureId)]
  {
  }
}
