/** Regions of interest: the PXL_ROI value with its comparison operators, and the ROI
    control that offers the camera's supported ROIs, probing a table of standard sizes. */
module Rois {
  import opened Sdk
  import opened Lists

  /** PXL_ROI: a width and a height in pixels. */
  datatype Roi = Roi(width: int, height: int)

  /** operator==: widths equal and heights equal, which is equality of the two values. */
  function RoiEquals(a: Roi, b: Roi): (r: bool)
    ensures r <==> a == b
  {
    b.width == a.width && b.height == a.height
  }

  /** operator!=: the negation of operator==. */
  function RoiDiffers(a: Roi, b: Roi): (r: bool)
    ensures r <==> a != b
  {
    !RoiEquals(a, b)
  }

  /** The standard sizes the control tries, smallest first. */
  const STANDARD_ROIS: seq<Roi> := [
    Roi(32, 32), Roi(64, 64), Roi(128, 128), Roi(256, 256), Roi(320, 240),
    Roi(640, 480), Roi(800, 600), Roi(1024, 768), Roi(1280, 1024), Roi(1600, 1200),
    Roi(1920, 1080), Roi(2560, 1440), Roi(4096, 2160)
  ]

  /** The camera calls `initialize` makes that change camera state. */
  datatype RoiCall = SetRoi(roi: Roi) | SetFrameRateAuto | SetFrameRate(rate: real)

  function SetRoiCalls(rois: seq<Roi>): (calls: seq<RoiCall>)
    ensures |calls| == |rois|
    ensures forall i :: 0 <= i < |rois| ==> calls[i] == SetRoi(rois[i])
  {
    if rois == [] then [] else SetRoiCalls(rois[..|rois| - 1]) + [SetRoi(rois[|rois| - 1])]
  }

  /** What `initialize` reads from a camera that is present: whether it has an ROI
      feature, the range and current ROI, the frame-rate settings, and which ROIs a
      `setRoiValue` would accept. */
  datatype RoiCamera = RoiCamera(supportsRoi: bool, min: Roi, max: Roi, current: Roi,
                                 autoFrameRate: bool, frameRate: real, accepts: Roi -> bool)

  /** More than one ROI is possible: the standard table is worth probing. */
  predicate Settable(cam: RoiCamera) {
    cam.min.width < cam.max.width && cam.min.height < cam.max.height
  }

  /** The standard ROIs the camera accepted, in table order. */
  function ProbedRois(cam: RoiCamera): seq<Roi> {
    if Settable(cam) then Filter(STANDARD_ROIS, cam.accepts) else []
  }

  /** Whether step 4 adds the maximum ROI: it is not already the last entry. */
  predicate AddsMax(cam: RoiCamera) {
    var p := ProbedRois(cam);
    p == [] || p[|p| - 1] != cam.max
  }

  /** The entries after initialisation: the probed ROIs, then the maximum if it is not
      already last. */
  function RoiEntries(cam: RoiCamera): (r: seq<Roi>)
    ensures |r| > 0 && r[|r| - 1] == cam.max
  {
    if AddsMax(cam) then ProbedRois(cam) + [cam.max] else ProbedRois(cam)
  }

  /** Some ROI of `s` differs from `c`. */
  predicate AnyDiffers(s: seq<Roi>, c: Roi) {
    s != [] && (AnyDiffers(s[..|s| - 1], c) || s[|s| - 1] != c)
  }

  lemma {:induction false} AnyDiffersMeans(s: seq<Roi>, c: Roi)
    ensures AnyDiffers(s, c) <==> exists i :: 0 <= i < |s| && s[i] != c
  {
    if s != [] {
      var init := s[..|s| - 1];
      AnyDiffersMeans(init, c);
      if AnyDiffers(init, c) {
        var i :| 0 <= i < |init| && init[i] != c;
        assert s[i] != c;
      }
      if exists i :: 0 <= i < |s| && s[i] != c {
        var i :| 0 <= i < |s| && s[i] != c;
        if i < |init| {
          assert init[i] != c;
        }
      }
    }
  }

  /** The camera's ROI was changed on the way: an accepted standard ROI or the added
      maximum differs from the current ROI. */
  predicate RoiRestoreRequired(cam: RoiCamera) {
    var p := ProbedRois(cam);
    AnyDiffers(p, cam.current) || (AddsMax(cam) && cam.max != cam.current)
  }

  /** The camera calls of `initialize`: one `setRoiValue` per standard ROI when probing,
      then, if needed, the restore of the current ROI and of the frame-rate setting. */
  function RoiCalls(cam: RoiCamera): seq<RoiCall> {
    (if Settable(cam) then SetRoiCalls(STANDARD_ROIS) else [])
    + (if RoiRestoreRequired(cam)
       then [SetRoi(cam.current), if cam.autoFrameRate then SetFrameRateAuto else SetFrameRate(cam.frameRate)]
       else [])
  }

  /** The combo box and its entry list. `comboRows` holds, row by row, the ROI each
      combo row shows (as its "%d x %d" text); `active` is the row last made active. */
  class RoiControl {
    var entries: seq<Roi>
    var comboRows: seq<Roi>
    var active: Option<nat>

    constructor ()
      ensures entries == [] && comboRows == [] && active == None
    {
      entries, comboRows, active := [], [], None;
    }

    /** greyAll: the combo loses all its rows. */
    method GreyAll()
      modifies this
      ensures comboRows == [] && entries == old(entries) && active == old(active)
    {
      comboRows := [];
    }

    /** initialize: with no camera, or no ROI feature, the entries are just cleared.
        Otherwise the rows are inserted at the front of the combo, position by
        position, so that row i shows entry i. */
    method Initialize(camera: Option<RoiCamera>) returns (calls: seq<RoiCall>)
      modifies this
      ensures camera.None? || !camera.value.supportsRoi ==>
                entries == [] && comboRows == old(comboRows) && active == old(active) && calls == []
      ensures camera.Some? && camera.value.supportsRoi ==>
                var cam := camera.value;
                && entries == RoiEntries(cam)
                && comboRows == entries + old(comboRows)
                && calls == RoiCalls(cam)
                && active == (if cam.current in entries then FirstIndexOf(entries, cam.current) else old(active))
    {
      entries := [];
      calls := [];
      if camera.None? || !camera.value.supportsRoi {
        return;
      }
      var cam := camera.value;
      entries, comboRows, calls := PopulateRois(cam, comboRows);
      var found := FindFirst(entries, cam.current);
      if found.Some? {
        active := found;
      }
    }
  }

  /** Steps 2 to 5 of initialize for a camera with an ROI feature: probe the standard
      ROIs when the range allows, add the maximum unless it is already last, and
      restore the camera's ROI and frame rate if either step changed them. */
  method PopulateRois(cam: RoiCamera, rows0: seq<Roi>)
    returns (entries: seq<Roi>, rows: seq<Roi>, calls: seq<RoiCall>)
    ensures entries == RoiEntries(cam)
    ensures rows == entries + rows0
    ensures calls == RoiCalls(cam)
  {
    entries, rows, calls := [], rows0, [];
    var restoreRequired := false;
    if cam.min.width < cam.max.width && cam.min.height < cam.max.height {
      entries, rows, calls, restoreRequired := ProbeStandardRois(STANDARD_ROIS, cam, rows0);
    }
    var numRoisSupported := |entries|;
    if entries == [] || RoiDiffers(entries[|entries| - 1], cam.max) {
      if RoiDiffers(cam.max, cam.current) {
        restoreRequired := true;
      }
      InsertRow(entries, rows0, cam.max);
      rows := rows[..numRoisSupported] + [cam.max] + rows[numRoisSupported..];
      numRoisSupported := numRoisSupported + 1;
      entries := entries + [cam.max];
    }
    if restoreRequired {
      calls := calls + [SetRoi(cam.current)];
      if cam.autoFrameRate {
        calls := calls + [SetFrameRateAuto];
      } else {
        calls := calls + [SetFrameRate(cam.frameRate)];
      }
    }
  }

  /** Step 3 of initialize: try every ROI of `table` in order; each accepted one
      becomes the next entry and the next combo row, inserted at position
      `numRoisSupported` in front of the rows the combo already had. */
  method ProbeStandardRois(table: seq<Roi>, cam: RoiCamera, rows0: seq<Roi>)
    returns (probed: seq<Roi>, rows: seq<Roi>, calls: seq<RoiCall>, restoreRequired: bool)
    ensures probed == Filter(table, cam.accepts)
    ensures rows == probed + rows0
    ensures calls == SetRoiCalls(table)
    ensures restoreRequired == AnyDiffers(probed, cam.current)
  {
    probed, rows, calls, restoreRequired := [], rows0, [], false;
    var numRoisSupported := 0;
    var i := 0;
    while i < |table|
      invariant 0 <= i <= |table|
      invariant probed == Filter(table[..i], cam.accepts)
      invariant numRoisSupported == |probed|
      invariant rows == probed + rows0
      invariant calls == SetRoiCalls(table[..i])
      invariant restoreRequired == AnyDiffers(probed, cam.current)
    {
      var candidate := table[i];
      assert table[..i + 1] == table[..i] + [candidate];
      assert table[..i + 1][..i] == table[..i];
      FilterSnoc(table[..i], candidate, cam.accepts);
      calls := calls + [SetRoi(candidate)];
      if cam.accepts(candidate) {
        if RoiDiffers(candidate, cam.current) {
          restoreRequired := true;
        }
        InsertRow(probed, rows0, candidate);
        rows := rows[..numRoisSupported] + [candidate] + rows[numRoisSupported..];
        numRoisSupported := numRoisSupported + 1;
        ghost var before := probed;
        probed := probed + [candidate];
        assert probed[..|probed| - 1] == before;
      }
      i := i + 1;
    }
    assert table[..i] == table;
  }

  /** Inserting a row at the position equal to the number of entries keeps row i
      showing entry i, with the older rows after them. */
  lemma InsertRow(entries: seq<Roi>, rows0: seq<Roi>, x: Roi)
    ensures var rows := entries + rows0;
            rows[..|entries|] + [x] + rows[|entries|..] == (entries + [x]) + rows0
  {
    var rows := entries + rows0;
    assert rows[..|entries|] == entries;
    assert rows[|entries|..] == rows0;
  }

  /** The probed entries are exactly the accepted standard ROIs, and only when the range
      allows more than one ROI. */
  lemma ProbedAreAcceptedStandard(cam: RoiCamera, r: Roi)
    ensures r in ProbedRois(cam) <==> Settable(cam) && r in STANDARD_ROIS && cam.accepts(r)
  {
    FilterMembers(STANDARD_ROIS, cam.accepts, r);
  }

  /** Without a restore, every camera call was a probe of a standard ROI; with one, the
      calls end with the current ROI and then the frame-rate setting. */
  lemma RestoreCallsComeLast(cam: RoiCamera)
    ensures var calls := RoiCalls(cam);
            && (!RoiRestoreRequired(cam) ==> forall c :: c in calls ==> c.SetRoi? && c.roi in STANDARD_ROIS)
            && (RoiRestoreRequired(cam) ==>
                  |calls| >= 2 && calls[|calls| - 2] == SetRoi(cam.current)
                  && calls[|calls| - 1] == (if cam.autoFrameRate then SetFrameRateAuto else SetFrameRate(cam.frameRate)))
  {
    var calls := RoiCalls(cam);
    if !RoiRestoreRequired(cam) {
      forall c | c in calls
        ensures c.SetRoi? && c.roi in STANDARD_ROIS
      {
        var k :| 0 <= k < |calls| && calls[k] == c;
        assert c == SetRoi(STANDARD_ROIS[k]);
      }
    }
  }

  /** A camera that is already at its maximum ROI and accepts no standard ROI is left
      alone: its only entry is the maximum, and no call changes it. */
  lemma FixedCameraNeedsNoRestore(cam: RoiCamera)
    requires !Settable(cam) && cam.current == cam.max
    ensures RoiEntries(cam) == [cam.max]
    ensures RoiCalls(cam) == []
  {
    assert ProbedRois(cam) == [];
  }
}
