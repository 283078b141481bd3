/** The pixel-format control of the captureOEMLite sample: the probing that builds its
    entry list. The conversion `fromApi` from the API's pixel-format value to the
    control's own format enumeration is a parameter. The camera accepts both a generic
    colour description and the specific ones, so several API values can convert to the
    same entry; the control keeps each entry once. */
module PixelFormatControl {
  import opened Sdk
  import opened Lists

  /** What `initialize` reads from a camera that is present: whether it has a pixel
      format feature, the range and current value, and which values a `setValue` would
      accept. The float-typed quantities take whole-number values. */
  datatype FormatCamera = FormatCamera(supported: bool, min: int, max: int, current: int, accepts: int -> bool)

  /** The state of the candidate loop: the entries so far, the values set on the camera,
      and whether the current value must be restored. */
  datatype FormatScan = FormatScan(entries: seq<int>, calls: seq<int>, restoreRequired: bool)

  /** The entry for the minimum, then the candidates `cands` in order: one whose entry is
      already present is skipped without a call; any other is set on the camera and,
      when accepted, appended. The entries stay free of duplicates, and a restore is due
      exactly when a candidate added an entry. */
  function ScanFormats(fromApi: int -> int, cam: FormatCamera, cands: seq<int>): (s: FormatScan)
    ensures |s.entries| >= 1 && s.entries[0] == fromApi(cam.min)
    ensures NoDuplicates(s.entries)
    ensures s.restoreRequired <==> |s.entries| > 1
  {
    if cands == [] then FormatScan([fromApi(cam.min)], [], false)
    else
      var s := ScanFormats(fromApi, cam, cands[..|cands| - 1]);
      var c := cands[|cands| - 1];
      if fromApi(c) in s.entries then s
      else if cam.accepts(c) then FormatScan(s.entries + [fromApi(c)], s.calls + [c], true)
      else FormatScan(s.entries, s.calls + [c], s.restoreRequired)
  }

  function ProbeScan(fromApi: int -> int, cam: FormatCamera): FormatScan {
    ScanFormats(fromApi, cam, Between(cam.min, cam.max))
  }

  /** The entries after initialisation: the scan's, then the maximum's entry when the
      maximum exceeds the minimum and its entry is not already present. */
  function FormatEntries(fromApi: int -> int, cam: FormatCamera): seq<int> {
    var s := ProbeScan(fromApi, cam);
    if cam.max > cam.min && fromApi(cam.max) !in s.entries then s.entries + [fromApi(cam.max)] else s.entries
  }

  /** The values set on the camera: the probes, then the current value when a probe was
      accepted. */
  function FormatCalls(fromApi: int -> int, cam: FormatCamera): seq<int> {
    var s := ProbeScan(fromApi, cam);
    s.calls + (if s.restoreRequired then [cam.current] else [])
  }

  /** The candidate loop of initialize. */
  method ProbeFormats(fromApi: int -> int, cam: FormatCamera) returns (s: FormatScan)
    ensures s == ProbeScan(fromApi, cam)
  {
    var entries := [fromApi(cam.min)];
    var calls: seq<int> := [];
    var restoreRequired := false;
    var candidate := cam.min + 1;
    while candidate < cam.max
      invariant cam.min + 1 <= candidate && (candidate <= cam.max || candidate == cam.min + 1)
      invariant FormatScan(entries, calls, restoreRequired) == ScanFormats(fromApi, cam, Between(cam.min, candidate))
      decreases cam.max - candidate
    {
      ghost var before := Between(cam.min, candidate);
      assert Between(cam.min, candidate + 1) == before + [candidate];
      assert (before + [candidate])[..|before|] == before;
      if fromApi(candidate) in entries {
        candidate := candidate + 1;
        continue;
      }
      calls := calls + [candidate];
      if cam.accepts(candidate) {
        restoreRequired := true;
        entries := entries + [fromApi(candidate)];
      }
      candidate := candidate + 1;
    }
    assert Between(cam.min, candidate) == Between(cam.min, cam.max);
    s := FormatScan(entries, calls, restoreRequired);
  }

  /** The control's entry list and the row last made active in its combo. */
  class PixelFormatChooser {
    var entries: seq<int>
    var active: Option<nat>

    constructor ()
      ensures entries == [] && active == None
    {
      entries, active := [], None;
    }

    /** initialize: the list is cleared, and filled only for a camera with a pixel format
        feature; the current value is restored if a probe was accepted, and the entry of
        the current value becomes active. */
    method Initialize(fromApi: int -> int, camera: Option<FormatCamera>) returns (calls: seq<int>)
      modifies this
      ensures camera.None? || !camera.value.supported ==> entries == [] && calls == [] && active == old(active)
      ensures camera.Some? && camera.value.supported ==>
                var cam := camera.value;
                && entries == FormatEntries(fromApi, cam)
                && calls == FormatCalls(fromApi, cam)
                && active == (if fromApi(cam.current) in entries then FirstIndexOf(entries, fromApi(cam.current))
                              else old(active))
    {
      entries, calls := [], [];
      if camera.None? || !camera.value.supported {
        return;
      }
      var cam := camera.value;
      var s := ProbeFormats(fromApi, cam);
      entries, calls := s.entries, s.calls;
      if s.restoreRequired {
        calls := calls + [cam.current];
      }
      if cam.max > cam.min && fromApi(cam.max) !in entries {
        entries := entries + [fromApi(cam.max)];
      }
      var found := FindFirst(entries, fromApi(cam.current));
      if found.Some? {
        active := found;
      }
    }
  }

  /** The list never holds an entry twice, and starts with the minimum's entry. */
  lemma FormatEntriesDistinct(fromApi: int -> int, cam: FormatCamera)
    ensures NoDuplicates(FormatEntries(fromApi, cam))
    ensures FormatEntries(fromApi, cam)[0] == fromApi(cam.min)
  {
    var e := ProbeScan(fromApi, cam).entries;
    if cam.max > cam.min && fromApi(cam.max) !in e {
      var f := e + [fromApi(cam.max)];
      forall i, j | 0 <= i < j < |f|
        ensures f[i] != f[j]
      {
        if j == |e| {
          assert f[i] == e[i];
        }
      }
    }
  }

  /** An entry is listed exactly when it is the minimum's, or the entry of an accepted
      candidate. */
  lemma {:induction false} ScanMembers(fromApi: int -> int, cam: FormatCamera, cands: seq<int>, x: int)
    ensures x in ScanFormats(fromApi, cam, cands).entries <==>
              x == fromApi(cam.min) || exists c :: c in cands && cam.accepts(c) && fromApi(c) == x
  {
    if cands != [] {
      var init := cands[..|cands| - 1];
      var c := cands[|cands| - 1];
      ScanMembers(fromApi, cam, init, x);
      assert cands == init + [c];
      if exists d :: d in cands && cam.accepts(d) && fromApi(d) == x {
        var d :| d in cands && cam.accepts(d) && fromApi(d) == x;
        if d != c {
          assert d in init;
        }
      }
    }
  }

  /** The current value is set back, as the last call, exactly when a candidate was
      accepted, which is exactly when the scan added an entry. */
  lemma RestoreIffAccepted(fromApi: int -> int, cam: FormatCamera)
    ensures var calls := FormatCalls(fromApi, cam);
            var s := ProbeScan(fromApi, cam);
            && (s.restoreRequired <==> |s.entries| > 1)
            && (s.restoreRequired <==> exists c :: c in Between(cam.min, cam.max) && cam.accepts(c) && fromApi(c) != fromApi(cam.min))
            && (s.restoreRequired ==> calls[|calls| - 1] == cam.current)
  {
    var s := ProbeScan(fromApi, cam);
    if |s.entries| > 1 {
      ScanMembers(fromApi, cam, Between(cam.min, cam.max), s.entries[1]);
    }
    if exists c :: c in Between(cam.min, cam.max) && cam.accepts(c) && fromApi(c) != fromApi(cam.min) {
      var c :| c in Between(cam.min, cam.max) && cam.accepts(c) && fromApi(c) != fromApi(cam.min);
      ScanMembers(fromApi, cam, Between(cam.min, cam.max), fromApi(c));
    }
  }
}
