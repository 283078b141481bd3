/** The camera-select combo of the simple GUI. Row 0 of the combo always reads
    "No Camera"; the camera list `comboCameraList` backs rows 1 onwards, and when a
    camera is selected it is the list's first entry. The SDK's answers (camera count,
    serial numbers, initialisation codes) and the user's choice are parameters; the
    scan thread and the other GUI controls are not part of this model. */
module CameraSelect {
  import opened Sdk
  import opened Lists
  import opened CStrings

  const NO_CAMERA: string := "No Camera"

  /** The combo text of a serial number: `sprintf("%d")` of an unsigned 32-bit value,
      which prints its bits as a signed int. */
  function SerialText(serial: U32): string {
    IntText(AsInt32(serial))
  }

  /** The combo text of each serial number. */
  function SerialTexts(serials: seq<U32>): (texts: seq<string>)
    ensures |texts| == |serials|
  {
    if serials == [] then [] else SerialTexts(serials[..|serials| - 1]) + [SerialText(serials[|serials| - 1])]
  }

  lemma {:induction false} SerialTextsAt(serials: seq<U32>, i: nat)
    requires i < |serials|
    ensures SerialTexts(serials)[i] == SerialText(serials[i])
  {
    if i < |serials| - 1 {
      SerialTextsAt(serials[..|serials| - 1], i);
    }
  }

  lemma SerialTextsSnoc(serials: seq<U32>, c: U32)
    ensures SerialTexts(serials + [c]) == SerialTexts(serials) + [SerialText(c)]
  {
    assert (serials + [c])[..|serials|] == serials;
  }

  lemma {:induction false} SerialTextsAppend(a: seq<U32>, b: seq<U32>)
    ensures SerialTexts(a + b) == SerialTexts(a) + SerialTexts(b)
  {
    if b != [] {
      var init := b[..|b| - 1];
      SerialTextsAppend(a, init);
      assert (a + b)[..|a + b| - 1] == a + init;
      assert (a + b)[|a + b| - 1] == b[|b| - 1];
    } else {
      assert a + b == a;
    }
  }

  /** The camera list a full rebuild produces: the requested camera, if any, then the
      connected cameras other than it, in connection order. */
  function FullList(requested: U32, connected: seq<U32>): seq<U32> {
    (if requested != 0 then [requested] else []) + Without(connected, requested)
  }

  /** The camera list a partial rebuild produces: the selected (= requested) camera,
      then the connected cameras other than it. */
  function PartialList(requested: U32, connected: seq<U32>): seq<U32> {
    [requested] + Without(connected, requested)
  }

  /** The second loop of both rebuilds: every connected camera other than `requested`
      is appended to the list and gets a combo row, in connection order. */
  method AppendOthers(connected: seq<U32>, requested: U32, list0: seq<U32>, rows0: seq<string>)
    returns (list: seq<U32>, rows: seq<string>)
    ensures list == list0 + Without(connected, requested)
    ensures rows == rows0 + SerialTexts(Without(connected, requested))
  {
    list, rows := list0, rows0;
    var i := 0;
    while i < |connected|
      invariant 0 <= i <= |connected|
      invariant list == list0 + Without(connected[..i], requested)
      invariant rows == rows0 + SerialTexts(Without(connected[..i], requested))
    {
      var c := connected[i];
      AppendStep(connected, requested, list0, rows0, i);
      if c != requested {
        list := list + [c];
        rows := rows + [SerialText(c)];
      }
      i := i + 1;
    }
    assert connected[..i] == connected;
  }

  /** One step of the loop: the next connected camera is kept, in the list and as a row,
      exactly when it is not the requested one. */
  lemma AppendStep(connected: seq<U32>, requested: U32, list0: seq<U32>, rows0: seq<string>, i: nat)
    requires i < |connected|
    ensures var kept := Without(connected[..i], requested);
            var next := Without(connected[..i + 1], requested);
            var c := connected[i];
            if c != requested then
              && list0 + next == list0 + kept + [c]
              && rows0 + SerialTexts(next) == rows0 + SerialTexts(kept) + [SerialText(c)]
            else
              next == kept
  {
    var kept := Without(connected[..i], requested);
    var c := connected[i];
    assert connected[..i + 1] == connected[..i] + [c];
    WithoutSnoc(connected[..i], c, requested);
    if c != requested {
      SerialTextsSnoc(kept, c);
    }
  }

  /** gtk_combo_box_text_remove: drop row `i` if there is one. */
  function RemoveRow(rows: seq<string>, i: nat): seq<string> {
    if i < |rows| then rows[..i] + rows[i + 1..] else rows
  }

  /** The first loop of the partial rebuild: rows `n` down to 2 are removed, which
      leaves the "No Camera" row and the selected camera's row. */
  method RemoveNonActiveRows(rows0: seq<string>, n: nat) returns (rows: seq<string>)
    requires |rows0| == n + 1 && n >= 1
    ensures rows == rows0[..2]
  {
    rows := rows0;
    var i := n;
    while i > 1
      invariant 1 <= i <= n
      invariant rows == rows0[..i + 1]
    {
      rows := RemoveRow(rows, i);
      i := i - 1;
    }
  }

  /** The partial rebuild: the list restarts with the selected camera, whose row stays,
      and the rows after it are replaced by the other connected cameras. */
  method PartialRebuild(list0: seq<U32>, rows0: seq<string>, requested: U32, connected: seq<U32>)
    returns (list: seq<U32>, rows: seq<string>)
    requires rows0 == [NO_CAMERA] + SerialTexts(list0) && |list0| > 0 && list0[0] == requested
    ensures list == PartialList(requested, connected)
    ensures rows == [NO_CAMERA] + SerialTexts(list)
  {
    var currentListSize := |list0|;
    list := [];
    var kept := RemoveNonActiveRows(rows0, currentListSize);
    SelectedRowKept(NO_CAMERA, list0);
    list := list + [requested];
    list, rows := AppendOthers(connected, requested, list, kept);
    RowsAfterSelected(requested, Without(connected, requested));
  }

  /** The selected camera's row followed by the rows of the cameras after it are the
      rows of the list that starts with the selected camera. */
  lemma RowsAfterSelected(selected: U32, others: seq<U32>)
    ensures [NO_CAMERA, SerialText(selected)] + SerialTexts(others) == [NO_CAMERA] + SerialTexts([selected] + others)
  {
    SerialTextsAppend([selected], others);
    SerialTextsSnoc([], selected);
    assert [] + [selected] == [selected];
  }

  /** The first two rows of an aligned combo: its head row and the first camera's. */
  lemma SelectedRowKept(head: string, list0: seq<U32>)
    requires |list0| > 0
    ensures ([head] + SerialTexts(list0))[..2] == [head, SerialText(list0[0])]
  {
    SerialTextsAt(list0, 0);
  }

  /** The full rebuild: "No Camera", then the requested camera if there is one (made the
      active row), then the other connected cameras. Returns the active row. */
  method FullRebuild(requested: U32, connected: seq<U32>)
    returns (list: seq<U32>, rows: seq<string>, active: nat)
    ensures list == FullList(requested, connected)
    ensures rows == [NO_CAMERA] + SerialTexts(list)
    ensures active == if requested == 0 then 0 else 1
  {
    list := [];
    rows := [NO_CAMERA];
    if requested != 0 {
      list := list + [requested];
      rows := rows[..1] + [SerialText(requested)] + rows[1..];
    }
    active := if requested == 0 then 0 else 1;
    ghost var head := list;
    list, rows := AppendOthers(connected, requested, list, rows);
    SerialTextsAppend(head, Without(connected, requested));
  }

  class CameraSelectCombo {
    var comboCameraList: seq<U32>
    var connectedCameraList: seq<U32>
    var selectedCamera: U32
    var requestedCamera: U32
    var rebuildInProgress: bool
    var comboRows: seq<string>
    var activeRow: Option<nat>
    var camera: Option<U32>        // the serial number of the camera held open, if any
    var rebuildScheduled: bool

    /** Row 0 reads "No Camera" and row i + 1 shows camera list entry i. */
    ghost predicate Aligned()
      reads this
    {
      comboRows == [NO_CAMERA] + SerialTexts(comboCameraList)
    }

    /** The design rule of the combo: before the first rebuild nothing is listed; after
        it the rows follow the list, and a selected camera is the list's first entry. */
    ghost predicate Valid()
      reads this
    {
      (Aligned() || (comboRows == [] && comboCameraList == []))
      && (selectedCamera != 0 ==> Aligned() && |comboCameraList| > 0 && comboCameraList[0] == selectedCamera)
    }

    constructor ()
      ensures Valid()
      ensures comboCameraList == [] && connectedCameraList == [] && comboRows == []
      ensures selectedCamera == 0 && requestedCamera == 0 && !rebuildInProgress
      ensures camera == None && !rebuildScheduled && activeRow == None
    {
      comboCameraList, connectedCameraList, comboRows := [], [], [];
      selectedCamera, requestedCamera := 0, 0;
      rebuildInProgress := false;
      activeRow, camera, rebuildScheduled := None, None, false;
    }

    /** getSelectedCamera: 0 for the "No Camera" row or no active row; otherwise the
        active row's text read with `atoi` and returned as a ULONG, which is that row's
        camera. */
    method GetSelectedCamera(activeIndex: int) returns (serial: U32)
      requires Valid() && activeIndex < |comboRows|
      ensures activeIndex < 1 ==> serial == 0
      ensures activeIndex >= 1 ==> serial == comboCameraList[activeIndex - 1]
    {
      if activeIndex < 1 {
        return 0;
      }
      serial := ToU32(CAtoi(comboRows[activeIndex]));
      RowsReadBack(comboCameraList, activeIndex);
    }

    /** scanForCameras: the connected list is cleared, then filled with the serial
        numbers only if both SDK queries succeed. `countRc`/`count` answer the query for
        the number of cameras, `serialsRc`/`serials` the query for their serials. */
    method ScanForCameras(countRc: ReturnCode, count: nat, serialsRc: ReturnCode, serials: seq<U32>)
      returns (rc: ReturnCode)
      requires |serials| == count
      modifies this
      ensures Succeeded(countRc) && count > 0 ==> rc == serialsRc
      ensures !(Succeeded(countRc) && count > 0) ==> rc == countRc
      ensures connectedCameraList == (if Succeeded(countRc) && count > 0 && Succeeded(serialsRc) then serials else [])
      ensures comboCameraList == old(comboCameraList) && comboRows == old(comboRows)
      ensures selectedCamera == old(selectedCamera) && requestedCamera == old(requestedCamera)
      ensures rebuildInProgress == old(rebuildInProgress) && camera == old(camera)
      ensures activeRow == old(activeRow) && rebuildScheduled == old(rebuildScheduled)
    {
      connectedCameraList := [];
      rc := countRc;
      if Succeeded(rc) && count > 0 {
        connectedCameraList := seq(count, _ => 0);
        rc := serialsRc;
        if !Succeeded(rc) {
          connectedCameraList := [];
        } else {
          connectedCameraList := serials;
        }
      }
    }

    /** isConnected: the index loop stops at the first match. */
    method IsConnected(serialNum: U32) returns (connected: bool)
      ensures connected <==> serialNum in connectedCameraList
    {
      var numCameras := |connectedCameraList|;
      var cameraIndex := 0;
      while cameraIndex < numCameras
        invariant 0 <= cameraIndex <= numCameras
        invariant forall j :: 0 <= j < cameraIndex ==> connectedCameraList[j] != serialNum
      {
        if connectedCameraList[cameraIndex] == serialNum {
          break;
        }
        cameraIndex := cameraIndex + 1;
      }
      connected := cameraIndex < numCameras;
    }

    /** rebuildCameraSelectCombo. When the selection is not changing and a camera is
        selected, only the rows after the selected camera are rebuilt; otherwise the
        combo is rebuilt from scratch and the requested camera becomes the selected one.
        Either way the selected camera ends up equal to the requested one, first in the
        list and on row 1. Returns whether the selection changed. */
    method Rebuild() returns (changingCameras: bool)
      requires Valid()
      modifies this
      ensures Valid() && Aligned() && !rebuildInProgress
      ensures changingCameras <==> old(selectedCamera) != old(requestedCamera)
      ensures selectedCamera == requestedCamera == old(requestedCamera)
      ensures !changingCameras && old(selectedCamera) != 0 ==>
                comboCameraList == PartialList(requestedCamera, connectedCameraList) && activeRow == old(activeRow)
      ensures changingCameras || old(selectedCamera) == 0 ==>
                comboCameraList == FullList(requestedCamera, connectedCameraList)
                && activeRow == Some(if requestedCamera == 0 then 0 else 1)
      ensures connectedCameraList == old(connectedCameraList) && camera == old(camera)
      ensures rebuildScheduled == old(rebuildScheduled)
    {
      changingCameras := selectedCamera != requestedCamera;
      rebuildInProgress := true;
      if !changingCameras && selectedCamera != 0 {
        RebuildRowsAfterSelected();
      } else {
        RebuildAllRows();
      }
      rebuildInProgress := false;
    }

    /** The partial branch of `Rebuild`: the rows after the selected camera's are
        replaced by the other connected cameras. */
    method RebuildRowsAfterSelected()
      requires Valid() && selectedCamera == requestedCamera != 0
      modifies this
      ensures Valid() && Aligned()
      ensures comboCameraList == PartialList(requestedCamera, connectedCameraList)
      ensures selectedCamera == old(selectedCamera) && requestedCamera == old(requestedCamera)
      ensures activeRow == old(activeRow) && rebuildInProgress == old(rebuildInProgress)
      ensures connectedCameraList == old(connectedCameraList) && camera == old(camera)
      ensures rebuildScheduled == old(rebuildScheduled)
    {
      var list, rows := PartialRebuild(comboCameraList, comboRows, requestedCamera, connectedCameraList);
      assert list[0] == requestedCamera;
      comboCameraList, comboRows := list, rows;
    }

    /** The full branch of `Rebuild`: every row is rebuilt, the requested camera becomes
        the selected one and its row (or "No Camera") the active row. */
    method RebuildAllRows()
      modifies this
      ensures Valid() && Aligned()
      ensures comboCameraList == FullList(requestedCamera, connectedCameraList)
      ensures activeRow == Some(if requestedCamera == 0 then 0 else 1)
      ensures selectedCamera == requestedCamera == old(requestedCamera)
      ensures rebuildInProgress == old(rebuildInProgress)
      ensures connectedCameraList == old(connectedCameraList) && camera == old(camera)
      ensures rebuildScheduled == old(rebuildScheduled)
    {
      var list, rows, active := FullRebuild(requestedCamera, connectedCameraList);
      assert requestedCamera != 0 ==> list[0] == requestedCamera;
      comboCameraList, comboRows := list, rows;
      activeRow := Some(active);
      selectedCamera := requestedCamera;
    }

    /** NewCameraSelected: ignored while a rebuild is in progress. Otherwise the camera
        held open is released when "No Camera" or a different camera was chosen; a
        chosen camera is then opened, which replaces the held one only when its
        initialisation succeeds. The choice becomes the requested camera and a rebuild
        is scheduled. */
    method NewCameraSelected(activeIndex: int, initRc: ReturnCode)
      requires Valid() && activeIndex < |comboRows|
      modifies this
      ensures Valid()
      ensures old(rebuildInProgress) ==>
                requestedCamera == old(requestedCamera) && camera == old(camera) && rebuildScheduled == old(rebuildScheduled)
      ensures !old(rebuildInProgress) ==>
                var chosen := if activeIndex < 1 then 0 else old(comboCameraList[activeIndex - 1]);
                && requestedCamera == chosen && rebuildScheduled
                && (chosen == 0 ==> camera == None)
                && (chosen != 0 && Succeeded(initRc) ==> camera == Some(chosen))
                && (chosen != 0 && !Succeeded(initRc) ==>
                      camera == (if old(camera) == Some(chosen) then old(camera) else None))
      ensures comboCameraList == old(comboCameraList) && comboRows == old(comboRows)
      ensures selectedCamera == old(selectedCamera) && connectedCameraList == old(connectedCameraList)
    {
      if rebuildInProgress {
        return;
      }
      var selected := GetSelectedCamera(activeIndex);
      if selected == 0 {
        camera := None;
      } else {
        if camera.Some? && camera.value != selected {
          camera := None;
        }
        if Succeeded(initRc) {
          camera := Some(selected);
        }
      }
      requestedCamera := selected;
      rebuildScheduled := true;
    }
  }

  /** No camera after the first list entry is the requested one, in either rebuild. */
  lemma RequestedListedOnce(requested: U32, connected: seq<U32>)
    ensures forall i :: 1 <= i < |PartialList(requested, connected)| ==> PartialList(requested, connected)[i] != requested
    ensures forall i :: 1 <= i < |FullList(requested, connected)| ==> FullList(requested, connected)[i] != requested
  {
  }

  /** Every connected camera is listed, and nothing else but the requested camera. */
  lemma ListedCameras(requested: U32, connected: seq<U32>, c: U32)
    ensures c in FullList(requested, connected) <==> (c in connected && c != requested) || (c == requested && requested != 0)
    ensures c in PartialList(requested, connected) <==> c in connected || c == requested
  {
    WithoutMembers(connected, requested, c);
  }

  /** Reading back a row of an aligned combo with `atoi`, converted to a ULONG, gives
      the camera it was built from, even for a serial that `%d` shows as negative. */
  lemma RowsReadBack(list: seq<U32>, k: nat)
    requires 1 <= k <= |list|
    ensures ToU32(CAtoi(([NO_CAMERA] + SerialTexts(list))[k])) == list[k - 1]
  {
    RowAfterHead(NO_CAMERA, list, k);
    CAtoiIntText(AsInt32(list[k - 1]));
  }

  /** A serial of 2^31 or more is shown with a minus sign. */
  lemma HighSerialShownNegative(serial: U32)
    ensures SerialText(serial)[0] == '-' <==> serial > INT_MAX
  {
  }

  lemma RowAfterHead(head: string, list: seq<U32>, k: nat)
    requires 1 <= k <= |list|
    ensures ([head] + SerialTexts(list))[k] == SerialText(list[k - 1])
  {
    SerialTextsAt(list, k - 1);
  }
}
