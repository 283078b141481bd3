/** getParameters of the slowMotionVideo sample: the command line
    `[-t record_time] [-b bitrate] [-f playback_framerate] video_name`, and the
    `video_name.avi` it writes into the caller's 256-character buffer. */
module SlowMotionArgs {
  import opened Sdk
  import opened CStrings

  const A_OK: int := 0
  const GENERAL_ERROR: int := 1

  /** The size of the caller's file-name buffer, `vector<char> aviFile(256, 0)`. */
  const FILE_NAME_BUFFER: nat := 256

  datatype Settings = Settings(recordTime: U32, bitRate: U32, frameRate: U32)

  /** Record 20 seconds at a third of the SDK's default clip bit rate, play at 25 f/s. */
  function Defaults(clipPlaybackBitrateDefault: U32): Settings {
    Settings(20, clipPlaybackBitrateDefault / 3, 25)
  }

  predicate Checked(s: Settings, defaultBitRate: U32) {
    s.recordTime >= 1 && s.frameRate >= 1 && (s.bitRate >= 1000 || s.bitRate == defaultBitRate)
  }

  /** The option loop from index `i` on: `-t` and `-f` refuse values below 1, `-b`
      values below 1000; any other token is an error. */
  function Scan(argv: seq<string>, i: nat, s: Settings, defaultBitRate: U32): (r: Option<Settings>)
    requires 1 <= i
    requires Checked(s, defaultBitRate)
    ensures r.Some? ==> Checked(r.value, defaultBitRate)
    decreases |argv| - i
  {
    if i >= |argv| - 1 then Some(s)
    else
      var token := argv[i];
      if token == "-t" || token == "-T" then
        var parm := CAtoi(argv[i + 1]);
        if parm < 1 then None else Scan(argv, i + 2, s.(recordTime := ToU32(parm)), defaultBitRate)
      else if token == "-b" || token == "-B" then
        var parm := CAtoi(argv[i + 1]);
        if parm < 1000 then None else Scan(argv, i + 2, s.(bitRate := ToU32(parm)), defaultBitRate)
      else if token == "-f" || token == "-F" then
        var parm := CAtoi(argv[i + 1]);
        if parm < 1 then None else Scan(argv, i + 2, s.(frameRate := ToU32(parm)), defaultBitRate)
      else None
  }

  /** What getParameters accepts: 2 to 8 arguments, options that scan, and a last
      argument that does not start with '-'. */
  function Parse(argv: seq<string>, clipPlaybackBitrateDefault: U32): (r: Option<Settings>)
    ensures |argv| < 2 || |argv| > 8 ==> r.None?
    ensures r.Some? ==> Checked(r.value, clipPlaybackBitrateDefault / 3)
    ensures r.Some? ==> argv[|argv| - 1] == [] || argv[|argv| - 1][0] != '-'
  {
    if |argv| < 2 || |argv| > 8 then None
    else match Scan(argv, 1, Defaults(clipPlaybackBitrateDefault), clipPlaybackBitrateDefault / 3)
      case None => None
      case Some(s) =>
        var last := argv[|argv| - 1];
        if last != [] && last[0] == '-' then None else Some(s)
  }

  /** `strncpy(fileName, nameRoot, 256); strncat(fileName, ".avi", 256)` on the caller's
      zero-filled buffer, as written; None where C's behaviour is undefined. */
  function AviFileAsWritten(nameRoot: string): Option<seq<char>> {
    Strncat(Strncpy(Nuls(FILE_NAME_BUFFER), nameRoot, FILE_NAME_BUFFER), ".avi", FILE_NAME_BUFFER)
  }

  /** As written, a name of 252 characters or more makes the writes run past the end of
      the 256-character buffer (no room for ".avi" and its NUL, or no NUL at all after
      the copy); shorter names give `nameRoot.avi`. */
  lemma AviFileAsWrittenOverflows(nameRoot: string)
    requires NoNul(nameRoot)
    ensures AviFileAsWritten(nameRoot).Some? <==> |nameRoot| < 252
    ensures AviFileAsWritten(nameRoot).Some? ==> CString(AviFileAsWritten(nameRoot).value) == nameRoot + ".avi"
  {
    var copied := Strncpy(Nuls(FILE_NAME_BUFFER), nameRoot, FILE_NAME_BUFFER);
    if |nameRoot| >= FILE_NAME_BUFFER {
      assert copied == nameRoot[..FILE_NAME_BUFFER];
      assert Strlen(copied).None?;
    } else {
      var rest := Nuls(FILE_NAME_BUFFER - |nameRoot| - 1);
      assert copied == nameRoot + ['\0'] + rest;
      CStringOfTerminated(nameRoot, rest);
      if |nameRoot| < 252 {
        AppendAvi(nameRoot, rest);
      }
    }
  }

  /** `strncat` of ".avi" onto a terminated text with at least four characters to spare
      after its NUL writes the extension and a new NUL there. */
  lemma AppendAvi(root: string, rest: seq<char>)
    requires NoNul(root) && |rest| >= 4
    ensures Strncat(root + ['\0'] + rest, ".avi", FILE_NAME_BUFFER) == Some((root + ".avi") + ['\0'] + rest[4..])
    ensures CString((root + ".avi") + ['\0'] + rest[4..]) == root + ".avi"
  {
    var dest := root + ['\0'] + rest;
    CStringOfTerminated(root, rest);
    assert dest[..|root|] == root && dest[|root| + 5..] == rest[4..];
    assert Strncat(dest, ".avi", FILE_NAME_BUFFER)
        == Some(dest[..|root|] + ".avi"[..4] + ['\0'] + dest[|root| + 5..]);
    assert ".avi"[..4] == ".avi";
    assert root + ".avi" + ['\0'] + rest[4..] == (root + ".avi") + ['\0'] + rest[4..];
    assert NoNul(root + ".avi");
    CStringOfTerminated(root + ".avi", rest[4..]);
  }

  /** The longest name root that leaves room for ".avi" and the NUL. */
  const MAX_NAME_ROOT: nat := FILE_NAME_BUFFER - 5

  /** The file name written with the copy bounded to leave room for ".avi" and the NUL,
      and the buffer terminated after the copy. */
  function AviFile(fileName: seq<char>, nameRoot: string): Option<seq<char>>
    requires |fileName| == FILE_NAME_BUFFER
  {
    Strncat(Strncpy(fileName, nameRoot, MAX_NAME_ROOT)[MAX_NAME_ROOT := '\0'], ".avi", FILE_NAME_BUFFER)
  }

  /** The bounded copy never runs past the buffer, whatever the buffer and the name
      hold: the copy leaves a NUL at index 251 at the latest. */
  lemma AviFileAlwaysFits(fileName: seq<char>, nameRoot: string)
    requires |fileName| == FILE_NAME_BUFFER
    ensures AviFile(fileName, nameRoot).Some?
  {
    var c := Strncpy(fileName, nameRoot, MAX_NAME_ROOT)[MAX_NAME_ROOT := '\0'];
    StrlenAtMost(c, MAX_NAME_ROOT);
  }

  /** The bounded copy always fits, whatever the buffer held, and the buffer then holds
      the name root, cut to 251 characters, followed by ".avi". */
  lemma AviFileFits(fileName: seq<char>, nameRoot: string)
    requires |fileName| == FILE_NAME_BUFFER && NoNul(nameRoot)
    ensures AviFile(fileName, nameRoot).Some?
    ensures |AviFile(fileName, nameRoot).value| == FILE_NAME_BUFFER
    ensures CString(AviFile(fileName, nameRoot).value) == nameRoot[..Min(|nameRoot|, MAX_NAME_ROOT)] + ".avi"
  {
    var c := Strncpy(fileName, nameRoot, MAX_NAME_ROOT)[MAX_NAME_ROOT := '\0'];
    var root := nameRoot[..Min(|nameRoot|, MAX_NAME_ROOT)];
    var rest := c[|root| + 1..];
    assert c == root + ['\0'] + rest;
    AppendAvi(root, rest);
  }

  /** The option loop of getParameters, over `argv[1..argc - 1]`: each recognised
      option consumes the next argument; a refused value or an unknown token stops the
      loop with an error. */
  method ScanOptions(argv: seq<string>, clipPlaybackBitrateDefault: U32) returns (out: Option<Settings>)
    requires |argv| >= 2
    ensures out == Scan(argv, 1, Defaults(clipPlaybackBitrateDefault), clipPlaybackBitrateDefault / 3)
  {
    var argc := |argv|;
    var defaultBitRate: U32 := clipPlaybackBitrateDefault / 3;
    var uRecordTime: U32 := 20;
    var uBitRate: U32 := defaultBitRate;
    var uFrameRate: U32 := 25;
    var i := 1;
    while i < argc - 1
      invariant 1 <= i <= argc
      invariant Checked(Settings(uRecordTime, uBitRate, uFrameRate), defaultBitRate)
      invariant Scan(argv, i, Settings(uRecordTime, uBitRate, uFrameRate), defaultBitRate)
                == Scan(argv, 1, Defaults(clipPlaybackBitrateDefault), defaultBitRate)
      decreases argc - i
    {
      var parm: int;
      if argv[i] == "-t" || argv[i] == "-T" {
        parm := CAtoi(argv[i + 1]);
        if parm < 1 {
          return None;
        }
        uRecordTime := ToU32(parm);
        i := i + 1;
      } else if argv[i] == "-b" || argv[i] == "-B" {
        parm := CAtoi(argv[i + 1]);
        if parm < 1000 {
          return None;
        }
        uBitRate := ToU32(parm);
        i := i + 1;
      } else if argv[i] == "-f" || argv[i] == "-F" {
        parm := CAtoi(argv[i + 1]);
        if parm < 1 {
          return None;
        }
        uFrameRate := ToU32(parm);
        i := i + 1;
      } else {
        return None;
      }
      i := i + 1;
    }
    return Some(Settings(uRecordTime, uBitRate, uFrameRate));
  }

  /** getParameters: the option loop, the check on the last argument, then the file
      name written into the caller's zero-filled buffer as written (AviFileAsWritten).
      On failure the buffer is left as it was and GENERAL_ERROR is returned. The buffer
      comes back as None when the writes run past its end (undefined behaviour in C). */
  method GetParameters(argv: seq<string>, clipPlaybackBitrateDefault: U32)
    returns (rc: int, out: Option<Settings>, fileName: Option<seq<char>>)
    ensures out == Parse(argv, clipPlaybackBitrateDefault)
    ensures rc == (if out.Some? then A_OK else GENERAL_ERROR)
    ensures out.None? ==> fileName == Some(Nuls(FILE_NAME_BUFFER))
    ensures out.Some? ==> fileName == AviFileAsWritten(argv[|argv| - 1])
  {
    var argc := |argv|;
    fileName := Some(Nuls(FILE_NAME_BUFFER));
    if argc < 2 || argc > 8 {
      return GENERAL_ERROR, None, fileName;
    }
    out := ScanOptions(argv, clipPlaybackBitrateDefault);
    if out.None? {
      return GENERAL_ERROR, None, fileName;
    }
    var nameRoot := argv[argc - 1];
    if nameRoot != [] && nameRoot[0] == '-' {
      return GENERAL_ERROR, None, fileName;
    }
    var copied := Strncpy(fileName.value, nameRoot, FILE_NAME_BUFFER);
    fileName := Strncat(copied, ".avi", FILE_NAME_BUFFER);
    rc := A_OK;
  }

  /** With only a video name, every parameter keeps its default. */
  lemma DefaultsWithoutOptions(program: string, name: string, clipPlaybackBitrateDefault: U32)
    requires name == [] || name[0] != '-'
    ensures Parse([program, name], clipPlaybackBitrateDefault) == Some(Defaults(clipPlaybackBitrateDefault))
  {
  }

  /** An option overrides whatever an earlier occurrence set. */
  lemma LaterOptionWins(argv: seq<string>, i: nat, s: Settings, s': Settings, defaultBitRate: U32)
    requires 1 <= i < |argv| - 1 && Checked(s, defaultBitRate) && Checked(s', defaultBitRate)
    requires || ((argv[i] == "-t" || argv[i] == "-T") && s.(recordTime := 1) == s'.(recordTime := 1))
             || ((argv[i] == "-b" || argv[i] == "-B") && s.(bitRate := 1000) == s'.(bitRate := 1000))
             || ((argv[i] == "-f" || argv[i] == "-F") && s.(frameRate := 1) == s'.(frameRate := 1))
    ensures Scan(argv, i, s, defaultBitRate) == Scan(argv, i, s', defaultBitRate)
  {
  }
}
