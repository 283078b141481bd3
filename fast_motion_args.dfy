/** getParameters of the fastMotionVideo sample: the command line
    `[-t record_time] [-d decimation] [-i image_period] [-f playback_framerate] capture_names`. */
module FastMotionArgs {
  import opened Sdk
  import opened CStrings

  const A_OK: int := 0
  const GENERAL_ERROR: int := 1

  /** The four numeric parameters, as the sample's U32 variables hold them. */
  datatype Settings = Settings(recordTime: U32, decimation: U32, imagePeriod: U32, frameRate: U32)

  /** Record 300 seconds, keep every 5th frame, an image every 10 seconds, play at 25 f/s. */
  const DEFAULTS: Settings := Settings(5 * 60, 5, 10, 25)

  datatype Params = Params(settings: Settings, fileNames: string)

  predicate Checked(s: Settings) {
    s.recordTime >= 1 && s.decimation >= 1 && s.frameRate >= 1
  }

  /** The option loop from index `i` on, starting from the values `s`: each option takes
      the next argument as its value (even when that is the last argument); `-t`, `-d`
      and `-f` refuse values below 1, `-i` takes any value, converted to U32; any other
      token is an error. */
  function Scan(argv: seq<string>, i: nat, s: Settings): (r: Option<Settings>)
    requires 1 <= i
    requires Checked(s)
    ensures r.Some? ==> Checked(r.value)
    decreases |argv| - i
  {
    if i >= |argv| - 1 then Some(s)
    else
      var token := argv[i];
      if token == "-t" || token == "-T" then
        var parm := CAtoi(argv[i + 1]);
        if parm < 1 then None else Scan(argv, i + 2, s.(recordTime := ToU32(parm)))
      else if token == "-d" || token == "-D" then
        var parm := CAtoi(argv[i + 1]);
        if parm < 1 then None else Scan(argv, i + 2, s.(decimation := ToU32(parm)))
      else if token == "-i" || token == "-I" then
        var parm := CAtoi(argv[i + 1]);
        Scan(argv, i + 2, s.(imagePeriod := ToU32(parm)))
      else if token == "-f" || token == "-F" then
        var parm := CAtoi(argv[i + 1]);
        if parm < 1 then None else Scan(argv, i + 2, s.(frameRate := ToU32(parm)))
      else None
  }

  /** What getParameters accepts: 2 to 10 arguments, options that scan, a last argument
      that does not start with '-', and a record time no shorter than the image
      period. */
  function Parse(argv: seq<string>): (r: Option<Params>)
    ensures |argv| < 2 || |argv| > 10 ==> r.None?
    ensures r.Some? ==> Checked(r.value.settings)
    ensures r.Some? ==> r.value.settings.recordTime >= r.value.settings.imagePeriod
    ensures r.Some? ==> r.value.fileNames == argv[|argv| - 1]
                        && (r.value.fileNames == [] || r.value.fileNames[0] != '-')
  {
    if |argv| < 2 || |argv| > 10 then None
    else match Scan(argv, 1, DEFAULTS)
      case None => None
      case Some(s) =>
        var last := argv[|argv| - 1];
        if last != [] && last[0] == '-' then None
        else if s.recordTime < s.imagePeriod then None
        else Some(Params(s, last))
  }

  /** The option loop of getParameters, over `argv[1..argc - 1]`, with its manually
      advanced index: each recognised option consumes the next argument; a refused
      value or an unknown token stops the loop with an error. */
  method ScanOptions(argv: seq<string>) returns (out: Option<Settings>)
    requires |argv| >= 2
    ensures out == Scan(argv, 1, DEFAULTS)
  {
    var argc := |argv|;
    var uRecordTime: U32 := DEFAULTS.recordTime;
    var uDecimation: U32 := DEFAULTS.decimation;
    var uImagePeriod: U32 := DEFAULTS.imagePeriod;
    var uFrameRate: U32 := DEFAULTS.frameRate;
    var i := 1;
    while i < argc - 1
      invariant 1 <= i <= argc
      invariant Checked(Settings(uRecordTime, uDecimation, uImagePeriod, uFrameRate))
      invariant Scan(argv, i, Settings(uRecordTime, uDecimation, uImagePeriod, uFrameRate))
                == Scan(argv, 1, DEFAULTS)
      decreases argc - i
    {
      var parm: int;
      if argv[i] == "-t" || argv[i] == "-T" {
        parm := CAtoi(argv[i + 1]);
        if parm < 1 {
          return None;
        }
        uRecordTime := ToU32(parm);
        i := i + 1;
      } else if argv[i] == "-d" || argv[i] == "-D" {
        parm := CAtoi(argv[i + 1]);
        if parm < 1 {
          return None;
        }
        uDecimation := ToU32(parm);
        i := i + 1;
      } else if argv[i] == "-i" || argv[i] == "-I" {
        parm := CAtoi(argv[i + 1]);
        uImagePeriod := ToU32(parm);
        i := i + 1;
      } else if argv[i] == "-f" || argv[i] == "-F" {
        parm := CAtoi(argv[i + 1]);
        if parm < 1 {
          return None;
        }
        uFrameRate := ToU32(parm);
        i := i + 1;
      } else {
        return None;
      }
      i := i + 1;
    }
    return Some(Settings(uRecordTime, uDecimation, uImagePeriod, uFrameRate));
  }

  /** getParameters: the option loop, then the checks on the last argument and on the
      record time; the out-parameters are produced only on success, with A_OK, and
      nothing is produced with GENERAL_ERROR. */
  method GetParameters(argv: seq<string>) returns (rc: int, out: Option<Params>)
    ensures out == Parse(argv)
    ensures rc == (if out.Some? then A_OK else GENERAL_ERROR)
  {
    var argc := |argv|;
    if argc < 2 || argc > 10 {
      return GENERAL_ERROR, None;
    }
    var scanned := ScanOptions(argv);
    if scanned.None? {
      return GENERAL_ERROR, None;
    }
    var s := scanned.value;
    var last := argv[argc - 1];
    if last != [] && last[0] == '-' {
      return GENERAL_ERROR, None;
    }
    if s.recordTime < s.imagePeriod {
      return GENERAL_ERROR, None;
    }
    return A_OK, Some(Params(s, last));
  }

  /** With only a file name, every parameter keeps its default. */
  lemma DefaultsWithoutOptions(program: string, name: string)
    requires name == [] || name[0] != '-'
    ensures Parse([program, name]) == Some(Params(DEFAULTS, name))
  {
  }

  /** An option overrides whatever an earlier occurrence set: from an option token
      on, the scan does not depend on the earlier value of the parameter it sets. */
  lemma LaterOptionWins(argv: seq<string>, i: nat, s: Settings, s': Settings)
    requires 1 <= i < |argv| - 1 && Checked(s) && Checked(s')
    requires || ((argv[i] == "-t" || argv[i] == "-T") && s.(recordTime := 1) == s'.(recordTime := 1))
             || ((argv[i] == "-d" || argv[i] == "-D") && s.(decimation := 1) == s'.(decimation := 1))
             || ((argv[i] == "-i" || argv[i] == "-I") && s.(imagePeriod := 0) == s'.(imagePeriod := 0))
             || ((argv[i] == "-f" || argv[i] == "-F") && s.(frameRate := 1) == s'.(frameRate := 1))
    ensures Scan(argv, i, s) == Scan(argv, i, s')
  {
  }

  /** The value of an option may be the last argument, which then also becomes the
      file name: `-i capture` reads an image period of atoi("capture") = 0. */
  lemma OptionValueMayBeTheFileName(program: string, name: string)
    requires name != [] && !IsSpace(name[0]) && !IsDigit(name[0]) && name[0] != '-' && name[0] != '+'
    ensures Parse([program, "-i", name]) == Some(Params(DEFAULTS.(imagePeriod := 0), name))
  {
    var argv := [program, "-i", name];
    AtoiNoNumber(name);
    assert CAtoi(name) == 0;
    assert Scan(argv, 1, DEFAULTS) == Scan(argv, 3, DEFAULTS.(imagePeriod := 0));
  }

  /** `-i` checks nothing, but a negative image period becomes a huge U32 and then fails
      the record-time check. */
  lemma NegativeImagePeriodRefused(program: string, value: string, name: string)
    requires CAtoi(value) < 0
    ensures Parse([program, "-i", value, name]) == None
  {
    var argv := [program, "-i", value, name];
    var period := ToU32(CAtoi(value));
    NegativeWrapsHigh(CAtoi(value));
    assert Scan(argv, 1, DEFAULTS) == Scan(argv, 3, DEFAULTS.(imagePeriod := period));
  }

  /** A negative int converted to U32 is at least 2^31. */
  lemma NegativeWrapsHigh(x: int)
    requires INT_MIN <= x < 0
    ensures ToU32(x) == x + U32_LIMIT && ToU32(x) > INT_MAX
  {
  }
}
