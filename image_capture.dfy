/** The image-capture controls of the captureOEMLite sample: the default file name, the
    name built from a chosen folder, and the replacement of a known extension when the
    user picks another image type. Texts are C strings held as NUL-free `seq<char>`. */
module ImageCapture {
  import opened Sdk
  import opened CStrings

  /** The extension of each image type, indexed by the type combo's row: BMP, TIFF,
      PSD, JPEG and the raw format that follows JPEG. */
  const EXTENSIONS: seq<seq<char>> := [".bmp", ".tiff", ".psd", ".jpeg", ".bin"]

  const IMAGE_STEM: seq<char> := "/image"

  /** A dot-led extension: a '.' first and no other. */
  predicate DotLed(ext: seq<char>) {
    |ext| >= 1 && ext[0] == '.' && forall j :: 0 < j < |ext| ==> ext[j] != '.'
  }

  /** Each extension has exactly one '.', its first character, and no NUL. */
  lemma ExtensionShape(t: nat)
    requires t < |EXTENSIONS|
    ensures DotLed(EXTENSIONS[t]) && NoNul(EXTENSIONS[t])
  {
  }

  /** strrchr: the position of the last `c` in `s`, if any. */
  function LastIndexOf(s: seq<char>, c: char): (r: Option<nat>)
    ensures r.None? <==> c !in s
    ensures r.Some? ==> r.value < |s| && s[r.value] == c && forall j :: r.value < j < |s| ==> s[j] != c
  {
    if s == [] then None
    else if s[|s| - 1] == c then Some(|s| - 1)
    else LastIndexOf(s[..|s| - 1], c)
  }

  /** strncmp over the extension's length: the text from the dot begins with the
      extension. A shorter text differs at its terminating NUL. */
  predicate MatchesExtension(suffix: seq<char>, ext: seq<char>) {
    |ext| <= |suffix| && suffix[..|ext|] == ext
  }

  /** Some known extension begins the text from the last dot. */
  predicate HasKnownExtension(name: seq<char>) {
    var dot := LastIndexOf(name, '.');
    dot.Some? && exists i :: 0 <= i < |EXTENSIONS| && MatchesExtension(name[dot.value..], EXTENSIONS[i])
  }

  /** The name once image type `t` is chosen: cut at the last dot and given the new
      extension when the text from that dot begins with a known extension, and left as
      the user wrote it otherwise. */
  function Retyped(name: seq<char>, t: nat): (r: seq<char>)
    requires t < |EXTENSIONS|
  {
    if HasKnownExtension(name) then name[..LastIndexOf(name, '.').value] + EXTENSIONS[t] else name
  }

  /** The default name: the working directory, "/image" and the BMP extension; empty when
      the working directory cannot be read. */
  function DefaultName(cwd: Option<seq<char>>): (r: seq<char>)
    ensures cwd.None? <==> r == []
    ensures cwd.Some? ==> |r| == |cwd.value| + 10 && r[..|cwd.value|] == cwd.value && r[|cwd.value|..] == "/image.bmp"
  {
    if cwd.Some? then cwd.value + IMAGE_STEM + EXTENSIONS[0] else []
  }

  /** The name built when a folder is chosen: the folder, "/image" and the extension of
      the selected type. */
  function SelectorName(folder: seq<char>, t: nat): (r: seq<char>)
    requires t < |EXTENSIONS|
    ensures |r| == |folder| + |IMAGE_STEM + EXTENSIONS[t]|
    ensures r[..|folder|] == folder && r[|folder|..] == IMAGE_STEM + EXTENSIONS[t]
  {
    folder + IMAGE_STEM + EXTENSIONS[t]
  }

  /** The replacement loop: the known extensions are tried in order, and the first one
      that begins the text from the last dot causes a single replacement. */
  method RetypeName(name: seq<char>, t: nat) returns (r: seq<char>, replaced: bool)
    requires t < |EXTENSIONS|
    ensures replaced <==> HasKnownExtension(name)
    ensures r == Retyped(name, t)
  {
    var dot := LastIndexOf(name, '.');
    r, replaced := name, false;
    var i := 0;
    while i < |EXTENSIONS|
      invariant 0 <= i <= |EXTENSIONS|
      invariant dot.None? ==> !replaced
      invariant !replaced ==> r == name
      invariant !replaced && dot.Some? ==> forall k :: 0 <= k < i ==> !MatchesExtension(name[dot.value..], EXTENSIONS[k])
      invariant replaced ==> HasKnownExtension(name) && r == Retyped(name, t)
    {
      if dot.Some? && MatchesExtension(name[dot.value..], EXTENSIONS[i]) {
        r, replaced := name[..dot.value] + EXTENSIONS[t], true;
        break;
      }
      i := i + 1;
    }
  }

  /** The widgets of the capture controls: the file-name entry's text, the chooser's
      folder, the type combo's active row (-1 for none), and whether the controls take
      input. */
  class CaptureControls {
    var fileName: seq<char>
    var folder: Option<seq<char>>
    var activeType: int
    var sensitive: bool

    /** The C++ constructor only stores the widgets; their initial state, given here,
        is the one the UI description sets up. */
    constructor (fileName: seq<char>)
      ensures this.fileName == fileName && folder == None && activeType == -1 && sensitive
    {
      this.fileName, folder, activeType, sensitive := fileName, None, -1, true;
    }

    /** greyAll: the controls are disabled with no type selected, and the entry shows the
        default name; the chooser moves to the working directory when it can be read. */
    method GreyAll(cwd: Option<seq<char>>)
      modifies this
      ensures fileName == DefaultName(cwd)
      ensures folder == (if cwd.Some? then cwd else old(folder))
      ensures activeType == -1 && !sensitive
    {
      if cwd.Some? {
        folder := cwd;
        fileName := cwd.value + IMAGE_STEM + EXTENSIONS[0];
      } else {
        fileName := [];
      }
      sensitive := false;
      activeType := -1;
    }

    /** enableCaptures: every control follows `enable`, and the type combo selects BMP or
        nothing. */
    method EnableCaptures(enable: bool)
      modifies this
      ensures sensitive == enable && activeType == (if enable then 0 else -1)
      ensures fileName == old(fileName) && folder == old(folder)
    {
      sensitive := enable;
      activeType := if enable then 0 else -1;
    }

    /** NewImageCaptureTypeSelected, with `imageType` the combo's active row: nothing
        changes without a camera or a selected type; otherwise the entry's name is
        retyped. */
    method NewImageCaptureTypeSelected(cameraPresent: bool, imageType: int)
      requires imageType < |EXTENSIONS|
      modifies this
      ensures !cameraPresent || imageType < 0 ==> fileName == old(fileName)
      ensures cameraPresent && imageType >= 0 ==> fileName == Retyped(old(fileName), imageType)
      ensures folder == old(folder) && activeType == old(activeType) && sensitive == old(sensitive)
    {
      if !cameraPresent || imageType < 0 {
        return;
      }
      var name, replaced := RetypeName(fileName, imageType);
      if replaced {
        fileName := name;
      }
    }

    /** FileSelectorButtonPressed: with a camera and a selected type, the entry gets the
        chosen folder followed by "/image" and the type's extension. */
    method FileSelectorButtonPressed(cameraPresent: bool, imageType: int, chosen: seq<char>)
      requires imageType < |EXTENSIONS|
      modifies this
      ensures !cameraPresent || imageType < 0 ==> fileName == old(fileName)
      ensures cameraPresent && imageType >= 0 ==> fileName == SelectorName(chosen, imageType)
      ensures folder == old(folder) && activeType == old(activeType) && sensitive == old(sensitive)
    {
      if !cameraPresent || imageType < 0 {
        return;
      }
      fileName := chosen + IMAGE_STEM + EXTENSIONS[imageType];
    }
  }

  /** A dot with no dot after it is the last one. */
  lemma LastDotAt(s: seq<char>, p: nat)
    requires p < |s| && s[p] == '.'
    requires forall j :: p < j < |s| ==> s[j] != '.'
    ensures LastIndexOf(s, '.') == Some(p)
  {
  }

  /** The last dot of `stem + ext` is the extension's own when `ext` is dot-led. */
  lemma LastDotOfDotLed(stem: seq<char>, ext: seq<char>)
    requires DotLed(ext)
    ensures LastIndexOf(stem + ext, '.') == Some(|stem|)
    ensures (stem + ext)[..|stem|] == stem && (stem + ext)[|stem|..] == ext
  {
    var s := stem + ext;
    forall j | |stem| < j < |s|
      ensures s[j] != '.'
    {
      assert s[j] == ext[j - |stem|];
    }
    LastDotAt(s, |stem|);
    assert s[|stem|..] == ext;
    assert s[..|stem|] == stem;
  }

  /** Choosing type `a` and then type `b` gives the name that choosing `b` alone gives:
      the later choice wins and retyping is idempotent. */
  lemma RetypeLastChoiceWins(name: seq<char>, a: nat, b: nat)
    requires a < |EXTENSIONS| && b < |EXTENSIONS|
    ensures Retyped(Retyped(name, a), b) == Retyped(name, b)
  {
    if HasKnownExtension(name) {
      var stem := name[..LastIndexOf(name, '.').value];
      ExtensionIsPrefixTest(stem, [], b, a);
      assert stem + EXTENSIONS[a] + [] == Retyped(name, a);
    }
  }

  /** A name without a dot is left as the user wrote it, whatever the type. */
  lemma NoDotNoChange(name: seq<char>, t: nat)
    requires t < |EXTENSIONS| && '.' !in name
    ensures Retyped(name, t) == name
  {
  }

  /** A known extension is recognised by a prefix test, so any dot-free text after it
      is dropped with it: "shot.bmpx" retyped to TIFF is "shot.tiff". */
  lemma ExtensionIsPrefixTest(stem: seq<char>, rest: seq<char>, t: nat, u: nat)
    requires t < |EXTENSIONS| && u < |EXTENSIONS| && '.' !in rest
    ensures Retyped(stem + EXTENSIONS[u] + rest, t) == stem + EXTENSIONS[t]
  {
    var ext := EXTENSIONS[u];
    ExtensionShape(u);
    assert DotLed(ext + rest);
    LastDotOfDotLed(stem, ext + rest);
    assert stem + ext + rest == stem + (ext + rest);
    assert (ext + rest)[..|ext|] == ext;
    assert MatchesExtension((stem + (ext + rest))[|stem|..], EXTENSIONS[u]);
  }

  /** Retyping the default name gives the name that choosing the working directory in the
      folder selector gives. */
  lemma RetypedDefaultIsSelectorName(cwd: seq<char>, t: nat)
    requires t < |EXTENSIONS|
    ensures Retyped(DefaultName(Some(cwd)), t) == SelectorName(cwd, t)
  {
    assert DefaultName(Some(cwd)) == (cwd + IMAGE_STEM) + EXTENSIONS[0] + [];
    ExtensionIsPrefixTest(cwd + IMAGE_STEM, [], t, 0);
  }
}
