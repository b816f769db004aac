/** Naming and validation logic of the light-field to MVE converter: the
    view key and view-folder name derived from an image or depth-map file
    name, the view id parsed from it, the constant per-pixel view map, and
    the checks on the source listings and the command line. File and
    directory I/O is not part of this model. */
module LightFieldToMve {
  import opened Results
  import opened MachineWords

  // ---------------------------------------------------------------------------
  // std::string primitives (single-character needles)

  /** `s.rfind(c)`: the last position of `c`, or `npos`. */
  function RFind(s: string, c: char): (pos: SizeT)
    requires |s| < NPOS
    ensures pos == NPOS <==> c !in s
    ensures pos != NPOS ==> pos < |s| && s[pos] == c && c !in s[pos + 1..]
  {
    if |s| == 0 then NPOS
    else if s[|s| - 1] == c then |s| - 1
    else
      var p := RFind(s[..|s| - 1], c);
      assert s == s[..|s| - 1] + [s[|s| - 1]];
      assert p != NPOS ==> s[p + 1..] == s[..|s| - 1][p + 1..] + [s[|s| - 1]];
      p
  }

  /** `s.find(c)`: the first position of `c`, or `npos`. */
  function Find(s: string, c: char): (pos: SizeT)
    requires |s| < NPOS
    ensures pos == NPOS <==> c !in s
    ensures pos != NPOS ==> pos < |s| && s[pos] == c && c !in s[..pos]
  {
    if |s| == 0 then NPOS
    else if s[0] == c then 0
    else
      var p := Find(s[1..], c);
      assert s == [s[0]] + s[1..];
      if p == NPOS then NPOS
      else
        assert s[..p + 1] == [s[0]] + s[1..][..p];
        p + 1
  }

  /** `s.substr(pos, count)`; the library throws when `pos > s.size()`,
      which the callers here never do. */
  function Substr(s: string, pos: SizeT, count: SizeT): (r: string)
    requires pos <= |s|
    ensures |r| == (if count < |s| - pos then count else |s| - pos)
    ensures r == s[pos..][..|r|]
  {
    if count < |s| - pos then s[pos..pos + count] else s[pos..]
  }

  // ---------------------------------------------------------------------------
  // View key and view folder

  /** `name.substr(name.rfind("_") + 1)`: the part after the last
      underscore. Without an underscore `rfind` yields `npos`, and
      `npos + 1` wraps to 0 in `size_t`, so the whole name is kept. */
  function AfterLastUnderscore(name: string): (tail: string)
    requires |name| < NPOS
    ensures '_' !in tail
    ensures |tail| <= |name| && tail == name[|name| - |tail|..]
    ensures |tail| < |name| ==> name[|name| - |tail| - 1] == '_'
    ensures '_' !in name ==> tail == name
  {
    var start := (RFind(name, '_') + 1) % TWO_64;
    Substr(name, start, NPOS)
  }

  /** `suffix.substr(0, suffix.find("."))`: the part before the first dot,
      or all of it when there is no dot. */
  function BeforeFirstDot(suffix: string): (r: string)
    requires |suffix| < NPOS
    ensures '.' !in r
    ensures |r| <= |suffix| && r == suffix[..|r|]
    ensures |r| < |suffix| ==> suffix[|r|] == '.'
  {
    Substr(suffix, 0, Find(suffix, '.'))
  }

  /** The view key of a file name, computed in both conversion loops by
      `substr(rfind('_') + 1)` then `substr(0, find('.'))`: the text between
      the last underscore and the next dot. */
  function ViewKey(name: string): (key: string)
    requires |name| < NPOS
    ensures '_' !in key && '.' !in key
  {
    BeforeFirstDot(AfterLastUnderscore(name))
  }

  /** Independent description of the view key: `key` is the slice
      `name[i..j]`, which starts at the beginning or right after an
      underscore with no underscore after it, contains no dot, and ends at
      the end of the name or right before a dot. */
  predicate IsViewKeyAt(name: string, key: string, i: int, j: int) {
    && 0 <= i <= j <= |name| && key == name[i..j]
    && (i == 0 || name[i - 1] == '_') && '_' !in name[i..]
    && '.' !in key && (j == |name| || name[j] == '.')
  }

  ghost predicate IsViewKey(name: string, key: string) {
    exists i, j :: IsViewKeyAt(name, key, i, j)
  }

  /** The MVE view directory of a view key: `"view_" + key + ".mve"`. */
  function ViewFolderName(key: string): (folder: string)
    ensures |folder| == |key| + 9
    ensures folder[..5] == "view_" && folder[5..|folder| - 4] == key && folder[|folder| - 4..] == ".mve"
  {
    "view_" + key + ".mve"
  }

  /** The view key a view directory name was made from, if it has the shape
      `view_<key>.mve`. */
  function KeyOfViewFolder(folder: string): (key: Option<string>)
    ensures key.Some? ==> |folder| == |key.value| + 9
  {
    if |folder| >= 9 && folder[..5] == "view_" && folder[|folder| - 4..] == ".mve"
    then Some(folder[5..|folder| - 4])
    else None
  }

  /** A view directory name gives back the key it was made from, and only
      names of that shape give back a key. */
  lemma ViewFolderRoundTrip(key: string)
    ensures KeyOfViewFolder(ViewFolderName(key)) == Some(key)
  {
    var folder := ViewFolderName(key);
    assert folder[..5] == "view_";
    assert folder[|folder| - 4..] == ".mve";
    assert folder[5..|folder| - 4] == key;
  }

  /** The view directory a file is written into. */
  function ViewFolder(name: string): (folder: string)
    requires |name| < NPOS
    ensures KeyOfViewFolder(folder) == Some(ViewKey(name))
    ensures '_' !in folder[5..|folder| - 4] && '.' !in folder[5..|folder| - 4]
  {
    ViewFolderRoundTrip(ViewKey(name));
    ViewFolderName(ViewKey(name))
  }

  // ---------------------------------------------------------------------------
  // std::stoi and std::to_string on `int`

  const INT_MIN: int := -0x8000_0000
  const INT_MAX: int := 0x7FFF_FFFF

  /** The two exceptions `std::stoi` throws. */
  datatype StoiError = InvalidArgument | OutOfRange

  /** `isspace` in the "C" locale. */
  predicate IsSpace(c: char) {
    c == ' ' || ('\t' <= c <= '\r')
  }

  predicate IsDigit(c: char) {
    '0' <= c <= '9'
  }

  predicate AllDigits(s: string) {
    forall k :: 0 <= k < |s| ==> IsDigit(s[k])
  }

  /** The input with its leading white space removed. */
  function SkipSpaces(s: string): (r: string)
    ensures |r| <= |s| && r == s[|s| - |r|..]
    ensures forall k :: 0 <= k < |s| - |r| ==> IsSpace(s[k])
    ensures r == [] || !IsSpace(r[0])
  {
    if |s| > 0 && IsSpace(s[0]) then
      var r := SkipSpaces(s[1..]);
      assert forall k :: 1 <= k < |s| - |r| ==> s[k] == s[1..][k - 1];
      r
    else s
  }

  /** The length of the run of decimal digits the input starts with. */
  function LeadingDigits(s: string): (n: nat)
    ensures n <= |s| && AllDigits(s[..n])
    ensures n == |s| || !IsDigit(s[n])
  {
    if |s| > 0 && IsDigit(s[0]) then
      var n := LeadingDigits(s[1..]);
      assert s[..n + 1] == [s[0]] + s[1..][..n];
      n + 1
    else 0
  }

  /** The value of a string of decimal digits, most significant first. */
  function DigitsValue(d: string): nat
    requires AllDigits(d)
  {
    if |d| == 0 then 0
    else DigitsValue(d[..|d| - 1]) * 10 + (d[|d| - 1] as int - '0' as int)
  }

  /** `std::stoi(s)` in base 10: white space is skipped, one sign is
      accepted, and the longest run of digits after it is converted; the
      rest of the string is ignored. No digit at all throws
      `invalid_argument`; a value outside `int` throws `out_of_range`. */
  function Stoi(s: string): (r: Result<int, StoiError>)
    ensures r.Success? ==> INT_MIN <= r.value <= INT_MAX
  {
    ParseSigned(SkipSpaces(s))
  }

  /** The sign step of `Stoi`, on the text after the white space. */
  function ParseSigned(t: string): (r: Result<int, StoiError>)
    ensures r.Success? ==> INT_MIN <= r.value <= INT_MAX
  {
    if |t| > 0 && (t[0] == '-' || t[0] == '+') then ParseDigits(t[0] == '-', t[1..])
    else ParseDigits(false, t)
  }

  /** The digit step of `Stoi`, on the text after the sign. */
  function ParseDigits(negative: bool, u: string): (r: Result<int, StoiError>)
    ensures r.Success? ==> INT_MIN <= r.value <= INT_MAX
    ensures r.Failure? && r.error == InvalidArgument <==> LeadingDigits(u) == 0
  {
    var n := LeadingDigits(u);
    if n == 0 then Failure(InvalidArgument)
    else
      var magnitude: int := DigitsValue(u[..n]);
      var v: int := if negative then -magnitude else magnitude;
      if INT_MIN <= v <= INT_MAX then Success(v) else Failure(OutOfRange)
  }

  /** The decimal digits of a natural number, without leading zeros. */
  function Digits(n: nat): (d: string)
    ensures |d| > 0 && AllDigits(d)
    ensures n >= 10 ==> d[0] != '0'
  {
    if n < 10 then ['0' + n as char]
    else
      var d := Digits(n / 10) + ['0' + (n % 10) as char];
      assert d[0] == Digits(n / 10)[0];
      d
  }

  /** `std::to_string(v)` for an `int`. */
  function IntToString(v: int): (s: string)
    ensures |s| > 0
    ensures s[0] == '-' <==> v < 0
    ensures v < 0 ==> AllDigits(s[1..]) && |s| > 1
    ensures 0 <= v ==> AllDigits(s)
  {
    if v < 0 then "-" + Digits(-v) else Digits(v)
  }

  // ---------------------------------------------------------------------------
  // Per-view output naming

  /** What the image loop of `convertImages` derives from one image name:
      the view directory, the id written as `view.id`, and the view key
      written as `view.name`. */
  datatype ImageView = ImageView(folder: string, id: int, idText: string, name: string)

  /** The naming part of one image-loop iteration. The id is parsed from the
      text after the last underscore BEFORE the dot is cut off. */
  function ImageViewOf(img: string): (r: Result<ImageView, StoiError>)
    requires |img| < NPOS
    ensures r.Success? ==> KeyOfViewFolder(r.value.folder) == Some(r.value.name)
    ensures r.Success? ==> r.value.name == ViewKey(img) && INT_MIN <= r.value.id <= INT_MAX
    ensures r.Success? ==> Stoi(AfterLastUnderscore(img)) == Success(r.value.id)
    ensures r.Success? ==> r.value.idText == IntToString(r.value.id) && r.value.folder == ViewFolder(img)
    ensures r.Failure? <==> Stoi(AfterLastUnderscore(img)).Failure?
  {
    var suffix := AfterLastUnderscore(img);
    var id :- Stoi(suffix);
    var key := BeforeFirstDot(suffix);
    var folder := ViewFolderName(key);
    ViewFolderRoundTrip(key);
    Success(ImageView(folder, id, IntToString(id), key))
  }

  /** What the depth-map loop of `convertDepthMaps` derives from one
      depth-map name and its stored image size: the view directory and the
      view map with one entry per pixel. */
  datatype DepthMapView = DepthMapView(folder: string, viewMap: seq<int>)

  /** The view map `vector<int>(pixelCount, viewID)`: `count` entries,
      every one set to `id`. */
  method FillViewMap(count: nat, id: int) returns (viewMap: seq<int>)
    ensures |viewMap| == count
    ensures forall k :: 0 <= k < count ==> viewMap[k] == id
  {
    viewMap := [];
    var filled := 0;
    while filled < count
      invariant filled <= count && |viewMap| == filled
      invariant forall k :: 0 <= k < filled ==> viewMap[k] == id
    {
      viewMap := viewMap + [id];
      filled := filled + 1;
    }
  }

  /** The id the depth-map loop parses with `stoi(suffix)`: from the view
      key, i.e. AFTER the dot has been cut off. */
  function DepthMapViewId(dm: string): (r: Result<int, StoiError>)
    requires |dm| < NPOS
    ensures r.Success? ==> INT_MIN <= r.value <= INT_MAX
  {
    Stoi(ViewKey(dm))
  }

  /** The naming part of one depth-map iteration: the depth map goes into
      the directory of its view key, and the view map holds the view id
      once per pixel. */
  method DepthMapViewOf(dm: string, width: UInt32, height: UInt32) returns (r: Result<DepthMapView, StoiError>)
    requires |dm| < NPOS
    ensures r.Success? <==> DepthMapViewId(dm).Success?
    ensures r.Success? ==> KeyOfViewFolder(r.value.folder) == Some(ViewKey(dm))
    ensures r.Success? ==> |r.value.viewMap| == width * height
    ensures r.Success? ==> forall k :: 0 <= k < |r.value.viewMap| ==> r.value.viewMap[k] == DepthMapViewId(dm).value
  {
    var key := ViewKey(dm);
    var folder := ViewFolderName(key);
    ViewFolderRoundTrip(key);
    var id := DepthMapViewId(dm);
    if id.Failure? {
      return Failure(id.error);
    }
    MulNonNegative(width, height);
    var pixels: nat := width * height;
    var viewMap := FillViewMap(pixels, id.value);
    r := Success(DepthMapView(folder, viewMap));
  }

  // ---------------------------------------------------------------------------
  // Validation of the source listings and of the command line

  /** Why `findSourceData` rejects the listings. */
  datatype SourceDataError = NoImages | CountMismatch

  /** `findSourceData` on the two directory listings (`.jpg` images and
      `.dmap` depth maps): at least one image, and as many depth maps as
      images. */
  function FindSourceData(images: seq<string>, depthMaps: seq<string>): (r: Result<(), SourceDataError>)
    ensures r.Success? <==> |images| > 0 && |images| == |depthMaps|
    ensures r == Failure(NoImages) <==> |images| == 0
    ensures r == Failure(CountMismatch) <==> 0 < |images| != |depthMaps|
  {
    if 0 == |images| then Failure(NoImages)
    else if |images| != |depthMaps| then Failure(CountMismatch)
    else Success(())
  }

  /** The six positional arguments; the three numbers are kept as the text
      that `sscanf` would read. */
  datatype Arguments = Arguments(
    focalLengthMM: string,
    focalLengthPixels: string,
    cameraSeparationMM: string,
    undistortedDir: string,
    depthMapsDir: string,
    targetDir: string)

  datatype ArgumentError = InvalidArgumentCount(count: nat)

  /** The command line that produces given arguments. */
  function ArgumentList(a: Arguments): (args: seq<string>)
    ensures |args| == 6
  {
    [a.focalLengthMM, a.focalLengthPixels, a.cameraSeparationMM, a.undistortedDir, a.depthMapsDir, a.targetDir]
  }

  /** `getArguments`: exactly six arguments, taken in order. */
  function GetArguments(args: seq<string>): (r: Result<Arguments, ArgumentError>)
    ensures r.Success? <==> |args| == 6
    ensures r.Success? ==> ArgumentList(r.value) == args
    ensures r.Failure? ==> r.error.count == |args|
  {
    if 6 != |args| then Failure(InvalidArgumentCount(|args|))
    else Success(Arguments(args[0], args[1], args[2], args[3], args[4], args[5]))
  }

  // ---------------------------------------------------------------------------
  // Start of `main`

  /** How `main` leaves its validation prologue. */
  datatype Start = Proceed | BadArguments | ExitCode(code: int)

  /** The prologue of `main` as written: the result of `getArguments` is
      discarded, so only the listings decide whether the conversion goes
      ahead. */
  function StartAsWritten(args: seq<string>, images: seq<string>, depthMaps: seq<string>): (r: Start)
    ensures r == Proceed <==> FindSourceData(images, depthMaps).Success?
    ensures r != Proceed ==> r == ExitCode(1)
  {
    var _ := GetArguments(args);
    if FindSourceData(images, depthMaps).Failure? then ExitCode(1) else Proceed
  }

  /** The prologue of `main` with the argument check honoured: the
      conversion goes ahead only with six arguments and acceptable
      listings. */
  function StartChecked(args: seq<string>, images: seq<string>, depthMaps: seq<string>): (r: Start)
    ensures r == Proceed <==> GetArguments(args).Success? && FindSourceData(images, depthMaps).Success?
    ensures r == BadArguments <==> |args| != 6
    ensures r == ExitCode(1) <==> |args| == 6 && FindSourceData(images, depthMaps).Failure?
  {
    if GetArguments(args).Failure? then BadArguments
    else if FindSourceData(images, depthMaps).Failure? then ExitCode(1)
    else Proceed
  }
}
