/** Properties of the converter's naming and validation that relate several
    calls: the view key against its independent description, the
    view-folder round trip, the view id agreeing between the image loop and
    the depth-map loop, and the `std::stoi` / `std::to_string` round trip. */
module ConverterProperties {
  import opened Results
  import opened MachineWords
  import opened LightFieldToMve

  // ---------------------------------------------------------------------------
  // View key

  /** The facts `AfterLastUnderscore` and `BeforeFirstDot` establish about
      their results, stated without the functions. */
  predicate SplitsName(name: string, tail: string, cut: string) {
    && '_' !in tail && |tail| <= |name| && tail == name[|name| - |tail|..]
    && (|tail| < |name| ==> name[|name| - |tail| - 1] == '_')
    && '.' !in cut && |cut| <= |tail| && cut == tail[..|cut|]
    && (|cut| < |tail| ==> tail[|cut|] == '.')
  }

  lemma ViewKeySplitsName(name: string)
    requires |name| < NPOS
    ensures SplitsName(name, AfterLastUnderscore(name), ViewKey(name))
  {
  }

  /** A split of the name meets the description at its own positions. */
  lemma SplitIsDescribed(name: string, tail: string, cut: string)
    requires SplitsName(name, tail, cut)
    ensures IsViewKeyAt(name, cut, |name| - |tail|, |name| - |tail| + |cut|)
  {
    var start := |name| - |tail|;
    var stop := start + |cut|;
    assert name[start..stop] == cut;
    assert name[start..] == tail;
    if stop < |name| {
      assert name[stop] == tail[|cut|];
    }
  }

  /** Only one position can start a view key: the one right after the last
      underscore. */
  lemma SplitStartIsUnique(name: string, tail: string, i: int)
    requires '_' !in tail && |tail| <= |name| && tail == name[|name| - |tail|..]
    requires |tail| < |name| ==> name[|name| - |tail| - 1] == '_'
    requires 0 <= i <= |name| && (i == 0 || name[i - 1] == '_') && '_' !in name[i..]
    ensures i == |name| - |tail|
  {
  }

  /** Only one position can end a view key: the first dot, or the end. */
  lemma SplitStopIsUnique(tail: string, cut: string, k: int)
    requires '.' !in cut && |cut| <= |tail| && cut == tail[..|cut|]
    requires |cut| < |tail| ==> tail[|cut|] == '.'
    requires 0 <= k <= |tail| && '.' !in tail[..k] && (k == |tail| || tail[k] == '.')
    ensures k == |cut|
  {
  }

  /** Every slice meeting the description is the split's key. */
  lemma DescribedSliceIsSplit(name: string, tail: string, cut: string, key: string, i: int, j: int)
    requires SplitsName(name, tail, cut) && IsViewKeyAt(name, key, i, j)
    ensures key == cut
  {
    SplitStartIsUnique(name, tail, i);
    assert key == tail[..j - i];
    assert j < |name| ==> tail[j - i] == name[j];
    SplitStopIsUnique(tail, cut, j - i);
  }

  /** The computed view key satisfies the description. */
  lemma ViewKeyIsDescribed(name: string)
    requires |name| < NPOS
    ensures IsViewKey(name, ViewKey(name))
  {
    var tail := AfterLastUnderscore(name);
    ViewKeySplitsName(name);
    SplitIsDescribed(name, tail, ViewKey(name));
  }

  /** Every key the description admits is the computed one. */
  lemma DescribedKeyIsViewKey(name: string, key: string)
    requires |name| < NPOS && IsViewKey(name, key)
    ensures key == ViewKey(name)
  {
    var i, j :| IsViewKeyAt(name, key, i, j);
    ViewKeySplitsName(name);
    DescribedSliceIsSplit(name, AfterLastUnderscore(name), ViewKey(name), key, i, j);
  }

  /** `ViewKey` computes exactly the key the independent description
      admits: the key exists and is unique. */
  lemma ViewKeyMatchesDescription(name: string, key: string)
    requires |name| < NPOS
    ensures IsViewKey(name, key) <==> key == ViewKey(name)
  {
    ViewKeyIsDescribed(name);
    if IsViewKey(name, key) {
      DescribedKeyIsViewKey(name, key);
    }
  }

  /** Without an underscore the whole name up to its first dot is the key. */
  lemma ViewKeyWithoutUnderscore(name: string)
    requires |name| < NPOS && '_' !in name
    ensures ViewKey(name) == BeforeFirstDot(name)
  {
  }

  /** Two files are written into the same view directory exactly when
      their view keys agree; the key is recovered from the directory name. */
  lemma ViewFolderIdentifiesKey(a: string, b: string)
    requires |a| < NPOS && |b| < NPOS
    ensures ViewFolder(a) == ViewFolder(b) <==> ViewKey(a) == ViewKey(b)
    ensures KeyOfViewFolder(ViewFolder(a)) == Some(ViewKey(a))
  {
    ViewFolderRoundTrip(ViewKey(a));
    ViewFolderRoundTrip(ViewKey(b));
  }

  /** The other half of the round trip: a folder name that yields a key is
      the folder name made from that key. */
  lemma KeyOfViewFolderIsExact(folder: string)
    requires KeyOfViewFolder(folder).Some?
    ensures ViewFolderName(KeyOfViewFolder(folder).value) == folder
  {
    var key := KeyOfViewFolder(folder).value;
    assert folder == folder[..5] + folder[5..|folder| - 4] + folder[|folder| - 4..];
  }

  // ---------------------------------------------------------------------------
  // std::stoi

  /** A character at which `std::stoi` stops before it has read a digit. */
  predicate StopsNumber(c: char) {
    !IsSpace(c) && !IsDigit(c) && c != '+' && c != '-'
  }

  lemma {:induction false} SkipSpacesAppend(p: string, rest: string)
    requires rest == [] || !IsSpace(rest[0])
    ensures SkipSpaces(p + rest) == SkipSpaces(p) + rest
  {
    if |p| == 0 {
      assert p + rest == rest;
    } else if IsSpace(p[0]) {
      assert (p + rest)[1..] == p[1..] + rest;
      SkipSpacesAppend(p[1..], rest);
    }
  }

  lemma {:induction false} LeadingDigitsAppend(u: string, rest: string)
    requires rest == [] || !IsDigit(rest[0])
    ensures LeadingDigits(u + rest) == LeadingDigits(u)
  {
    if |u| == 0 {
      assert u + rest == rest;
    } else if IsDigit(u[0]) {
      assert (u + rest)[1..] == u[1..] + rest;
      LeadingDigitsAppend(u[1..], rest);
    }
  }

  lemma {:induction false} LeadingDigitsOfDigits(d: string, rest: string)
    requires AllDigits(d)
    requires rest == [] || !IsDigit(rest[0])
    ensures LeadingDigits(d + rest) == |d|
  {
    if |d| == 0 {
      assert d + rest == rest;
    } else {
      assert (d + rest)[1..] == d[1..] + rest;
      LeadingDigitsOfDigits(d[1..], rest);
    }
  }

  /** The digit step does not look past a character that is not a digit. */
  lemma ParseDigitsIgnoresTail(negative: bool, u: string, rest: string)
    requires rest == [] || !IsDigit(rest[0])
    ensures ParseDigits(negative, u + rest) == ParseDigits(negative, u)
  {
    LeadingDigitsAppend(u, rest);
    var n := LeadingDigits(u);
    assert (u + rest)[..n] == u[..n];
  }

  /** The sign step does not look past a character that ends the number. */
  lemma ParseSignedIgnoresTail(t: string, rest: string)
    requires rest == [] || StopsNumber(rest[0])
    ensures ParseSigned(t + rest) == ParseSigned(t)
  {
    if |t| > 0 {
      assert (t + rest)[0] == t[0];
      if t[0] == '-' || t[0] == '+' {
        assert (t + rest)[1..] == t[1..] + rest;
        ParseDigitsIgnoresTail(t[0] == '-', t[1..], rest);
      } else {
        ParseDigitsIgnoresTail(false, t, rest);
      }
    } else {
      assert t + rest == rest;
      ParseDigitsIgnoresTail(false, t, rest);
    }
  }

  /** `std::stoi` does not look past a character that ends the number. */
  lemma StoiIgnoresTail(p: string, rest: string)
    requires rest == [] || StopsNumber(rest[0])
    ensures Stoi(p + rest) == Stoi(p)
  {
    SkipSpacesAppend(p, rest);
    ParseSignedIgnoresTail(SkipSpaces(p), rest);
  }

  /** Cutting a string at its first dot does not change what `std::stoi`
      reads from it. */
  lemma StoiStopsAtDot(s: string)
    requires |s| < NPOS
    ensures Stoi(s) == Stoi(BeforeFirstDot(s))
  {
    var p := BeforeFirstDot(s);
    var rest := s[|p|..];
    assert s == p + rest;
    StoiIgnoresTail(p, rest);
  }

  /** A run of decimal digits followed by an extension parses to the value
      of the digits. The proof is direct; automatic induction is switched
      off because its hypotheses only slow the solver down here. */
  lemma {:induction false} StoiOfDigitsWithExtension(d: string, ext: string)
    requires 0 < |d| && AllDigits(d) && DigitsValue(d) <= INT_MAX
    requires ext == [] || ext[0] == '.'
    ensures Stoi(d + ext) == Success(DigitsValue(d))
  {
    var s := d + ext;
    assert s[0] == d[0];
    assert SkipSpaces(s) == s;
    assert ParseSigned(s) == ParseDigits(false, s);
    ParseDigitsIgnoresTail(false, d, ext);
    ParseDigitsOfDigits(false, d);
  }

  lemma {:induction false} DigitsRoundTrip(n: nat)
    ensures DigitsValue(Digits(n)) == n
  {
    if n >= 10 {
      DigitsRoundTrip(n / 10);
      var d := Digits(n);
      assert d[..|d| - 1] == Digits(n / 10);
    }
  }

  function SignedValue(negative: bool, d: string): int
    requires AllDigits(d)
  {
    var magnitude: int := DigitsValue(d);
    if negative then -magnitude else magnitude
  }

  /** The digit step on a whole string of digits. */
  lemma ParseDigitsOfDigits(negative: bool, d: string)
    requires 0 < |d| && AllDigits(d)
    requires INT_MIN <= SignedValue(negative, d) <= INT_MAX
    ensures ParseDigits(negative, d) == Success(SignedValue(negative, d))
  {
    LeadingDigitsOfDigits(d, []);
    assert d + [] == d;
    assert d[..|d|] == d;
  }

  /** `to_string` of a non-negative `int` parses back. */
  lemma StoiOfNonNegative(v: nat)
    requires v <= INT_MAX
    ensures Stoi(Digits(v)) == Success(v)
  {
    var d := Digits(v);
    DigitsRoundTrip(v);
    assert !(d[0] == '-' || d[0] == '+') && !IsSpace(d[0]);
    assert SkipSpaces(d) == d;
    ParseDigitsOfDigits(false, d);
  }

  /** `to_string` of a negative `int` parses back. */
  lemma StoiOfNegative(m: nat)
    requires 0 < m <= -INT_MIN
    ensures Stoi("-" + Digits(m)) == Success(-(m as int))
  {
    var d := Digits(m);
    var s := "-" + d;
    DigitsRoundTrip(m);
    assert SkipSpaces(s) == s;
    assert s[0] == '-' && s[1..] == d;
    ParseDigitsOfDigits(true, d);
  }

  /** The `view.id` text written into `meta.ini` parses back to the id. */
  lemma StoiOfIntToString(v: int)
    requires INT_MIN <= v <= INT_MAX
    ensures Stoi(IntToString(v)) == Success(v)
  {
    if v < 0 {
      StoiOfNegative(-v);
    } else {
      StoiOfNonNegative(v);
    }
  }

  // ---------------------------------------------------------------------------
  // Image loop versus depth-map loop

  /** An image and a depth map with the same view key land in the same view
      directory, and the id the image loop parses before cutting the
      extension equals the id the depth-map loop parses after cutting it
      and writes into every view-map entry. */
  lemma ImageAndDepthMapAgree(img: string, dm: string)
    requires |img| < NPOS && |dm| < NPOS
    requires ViewKey(img) == ViewKey(dm)
    ensures ImageViewOf(img).Success? <==> DepthMapViewId(dm).Success?
    ensures ImageViewOf(img).Success? ==>
      ImageViewOf(img).value.id == DepthMapViewId(dm).value
      && ImageViewOf(img).value.folder == ViewFolder(dm)
  {
    StoiStopsAtDot(AfterLastUnderscore(img));
  }

  /** The digits of `<prefix>_<digits>.<ext>` meet the view-key
      description. */
  lemma NumberedNameDescribed(prefix: string, digits: string, ext: string)
    requires AllDigits(digits)
    requires ext == [] || (ext[0] == '.' && '_' !in ext)
    ensures IsViewKeyAt(prefix + "_" + digits + ext, digits, |prefix| + 1, |prefix| + 1 + |digits|)
  {
    var name := prefix + "_" + digits + ext;
    var i := |prefix| + 1;
    var j := i + |digits|;
    assert name[i..j] == digits;
    assert name[i..] == digits + ext;
    assert forall k :: 0 <= k < |digits| ==> digits[k] != '_' && digits[k] != '.';
    assert j < |name| ==> name[j] == ext[0];
    assert name[i - 1] == '_';
    assert forall k :: 0 <= k < |ext| ==> ext[k] != '_';
  }

  /** For `<prefix>_<digits>.<ext>`, the text after the last underscore is
      `<digits>.<ext>` and the view key is the digits. */
  lemma NumberedNameKey(prefix: string, digits: string, ext: string)
    requires |prefix + "_" + digits + ext| < NPOS
    requires AllDigits(digits)
    requires ext == [] || (ext[0] == '.' && '_' !in ext)
    ensures AfterLastUnderscore(prefix + "_" + digits + ext) == digits + ext
    ensures ViewKey(prefix + "_" + digits + ext) == digits
  {
    var name := prefix + "_" + digits + ext;
    NumberedNameDescribed(prefix, digits, ext);
    ViewKeyMatchesDescription(name, digits);
    var tail := AfterLastUnderscore(name);
    SplitStartIsUnique(name, tail, |prefix| + 1);
    assert tail == name[|prefix| + 1..];
  }

  /** For the converter's usual names, `<prefix>_<digits>.<ext>`, the view
      key is the digits and the view id is the number they spell. */
  lemma NumberedNameId(prefix: string, digits: string, ext: string)
    requires |prefix + "_" + digits + ext| < NPOS
    requires 0 < |digits| && AllDigits(digits) && DigitsValue(digits) <= INT_MAX
    requires ext == [] || (ext[0] == '.' && '_' !in ext)
    ensures ViewKey(prefix + "_" + digits + ext) == digits
    ensures ImageViewOf(prefix + "_" + digits + ext) ==
      Success(ImageView(ViewFolderName(digits), DigitsValue(digits), IntToString(DigitsValue(digits)), digits))
  {
    NumberedNameKey(prefix, digits, ext);
    StoiOfDigitsWithExtension(digits, ext);
  }

  // ---------------------------------------------------------------------------
  // Validation

  /** Even no images and no depth maps is rejected, for lack of images. */
  lemma EmptySourceDataIsRejected()
    ensures FindSourceData([], []) == Failure(NoImages)
  {
  }

  /** `getArguments` takes back exactly the command line built from a set
      of arguments. */
  lemma GetArgumentsRoundTrip(a: Arguments)
    ensures GetArguments(ArgumentList(a)) == Success(a)
  {
  }

  /** As written, `main` goes ahead with five arguments when the listings
      look acceptable, although `getArguments` rejected the command line;
      with the check honoured it stops. */
  lemma StartAsWrittenIgnoresArgumentCount()
    ensures GetArguments(["35", "2000", "65", "undist", "dmaps"]).Failure?
    ensures StartAsWritten(["35", "2000", "65", "undist", "dmaps"], ["img_0.jpg"], ["img_0.dmap"]) == Proceed
    ensures StartChecked(["35", "2000", "65", "undist", "dmaps"], ["img_0.jpg"], ["img_0.dmap"]) == BadArguments
  {
  }

  /** Whenever the checked prologue goes ahead, the as-written one does
      too: the correction only adds a rejection. */
  lemma StartCheckedRefinesAsWritten(args: seq<string>, images: seq<string>, depthMaps: seq<string>)
    ensures StartChecked(args, images, depthMaps) == Proceed ==>
      StartAsWritten(args, images, depthMaps) == Proceed
    ensures |args| == 6 ==> StartChecked(args, images, depthMaps) == StartAsWritten(args, images, depthMaps)
  {
  }
}
