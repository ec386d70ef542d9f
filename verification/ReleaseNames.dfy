/** Which versions and uploads have a ref, and which (scripts/mobile-release-ref.ts): the texts written out. */
module ReleaseNames {
  import opened Wrappers
  import opened Text
  import opened ReleaseVersion

  const DIGITS := {'0', '1', '2', '3', '4', '5', '6', '7', '8', '9'}

  /** A positive number without leading zeros. */
  ghost predicate IsCount(s: string) {
    s != "" && s[0] in DIGITS - {'0'} && forall k :: 0 <= k < |s| ==> s[k] in DIGITS
  }

  lemma DigitIff(c: char)
    ensures IsDigit(c) <==> c in DIGITS
  {
    var code := c as int;
    assert c == code as char;
  }

  lemma CountIff(s: string)
    ensures IsPositive(s) <==> IsCount(s)
  {
    forall k | 0 <= k < |s| ensures IsDigit(s[k]) <==> s[k] in DIGITS { DigitIff(s[k]); }
  }

  /** The version 20dd.month.patch. */
  ghost predicate IsVersion(s: string, d: char, e: char, month: string, patch: string) {
    && s == "20" + [d, e] + "." + month + "." + patch && d in DIGITS && e in DIGITS
    && IsCount(month) && |month| <= 2 && IsCount(patch)
  }

  lemma GoodYear(year: string)
    ensures IsYear(year) <==> |year| == 4 && year == "20" + year[2..] && year[2] in DIGITS && year[3] in DIGITS
  {
    if |year| == 4 {
      DigitIff(year[2]);
      DigitIff(year[3]);
    }
  }

  /** A text is accepted as a version exactly when it is four digits beginning with 20, a month of one or two digits
      and a
      patch, both without leading zeros, with dots in between. */
  lemma VersionIff(s: string)
    ensures Parse(s).Ok? <==> exists d, e, month, patch :: IsVersion(s, d, e, month, patch)
  {
    if Parse(s).Ok? {
      var v := Parse(s).value;
      ShowUndoesParse(s);
      GoodYear(v.year);
      CountIff(v.month);
      CountIff(v.patch);
      assert v.year == "20" + [v.year[2], v.year[3]];
      assert IsVersion(s, v.year[2], v.year[3], v.month, v.patch);
    }
    if d, e, month, patch :| IsVersion(s, d, e, month, patch) {
      var v := Version("20" + [d, e], month, patch);
      assert v.year[2..] == [d, e];
      GoodYear(v.year);
      CountIff(month);
      CountIff(patch);
      ParseUndoesShow(v);
      assert Show(v) == s;
    }
  }

  /** White space around a version or a number does not count. A version is looked at before the upload; on iOS the
      upload
      is the build, on Android the version code, and the other one is not looked at. */
  lemma RefIs(p: Platform, version: string, build: string, code: string)
    ensures var (v, ref) := (Trim(version), MobileReleaseRefFor(p, version, build, code));
      match Parse(v)
      case Err(_) => ref == Err(InvalidVersion(version))
      case Ok(numbers) =>
        match p
        case IOS =>
          ref == if IsCount(Trim(build)) then Ok("refs/mo/mobile-releases/ios/" + v + "-" + Trim(build))
                 else Err(InvalidNumber(build))
        case Android =>
          if ValidateCode(numbers, code).Ok? then
            ref == Ok("refs/mo/mobile-releases/android/" + v + "-" + Trim(code))
          else
            ref == Err(if IsCount(Trim(code)) then InvalidCode(Trim(code)) else InvalidNumber(code))
  {
    var v := Trim(version);
    CountIff(Trim(build));
    CountIff(Trim(code));
    assert RefOf(IOS, v, Trim(build)) == "refs/mo/mobile-releases/ios/" + v + "-" + Trim(build);
    assert RefOf(Android, v, Trim(code)) == "refs/mo/mobile-releases/android/" + v + "-" + Trim(code);
  }
}
