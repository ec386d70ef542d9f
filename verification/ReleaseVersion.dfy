/** Names of mobile releases (scripts/mobile-release-ref.ts): versions, build numbers, Android version codes, and the
    refs that record them. */
module ReleaseVersion {
  import opened Wrappers
  import opened Sequences
  import opened Text

  datatype Platform = IOS | Android

  datatype Error = InvalidVersion(version: string) | InvalidNumber(value: string) | InvalidCode(code: string)

  predicate IsDigit(c: char) { '0' <= c <= '9' }

  predicate AllDigits(s: string) { forall k :: 0 <= k < |s| ==> IsDigit(s[k]) }

  /** Digits without a leading zero. */
  predicate IsPositive(s: string) { s != "" && s[0] != '0' && AllDigits(s) }

  predicate IsYear(s: string) { |s| == 4 && s[0] == '2' && s[1] == '0' && AllDigits(s) }

  predicate IsMonth(s: string) { IsPositive(s) && |s| <= 2 }

  /** The three numbers of a version, as text. */
  datatype Version = Version(year: string, month: string, patch: string)

  predicate GoodVersion(v: Version) { IsYear(v.year) && IsMonth(v.month) && IsPositive(v.patch) }

  function Show(v: Version): string { v.year + "." + v.month + "." + v.patch }

  /** The numbers of a version, or none if the text is not one. */
  function Parse(s: string): Result<Version, Error> {
    var parts := SplitOn(s, '.');
    if |parts| == 3 && GoodVersion(Version(parts[0], parts[1], parts[2])) then Ok(Version(parts[0], parts[1], parts[2]))
    else Err(InvalidVersion(s))
  }

  function ValidateVersion(version: string): Result<string, Error> {
    if Parse(Trim(version)).Ok? then Ok(Trim(version)) else Err(InvalidVersion(version))
  }

  function ValidatePositiveInteger(value: string): Result<string, Error> {
    if IsPositive(Trim(value)) then Ok(Trim(value)) else Err(InvalidNumber(value))
  }

  function PadTwo(s: string): string { if |s| == 0 then "00" else if |s| == 1 then "0" + s else s }

  function CodePrefix(v: Version): string { v.year + PadTwo(v.month) + PadTwo(v.patch) }

  function Digit(c: char): int { c as int - '0' as int }

  /** The number that digits stand for. */
  function Number(s: string): int {
    if s == "" then 0 else 10 * Number(s[..|s| - 1]) + Digit(s[|s| - 1])
  }

  /** A code is the version's prefix and a number from 01 to 99. */
  function ValidateCode(v: Version, code: string): Result<string, Error> {
    var r := ValidatePositiveInteger(code);
    if r.Err? then r
    else
      var c, prefix := r.value, CodePrefix(v);
      var suffix := if |prefix| <= |c| then c[|prefix|..] else "";
      if !(prefix <= c) || |c| != |prefix| + 2 || Number(suffix) < 1 || Number(suffix) > 99 then Err(InvalidCode(c))
      else Ok(c)
  }

  const REF_PREFIX := "refs/mo/mobile-releases"

  function Folder(p: Platform): string { if p == IOS then "/ios/" else "/android/" }

  /** What a platform numbers its uploads with: the build on iOS, the version code on Android. */
  function ValidateUpload(p: Platform, v: Version, build: string, code: string): Result<string, Error> {
    if p == IOS then ValidatePositiveInteger(build) else ValidateCode(v, code)
  }

  function RefOf(p: Platform, version: string, upload: string): string {
    REF_PREFIX + Folder(p) + version + "-" + upload
  }

  /** The ref of a release; a missing build or version code reads like an empty one. */
  function MobileReleaseRefFor(p: Platform, version: string, build: string, code: string): Result<string, Error> {
    var v := ValidateVersion(version);
    if v.Err? then v
    else
      var upload := ValidateUpload(p, Parse(v.value).value, build, code);
      if upload.Err? then upload else Ok(RefOf(p, v.value, upload.value))
  }

  // ---- versions are read without ambiguity

  lemma DigitsHaveNone(s: string, c: char)
    requires AllDigits(s) && !IsDigit(c)
    ensures c !in s
  {
  }

  lemma ShowIsJoin(v: Version)
    ensures Show(v) == Join([v.year, v.month, v.patch], '.')
  {
    var parts := [v.year, v.month, v.patch];
    assert parts[1..] == [v.month, v.patch] && parts[1..][1..] == [v.patch];
    assert Join([v.month, v.patch], '.') == v.month + ['.'] + v.patch by {
      assert [v.month, v.patch][1..] == [v.patch];
    }
    assert Join(parts, '.') == v.year + ['.'] + (v.month + ['.'] + v.patch);
  }

  /** A version is year, month and patch with dots in between, and is read back as these. */
  lemma ParseUndoesShow(v: Version)
    requires GoodVersion(v)
    ensures Parse(Show(v)) == Ok(v)
  {
    DigitsHaveNone(v.year, '.');
    DigitsHaveNone(v.month, '.');
    DigitsHaveNone(v.patch, '.');
    ShowIsJoin(v);
    SplitJoin([v.year, v.month, v.patch], '.');
  }

  lemma ShowUndoesParse(s: string)
    requires Parse(s).Ok?
    ensures Show(Parse(s).value) == s && GoodVersion(Parse(s).value)
  {
    var parts, v := SplitOn(s, '.'), Parse(s).value;
    JoinSplit(s, '.');
    assert parts == [v.year, v.month, v.patch];
    ShowIsJoin(v);
  }

  // ---- a code determines its version and suffix

  lemma PadTwoDistinct(a: string, b: string)
    requires IsPositive(a) && IsPositive(b) && PadTwo(a) == PadTwo(b)
    ensures a == b
  {
    assert |a| == 1 <==> PadTwo(a)[0] == '0';
    assert |b| == 1 <==> PadTwo(b)[0] == '0';
    assert a[|a| - 1] == PadTwo(a)[|PadTwo(a)| - 1] && b[|b| - 1] == PadTwo(b)[|PadTwo(b)| - 1];
  }

  /** Where a code's digits come from. */
  lemma CodeParts(v: Version, code: string, c: string)
    requires GoodVersion(v) && ValidateCode(v, code) == Ok(c)
    ensures c == Trim(code) && IsPositive(c) && |c| == 8 + |PadTwo(v.patch)|
    ensures c[..4] == v.year && c[4..6] == PadTwo(v.month) && c[6..|c| - 2] == PadTwo(v.patch)
    ensures 1 <= Number(c[|c| - 2..]) <= 99
    ensures c == v.year + PadTwo(v.month) + PadTwo(v.patch) + c[|c| - 2..]
  {
    var prefix := CodePrefix(v);
    assert c[..|prefix|] == prefix && |prefix| == |c| - 2;
    assert prefix[..4] == v.year && prefix[4..6] == PadTwo(v.month) && prefix[6..] == PadTwo(v.patch);
    assert c[..4] == c[..|prefix|][..4] && c[4..6] == c[..|prefix|][4..6] && c[6..|c| - 2] == c[..|prefix|][6..];
    Cut(c, |prefix|);
  }

  /** The same code cannot be valid for two versions, nor stand for two uploads of one. */
  lemma CodeDeterminesVersion(v: Version, a: string, w: Version, b: string)
    requires GoodVersion(v) && GoodVersion(w) && ValidateCode(v, a).Ok? && ValidateCode(v, a) == ValidateCode(w, b)
    ensures v == w
  {
    var c := ValidateCode(v, a).value;
    CodeParts(v, a, c);
    CodeParts(w, b, c);
    PadTwoDistinct(v.month, w.month);
    PadTwoDistinct(v.patch, w.patch);
  }

  function TwoDigits(n: nat): string
    requires n < 100
  {
    [('0' as int + n / 10) as char, ('0' as int + n % 10) as char]
  }

  lemma NumberOfTwo(s: string)
    requires |s| == 2 && AllDigits(s)
    ensures 0 <= Number(s) < 100 && s == TwoDigits(Number(s))
  {
    assert s[..1][..0] == "" && s[..1][0] == s[0];
    assert Number(s[..1]) == Digit(s[0]);
  }

  lemma NumberOfTwoDigits(n: nat)
    requires n < 100
    ensures AllDigits(TwoDigits(n)) && Number(TwoDigits(n)) == n
  {
    NumberOfTwo(TwoDigits(n));
  }

  lemma PrefixIsDigits(v: Version)
    requires GoodVersion(v)
    ensures AllDigits(CodePrefix(v)) && CodePrefix(v) != "" && CodePrefix(v)[0] == '2'
  {
  }

  /** Exactly the codes from prefix01 to prefix99 are valid. */
  lemma ValidCodes(v: Version, code: string)
    requires GoodVersion(v)
    ensures ValidateCode(v, code).Ok? <==> exists n: nat :: 1 <= n <= 99 && Trim(code) == CodePrefix(v) + TwoDigits(n)
    ensures ValidateCode(v, code).Ok? ==> ValidateCode(v, code).value == Trim(code)
  {
    var prefix, c := CodePrefix(v), Trim(code);
    if ValidateCode(v, code).Ok? {
      assert AllDigits(c[|prefix|..]);
      NumberOfTwo(c[|prefix|..]);
      Cut(c, |prefix|);
      assert c == prefix + TwoDigits(Number(c[|prefix|..]));
    }
    forall n: nat | 1 <= n <= 99 && c == prefix + TwoDigits(n) ensures ValidateCode(v, code).Ok? {
      NumberOfTwoDigits(n);
      PrefixIsDigits(v);
      assert c[|prefix|..] == TwoDigits(n);
    }
  }

  // ---- refs

  lemma HyphenSplits(a: string, x: string, b: string, y: string)
    requires '-' !in a && '-' !in b && a + "-" + x == b + "-" + y
    ensures a == b && x == y
  {
    var s, t := a + "-" + x, b + "-" + y;
    IndexOfIs(s, '-', |a|) by { assert s[..|a|] == a; }
    IndexOfIs(t, '-', |b|) by { assert t[..|b|] == b; }
    assert s[..|a|] == a && t[..|b|] == b && s[|a| + 1..] == x && t[|b| + 1..] == y;
  }

  lemma RefTails(p: Platform, version: string, upload: string)
    ensures RefOf(p, version, upload) == REF_PREFIX + (Folder(p) + (version + "-" + upload))
  {
    assert RefOf(p, version, upload) == REF_PREFIX + (Folder(p) + (version + "-" + upload));
  }

  lemma SamePrefix(prefix: string, a: string, b: string)
    requires prefix + a == prefix + b
    ensures a == b
  {
    assert (prefix + a)[|prefix|..] == a && (prefix + b)[|prefix|..] == b;
  }

  lemma FolderFirst(p: Platform, s: string, q: Platform, t: string)
    requires Folder(p) + s == Folder(q) + t
    ensures p == q && s == t
  {
    assert (Folder(p) + s)[1] == Folder(p)[1] && (Folder(q) + t)[1] == Folder(q)[1];
    SamePrefix(Folder(p), s, t);
  }

  lemma VersionHasNoHyphen(s: string)
    requires Parse(s).Ok?
    ensures '-' !in s
  {
    ShowUndoesParse(s);
    var v := Parse(s).value;
    DigitsHaveNone(v.year, '-');
    DigitsHaveNone(v.month, '-');
    DigitsHaveNone(v.patch, '-');
  }

  /** Two valid releases share a ref only if they are the same upload of the same version on the same platform. */
  lemma RefsAreFaithful(p: Platform, version: string, build: string, code: string, q: Platform, other: string,
                        otherBuild: string, otherCode: string)
    requires MobileReleaseRefFor(p, version, build, code).Ok?
    requires MobileReleaseRefFor(q, other, otherBuild, otherCode).Ok?
    ensures MobileReleaseRefFor(p, version, build, code) == MobileReleaseRefFor(q, other, otherBuild, otherCode)
       <==> p == q && Trim(version) == Trim(other)
            && (if p == IOS then Trim(build) == Trim(otherBuild) else Trim(code) == Trim(otherCode))
  {
    var v, w := Trim(version), Trim(other);
    var upload := ValidateUpload(p, Parse(v).value, build, code).value;
    var otherUpload := ValidateUpload(q, Parse(w).value, otherBuild, otherCode).value;
    if RefOf(p, v, upload) == RefOf(q, w, otherUpload) {
      RefTails(p, v, upload);
      RefTails(q, w, otherUpload);
      SamePrefix(REF_PREFIX, Folder(p) + (v + "-" + upload), Folder(q) + (w + "-" + otherUpload));
      FolderFirst(p, v + "-" + upload, q, w + "-" + otherUpload);
      VersionHasNoHyphen(v);
      VersionHasNoHyphen(w);
      HyphenSplits(v, upload, w, otherUpload);
    }
  }

  // ---- the order of codes

  function Pow10(n: nat): nat { if n == 0 then 1 else 10 * Pow10(n - 1) }

  lemma {:induction false} NumberBounds(s: string)
    requires AllDigits(s)
    ensures 0 <= Number(s) < Pow10(|s|)
    ensures s != "" && s[0] != '0' ==> Number(s) >= Pow10(|s| - 1)
    decreases |s|
  {
    if s != "" { NumberBounds(s[..|s| - 1]); }
  }

  lemma {:induction false} NumberConcat(a: string, b: string)
    ensures Number(a + b) == Number(a) * Pow10(|b|) + Number(b)
    decreases |b|
  {
    if b == "" {
      assert a + b == a;
    } else {
      var init := b[..|b| - 1];
      NumberConcat(a, init);
      assert (a + b)[..|a + b| - 1] == a + init;
      TimesTen(Number(a), Pow10(|init|));
    }
  }

  lemma TimesTen(a: int, p: int)
    ensures 10 * (a * p) == a * (10 * p)
  {
  }

  lemma GreaterBlock(a: int, c: int, k: int)
    requires a < c && 0 <= k
    ensures a * k + k <= c * k
  {
    Product(c - a - 1, k);
    assert c * k == (a + 1 + (c - a - 1)) * k;
    Distribute(a + 1, c - a - 1, k);
    Distribute(a, 1, k);
  }

  lemma Product(n: int, k: int)
    requires 0 <= n && 0 <= k
    ensures n * k >= 0
  {
  }

  lemma Distribute(m: int, n: int, k: int)
    ensures (m + n) * k == m * k + n * k
  {
  }

  lemma ConcatLess(a: string, b: string, c: string, d: string)
    requires |b| == |d| && AllDigits(b) && AllDigits(d) && Number(a) < Number(c)
    ensures Number(a + b) < Number(c + d)
  {
    NumberConcat(a, b);
    NumberConcat(c, d);
    NumberBounds(b);
    NumberBounds(d);
    GreaterBlock(Number(a), Number(c), Pow10(|b|));
  }

  lemma ConcatSame(a: string, b: string, c: string, d: string)
    requires |b| == |d| && Number(a) == Number(c)
    ensures Number(a + b) - Number(c + d) == Number(b) - Number(d)
  {
    NumberConcat(a, b);
    NumberConcat(c, d);
  }

  /** Digits in blocks of equal width compare block by block. */
  lemma ConcatCompare(a: string, b: string, c: string, d: string)
    requires |b| == |d| && AllDigits(b) && AllDigits(d)
    ensures Number(a + b) < Number(c + d)
         <==> Number(a) < Number(c) || (Number(a) == Number(c) && Number(b) < Number(d))
    ensures Number(a + b) == Number(c + d) <==> Number(a) == Number(c) && Number(b) == Number(d)
  {
    if Number(a) < Number(c) {
      ConcatLess(a, b, c, d);
    } else if Number(c) < Number(a) {
      ConcatLess(c, d, a, b);
    } else {
      ConcatSame(a, b, c, d);
    }
  }

  lemma PadTwoNumber(s: string)
    requires IsPositive(s)
    ensures Number(PadTwo(s)) == Number(s) && AllDigits(PadTwo(s))
  {
    if |s| == 1 {
      NumberConcat("0", s);
      assert Number("0") == 0;
    }
  }

  lemma {:induction false} Pow10Grows(m: nat, n: nat)
    requires m <= n
    ensures Pow10(m) <= Pow10(n)
    decreases n
  {
    if m < n { Pow10Grows(m, n - 1); }
  }

  lemma LongerIsGreater(a: string, b: string)
    requires AllDigits(a) && IsPositive(b) && |a| < |b|
    ensures Number(a) < Number(b)
  {
    NumberBounds(a);
    NumberBounds(b);
    Pow10Grows(|a|, |b| - 1);
  }

  /** Year, then month, then patch. */
  predicate Before(v: Version, w: Version) {
    Number(v.year) < Number(w.year)
    || (Number(v.year) == Number(w.year)
        && (Number(v.month) < Number(w.month)
           || (Number(v.month) == Number(w.month) && Number(v.patch) < Number(w.patch))))
  }

  predicate SameNumbers(v: Version, w: Version) {
    Number(v.year) == Number(w.year) && Number(v.month) == Number(w.month) && Number(v.patch) == Number(w.patch)
  }

  /** The order that releases have: by version, then by upload. */
  predicate ReleasedBefore(v: Version, c: string, w: Version, d: string)
    requires |c| >= 2 && |d| >= 2
  {
    Before(v, w) || (SameNumbers(v, w) && Number(c[|c| - 2..]) < Number(d[|d| - 2..]))
  }

  function PatchWidth(v: Version): nat { |PadTwo(v.patch)| }

  lemma PrefixCompare(v: Version, w: Version)
    requires GoodVersion(v) && GoodVersion(w) && PatchWidth(v) == PatchWidth(w)
    ensures Number(CodePrefix(v)) < Number(CodePrefix(w)) <==> Before(v, w)
    ensures Number(CodePrefix(v)) == Number(CodePrefix(w)) <==> SameNumbers(v, w)
  {
    PadTwoNumber(v.month);
    PadTwoNumber(w.month);
    PadTwoNumber(v.patch);
    PadTwoNumber(w.patch);
    ConcatCompare(v.year, PadTwo(v.month), w.year, PadTwo(w.month));
    ConcatCompare(v.year + PadTwo(v.month), PadTwo(v.patch), w.year + PadTwo(w.month), PadTwo(w.patch));
  }

  lemma SameWidthOrder(v: Version, c: string, w: Version, d: string)
    requires GoodVersion(v) && ValidateCode(v, c) == Ok(c) && GoodVersion(w) && ValidateCode(w, d) == Ok(d)
    requires PatchWidth(v) == PatchWidth(w)
    ensures |c| >= 2 && |d| >= 2 && (Number(c) < Number(d) <==> ReleasedBefore(v, c, w, d))
  {
    CodeParts(v, c, c);
    CodeParts(w, d, d);
    PrefixCompare(v, w);
    assert AllDigits(c[|c| - 2..]) && AllDigits(d[|d| - 2..]);
    ConcatCompare(CodePrefix(v), c[|c| - 2..], CodePrefix(w), d[|d| - 2..]);
  }

  /** Codes of different lengths compare by length alone. */
  lemma WidthOrder(v: Version, c: string, w: Version, d: string)
    requires GoodVersion(v) && ValidateCode(v, c) == Ok(c) && GoodVersion(w) && ValidateCode(w, d) == Ok(d)
    requires PatchWidth(v) != PatchWidth(w)
    ensures Number(c) < Number(d) <==> PatchWidth(v) < PatchWidth(w)
  {
    CodeParts(v, c, c);
    CodeParts(w, d, d);
    if |c| < |d| { LongerIsGreater(c, d); } else { LongerIsGreater(d, c); }
  }

  /** Version codes grow with releases, for all codes of these two versions at once, exactly when the patches have the
      same width (one and two digits being the same), or the version with the wider patch is the later one. */
  lemma OrderAgreesIff(v: Version, c: string, w: Version, d: string)
    requires GoodVersion(v) && ValidateCode(v, c) == Ok(c) && GoodVersion(w) && ValidateCode(w, d) == Ok(d)
    ensures |c| >= 2 && |d| >= 2
    ensures (Number(c) < Number(d) <==> ReleasedBefore(v, c, w, d))
       <==> PatchWidth(v) == PatchWidth(w) || (PatchWidth(v) < PatchWidth(w) <==> Before(v, w))
  {
    CodeParts(v, c, c);
    CodeParts(w, d, d);
    if PatchWidth(v) == PatchWidth(w) {
      SameWidthOrder(v, c, w, d);
    } else {
      WidthOrder(v, c, w, d);
      if SameNumbers(v, w) { WidthsDiffer(v.patch, w.patch); }
    }
  }

  lemma WidthsDiffer(a: string, b: string)
    requires IsPositive(a) && IsPositive(b) && |PadTwo(a)| != |PadTwo(b)|
    ensures Number(a) != Number(b)
  {
    if |a| < |b| { LongerIsGreater(a, b); } else { LongerIsGreater(b, a); }
  }

  /** With patches below one hundred, numeric order of codes is the order of releases. */
  lemma ShortPatchesOrder(v: Version, c: string, w: Version, d: string)
    requires GoodVersion(v) && ValidateCode(v, c) == Ok(c) && GoodVersion(w) && ValidateCode(w, d) == Ok(d)
    requires |v.patch| <= 2 && |w.patch| <= 2
    ensures |c| >= 2 && |d| >= 2 && (Number(c) < Number(d) <==> ReleasedBefore(v, c, w, d))
  {
    SameWidthOrder(v, c, w, d);
  }

  /** A three-digit patch overtakes the next month: 2025.1.100 is released before 2025.2.1, but its code is greater. */
  lemma LongPatchOvertakes()
    ensures var v, w := Version("2025", "1", "100"), Version("2025", "2", "1");
      GoodVersion(v) && GoodVersion(w) && Before(v, w)
      && exists c, d :: ValidateCode(v, c) == Ok(c) && ValidateCode(w, d) == Ok(d) && Number(c) > Number(d)
  {
    var v, w := Version("2025", "1", "100"), Version("2025", "2", "1");
    var c, d := CodePrefix(v) + TwoDigits(1), CodePrefix(w) + TwoDigits(1);
    SoonerMonth();
    PrefixIsDigits(v);
    PrefixIsDigits(w);
    NumberOfTwoDigits(1);
    AlreadyTrim(c);
    AlreadyTrim(d);
    ValidCodes(v, c);
    ValidCodes(w, d);
    WidthOrder(w, d, v, c);
  }

  lemma SoonerMonth()
    ensures Number("1") < Number("2")
  {
    assert "1"[..0] == "" && "2"[..0] == "";
  }

  lemma AlreadyTrim(s: string)
    requires AllDigits(s)
    ensures Trim(s) == s
  {
  }
}
