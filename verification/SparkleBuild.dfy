/** Turning a calendar version into the build numbers an updater compares. */
module SparkleBuild {
  import opened Wrappers
  import opened Text

  datatype Floors = Floors(dateKey: nat, legacyFloor: nat, laneFloor: nat, lane: nat)

  // The fields of a version text: year, month, day and an optional suffix.
  datatype Parts = Parts(year: nat, month: nat, day: nat, suffix: string)

  predicate AllDigits(s: string) {
    forall i | 0 <= i < |s| :: IsDigit(s[i])
  }

  function LeadingDigits(s: string): (n: nat)
    ensures n <= |s| && AllDigits(s[..n])
    ensures n < |s| ==> !IsDigit(s[n])
  {
    if s != "" && IsDigit(s[0]) then
      var n := LeadingDigits(s[1..]);
      assert s[..n + 1] == [s[0]] + s[1..][..n];
      n + 1
    else 0
  }

  function TrailingDigits(s: string): (t: string)
    ensures AllDigits(t) && |t| <= |s| && s[|s| - |t|..] == t
  {
    if s != "" && IsDigit(s[|s| - 1]) then
      var t := TrailingDigits(s[..|s| - 1]);
      assert s[|s| - |t| - 1..] == s[..|s| - 1][|s| - 1 - |t|..] + [s[|s| - 1]];
      t + [s[|s| - 1]]
    else ""
  }

  predicate OneLine(s: string) {
    forall i | 0 <= i < |s| :: s[i] !in "\n\r\U{2028}\U{2029}"
  }

  // A suffix starts with a dot or a dash and stays on one line.
  predicate IsSuffix(s: string) {
    s == "" || ((s[0] == '.' || s[0] == '-') && OneLine(s))
  }

  // A number of one or two digits at the start of a text.
  function ShortNumber(s: string): Option<(nat, string)> {
    var n := LeadingDigits(s);
    if 1 <= n <= 2 then Some((ParseNat(s[..n]), s[n..])) else None
  }

  // A four-digit year, a month and a day of one or two digits, and perhaps a suffix.
  function ParseVersion(s: string): Option<Parts> {
    if LeadingDigits(s) != 4 || |s| == 4 || s[4] != '.' then None
    else
      match ShortNumber(s[5..])
      case None => None
      case Some((month, afterMonth)) =>
        if afterMonth == "" || afterMonth[0] != '.' then None
        else
          match ShortNumber(afterMonth[1..])
          case None => None
          case Some((day, suffix)) =>
            if IsSuffix(suffix) then Some(Parts(ParseNat(s[..4]), month, day, suffix)) else None
  }

  function Pad2(n: nat): (s: string)
    ensures AllDigits(s)
  {
    if |Digits(n)| < 2 then "0" + Digits(n) else Digits(n)
  }

  predicate OnCalendar(p: Parts) {
    1 <= p.month <= 12 && 1 <= p.day <= 31
  }

  function Lane(suffix: string): nat {
    if suffix == "" then 90
    else
      var numeric := TrailingDigits(suffix);
      if numeric == "" then 1 else if ParseNat(numeric) < 89 then ParseNat(numeric) else 89
  }

  function FloorsOf(p: Parts): Floors {
    var dateKey := ParseNat(Digits(p.year) + Pad2(p.month) + Pad2(p.day));
    var lane := Lane(p.suffix);
    Floors(dateKey, ParseNat(Digits(dateKey) + "0"), ParseNat(Digits(dateKey) + Pad2(lane)), lane)
  }

  function SparkleBuildFloorsFromShortVersion(shortVersion: string): Option<Floors> {
    match ParseVersion(Trim(shortVersion))
    case None => None
    case Some(p) => if OnCalendar(p) then Some(FloorsOf(p)) else None
  }

  function CanonicalSparkleBuildFromVersion(shortVersion: string): Option<nat> {
    match SparkleBuildFloorsFromShortVersion(shortVersion)
    case None => None
    case Some(floors) => Some(floors.laneFloor)
  }

  // ----- digit concatenation is arithmetic -----

  lemma ParseSnoc(s: string, c: char)
    requires AllDigits(s) && IsDigit(c)
    ensures AllDigits(s + [c])
    ensures ParseNat(s + [c]) == 10 * ParseNat(s) + (c as int - '0' as int)
  {
    assert (s + [c])[..|s|] == s;
  }

  // Appending a two-digit number multiplies by a hundred and adds it.
  lemma ParsePad2(s: string, n: nat)
    requires AllDigits(s) && n < 100
    ensures AllDigits(s + Pad2(n)) && ParseNat(s + Pad2(n)) == 100 * ParseNat(s) + n
  {
    var tens, units := DigitChar(n / 10), DigitChar(n % 10);
    assert Digits(n / 10) == [tens];
    assert Pad2(n) == [tens] + [units];
    assert s + Pad2(n) == (s + [tens]) + [units];
    ParseSnoc(s, tens);
    ParseSnoc(s + [tens], units);
  }

  lemma LaneIsBounded(suffix: string)
    ensures Lane(suffix) <= 90
    ensures Lane(suffix) == 90 <==> suffix == ""
  {
  }

  lemma {:induction false} TrailingDigitsIs(stem: string, numeral: string)
    requires AllDigits(numeral) && (stem != "" ==> !IsDigit(stem[|stem| - 1]))
    ensures TrailingDigits(stem + numeral) == numeral
    decreases |numeral|
  {
    if numeral == "" {
      assert stem + numeral == stem;
    } else {
      var front := numeral[..|numeral| - 1];
      assert (stem + numeral)[..|stem + numeral| - 1] == stem + front;
      TrailingDigitsIs(stem, front);
      assert numeral == front + [numeral[|numeral| - 1]];
    }
  }

  // A suffix that ends in a numeral has that number as its lane, at most 89, and any other has
  // lane 1.
  lemma LaneIs(stem: string, numeral: string)
    requires stem + numeral != "" && AllDigits(numeral) && (stem != "" ==> !IsDigit(stem[|stem| - 1]))
    ensures numeral != "" && ParseNat(numeral) < 89 ==> Lane(stem + numeral) == ParseNat(numeral)
    ensures numeral != "" && ParseNat(numeral) >= 89 ==> Lane(stem + numeral) == 89
    ensures numeral == "" ==> Lane(stem + numeral) == 1
  {
    TrailingDigitsIs(stem, numeral);
  }

  function DateKey(p: Parts): nat {
    p.year * 10000 + p.month * 100 + p.day
  }

  // The build numbers are the date and the lane read as decimal fields.
  lemma FloorsAreFields(p: Parts)
    requires OnCalendar(p)
    ensures FloorsOf(p) == Floors(DateKey(p), DateKey(p) * 10, DateKey(p) * 100 + Lane(p.suffix), Lane(p.suffix))
  {
    ParseDigits(p.year);
    ParsePad2(Digits(p.year), p.month);
    ParsePad2(Digits(p.year) + Pad2(p.month), p.day);
    LaneIsBounded(p.suffix);
    ParseDigits(DateKey(p));
    ParsePad2(Digits(DateKey(p)), Lane(p.suffix));
    ParseSnoc(Digits(DateKey(p)), '0');
  }

  // ----- what the builds order -----

  predicate EarlierDate(p: Parts, q: Parts) {
    || p.year < q.year
    || (p.year == q.year && p.month < q.month)
    || (p.year == q.year && p.month == q.month && p.day < q.day)
  }

  predicate SameDate(p: Parts, q: Parts) {
    p.year == q.year && p.month == q.month && p.day == q.day
  }

  function Version(shortVersion: string): Parts
    requires SparkleBuildFloorsFromShortVersion(shortVersion).Some?
  {
    ParseVersion(Trim(shortVersion)).value
  }

  // Builds compare as dates first and lanes second, for all versions that have one.
  lemma BuildsFollowVersions(v: string, w: string)
    requires SparkleBuildFloorsFromShortVersion(v).Some? && SparkleBuildFloorsFromShortVersion(w).Some?
    ensures CanonicalSparkleBuildFromVersion(v).value < CanonicalSparkleBuildFromVersion(w).value
       <==> Precedes(Version(v), Version(w))
    ensures CanonicalSparkleBuildFromVersion(v) == CanonicalSparkleBuildFromVersion(w)
       <==> SameBuild(Version(v), Version(w))
  {
    var p, q := Version(v), Version(w);
    FloorsAreFields(p);
    FloorsAreFields(q);
    LaneIsBounded(p.suffix);
    LaneIsBounded(q.suffix);
    FieldsOrder(p, q, Lane(p.suffix), Lane(q.suffix));
  }

  predicate Precedes(p: Parts, q: Parts) {
    EarlierDate(p, q) || (SameDate(p, q) && Lane(p.suffix) < Lane(q.suffix))
  }

  predicate SameBuild(p: Parts, q: Parts) {
    SameDate(p, q) && Lane(p.suffix) == Lane(q.suffix)
  }

  lemma FieldsOrder(p: Parts, q: Parts, m: nat, n: nat)
    requires OnCalendar(p) && OnCalendar(q) && m < 100 && n < 100
    ensures DateKey(p) * 100 + m < DateKey(q) * 100 + n <==> EarlierDate(p, q) || (SameDate(p, q) && m < n)
    ensures DateKey(p) * 100 + m == DateKey(q) * 100 + n <==> SameDate(p, q) && m == n
  {
  }

  // A release beats every suffixed version of its date.
  lemma ReleaseBeatsSuffixed(v: string, w: string)
    requires SparkleBuildFloorsFromShortVersion(v).Some? && SparkleBuildFloorsFromShortVersion(w).Some?
    requires SameDate(Version(v), Version(w)) && Version(v).suffix == "" && Version(w).suffix != ""
    ensures CanonicalSparkleBuildFromVersion(w).value < CanonicalSparkleBuildFromVersion(v).value
  {
    BuildsFollowVersions(w, v);
    LaneIsBounded(Version(w).suffix);
  }

  // ----- lane builds and legacy builds -----

  lemma {:induction false} DigitsOfFour(n: nat)
    requires 1000 <= n < 10000
    ensures |Digits(n)| == 4
  {
    assert |Digits(n / 1000)| == 1;
    assert n / 100 / 10 == n / 1000;
    assert |Digits(n / 100)| == 2;
    assert n / 10 / 10 == n / 100;
    assert |Digits(n / 10)| == 3;
  }

  lemma {:induction false} LeadingDigitsOf(s: string, rest: string)
    requires AllDigits(s) && (rest == "" || !IsDigit(rest[0]))
    ensures LeadingDigits(s + rest) == |s|
  {
    if s == "" {
      assert s + rest == rest;
    } else {
      assert (s + rest)[1..] == s[1..] + rest;
      LeadingDigitsOf(s[1..], rest);
    }
  }

  function Render(p: Parts): string {
    Digits(p.year) + "." + Digits(p.month) + "." + Digits(p.day) + p.suffix
  }

  lemma ShortNumberOf(n: nat, rest: string)
    requires n < 100 && (rest == "" || !IsDigit(rest[0]))
    ensures ShortNumber(Digits(n) + rest) == Some((n, rest))
  {
    var s := Digits(n) + rest;
    LeadingDigitsOf(Digits(n), rest);
    assert 1 <= |Digits(n)| <= 2 by {
      assert n >= 10 ==> |Digits(n / 10)| == 1;
    }
    assert s[..|Digits(n)|] == Digits(n) && s[|Digits(n)|..] == rest;
    ParseDigits(n);
  }

  // Reading undoes writing, for every date on the calendar and every suffix.
  lemma ParseInvertsRender(p: Parts)
    requires 1000 <= p.year < 10000 && OnCalendar(p) && IsSuffix(p.suffix)
    ensures ParseVersion(Render(p)) == Some(p)
  {
    var s := Render(p);
    var afterDay := p.suffix;
    var afterMonth := "." + (Digits(p.day) + afterDay);
    var afterYear := "." + (Digits(p.month) + afterMonth);
    assert s == Digits(p.year) + afterYear;
    DigitsOfFour(p.year);
    LeadingDigitsOf(Digits(p.year), afterYear);
    assert s[4] == '.' && s[5..] == Digits(p.month) + afterMonth && s[..4] == Digits(p.year);
    ShortNumberOf(p.month, afterMonth);
    assert afterMonth[1..] == Digits(p.day) + afterDay;
    ShortNumberOf(p.day, afterDay);
    ParseDigits(p.year);
  }

  // The text is these numerals, a four-digit year and a month and day of one or two digits each,
  // and a suffix.
  ghost predicate Spells(s: string, year: string, month: string, day: string, p: Parts) {
    && AllDigits(year) && AllDigits(month) && AllDigits(day)
    && |year| == 4 && 1 <= |month| <= 2 && 1 <= |day| <= 2 && SuffixText(p.suffix)
    && s == year + ("." + (month + ("." + (day + p.suffix))))
    && p == Parts(ParseNat(year), ParseNat(month), ParseNat(day), p.suffix)
  }

  // Nothing, or one line that begins with a dot or a dash.
  predicate SuffixText(s: string) {
    && (s != "" ==> s[0] == '.' || s[0] == '-')
    && forall c | c in s :: c != '\n' && c != '\r' && c != '\U{2028}' && c != '\U{2029}'
  }

  lemma SuffixIs(s: string)
    ensures IsSuffix(s) <==> SuffixText(s)
  {
    if s != "" {
      assert forall i | 0 <= i < |s| :: s[i] in s;
    }
  }

  lemma ShortNumberIs(s: string) returns (numeral: string)
    requires ShortNumber(s).Some?
    ensures AllDigits(numeral) && 1 <= |numeral| <= 2
    ensures s == numeral + ShortNumber(s).value.1 && ShortNumber(s).value.0 == ParseNat(numeral)
  {
    numeral := s[..LeadingDigits(s)];
  }

  lemma ShortNumberReads(numeral: string, rest: string)
    requires AllDigits(numeral) && 1 <= |numeral| <= 2 && (rest == "" || !IsDigit(rest[0]))
    ensures ShortNumber(numeral + rest) == Some((ParseNat(numeral), rest))
  {
    LeadingDigitsOf(numeral, rest);
    assert (numeral + rest)[..|numeral|] == numeral && (numeral + rest)[|numeral|..] == rest;
  }

  // A text is a version exactly when it spells one, leading zeros included.
  lemma ParsesExactly(s: string, p: Parts)
    ensures ParseVersion(s) == Some(p) <==> exists year, month, day :: Spells(s, year, month, day, p)
  {
    if ParseVersion(s) == Some(p) {
      var year, month, day := ParseSpells(s, p);
    }
    if year, month, day :| Spells(s, year, month, day, p) {
      SpelledParses(s, year, month, day, p);
    }
  }

  lemma ParseSpells(s: string, p: Parts) returns (year: string, month: string, day: string)
    requires ParseVersion(s) == Some(p)
    ensures Spells(s, year, month, day, p)
  {
    SuffixIs(p.suffix);
    year := s[..4];
    month := ShortNumberIs(s[5..]);
    var afterMonth := ShortNumber(s[5..]).value.1;
    day := ShortNumberIs(afterMonth[1..]);
    DotThen(afterMonth, 0);
    DotThen(s, 4);
  }

  lemma DotThen(s: string, i: nat)
    requires i < |s| && s[i] == '.'
    ensures s == s[..i] + ("." + s[i + 1..])
    ensures i == 0 ==> s == "." + s[1..]
  {
  }

  lemma SpelledParses(s: string, year: string, month: string, day: string, p: Parts)
    requires Spells(s, year, month, day, p)
    ensures ParseVersion(s) == Some(p)
  {
    SuffixIs(p.suffix);
    var afterMonth := "." + (day + p.suffix);
    var afterYear := "." + (month + afterMonth);
    LeadingDigitsOf(year, afterYear);
    assert s[4] == '.' && s[5..] == month + afterMonth && s[..4] == year;
    ShortNumberReads(month, afterMonth);
    assert afterMonth[1..] == day + p.suffix;
    ShortNumberReads(day, p.suffix);
  }

  // A lane build exceeds every legacy floor exactly when its year has four digits without a
  // leading zero; a year written 0999 or below falls short of the last legacy floors.
  lemma LanesBeatLegacyFloors(v: string)
    requires SparkleBuildFloorsFromShortVersion(v).Some?
    ensures (forall w | SparkleBuildFloorsFromShortVersion(w).Some? ::
               SparkleBuildFloorsFromShortVersion(w).value.legacyFloor < CanonicalSparkleBuildFromVersion(v).value)
       <==> Version(v).year >= 1000
  {
    var p := Version(v);
    FloorsAreFields(p);
    LaneIsBounded(p.suffix);
    forall w | SparkleBuildFloorsFromShortVersion(w).Some?
      ensures SparkleBuildFloorsFromShortVersion(w).value.legacyFloor <= 999912310
    {
      FloorsAreFields(Version(w));
      YearHasFourDigits(Trim(w));
    }
    var last := LatestVersion();
    assert SparkleBuildFloorsFromShortVersion(last).value.legacyFloor == 999912310;
  }

  lemma LatestVersion() returns (last: string)
    ensures SparkleBuildFloorsFromShortVersion(last).Some?
    ensures SparkleBuildFloorsFromShortVersion(last).value.legacyFloor == 999912310
  {
    var p := Parts(9999, 12, 31, "");
    last := Render(p);
    ParseInvertsRender(p);
    RenderIsTrimmed(p);
    FloorsAreFields(p);
  }

  lemma RenderIsTrimmed(p: Parts)
    requires p.suffix == ""
    ensures Trim(Render(p)) == Render(p)
  {
    var s := Render(p);
    assert s[0] == Digits(p.year)[0] && s[|s| - 1] == Digits(p.day)[|Digits(p.day)| - 1];
    assert s == "" + s + "";
    TrimPadding("", s, "");
  }

  lemma YearHasFourDigits(s: string)
    requires ParseVersion(s).Some?
    ensures ParseVersion(s).value.year < 10000
  {
    assert s[..4][..3] == s[..3] && s[..3][..2] == s[..2] && s[..2][..1] == s[..1] && s[..1][..0] == "";
    assert AllDigits(s[..4]) && AllDigits(s[..3]) && AllDigits(s[..2]) && AllDigits(s[..1]);
    assert ParseNat(s[..1]) < 10;
    assert ParseNat(s[..2]) < 100;
    assert ParseNat(s[..3]) < 1000;
  }
}
