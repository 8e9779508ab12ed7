/**
  The dashboard's recent-applications card, `src/components/admin/RecentApplications.tsx`:
  the avatar initials of a volunteer's name, the relative time since an
  application, and the empty-list rule.
 */
module RecentApplications {
  import opened Text
  import Seqs
  import opened AdminTypes

  // ---------------------------------------------------------------------------
  // `getInitials`
  // ---------------------------------------------------------------------------

  /**
    `.map(n => n[0]).join('')`: the first character of every piece. An empty
    piece maps to `undefined`, which `join` writes as nothing.
   */
  function FirstChars(parts: seq<string>): (r: string)
    ensures |r| <= |parts|
    decreases |parts|
  {
    if |parts| == 0 then ""
    else (if parts[0] == "" then "" else [parts[0][0]]) + FirstChars(parts[1..])
  }

  /** The words of a name: its non-empty space-separated pieces, in order. */
  function Words(name: string): seq<string> {
    Seqs.Filter(Split(name, ' '), (p: string) => p != "")
  }

  /** `name.split(' ').map(n => n[0]).join('').substring(0, 2).toUpperCase()` */
  function GetInitials(name: string): (r: string)
    ensures |r| <= 2
  {
    var f := FirstChars(Split(name, ' '));
    UpperStr(f[..if |f| < 2 then |f| else 2])
  }

  /** The first characters are exactly those of the non-empty pieces, in order. */
  lemma {:induction false} FirstCharsOfNonEmpty(parts: seq<string>)
    ensures var w := Seqs.Filter(parts, (p: string) => p != "");
      |FirstChars(parts)| == |w|
      && forall k :: 0 <= k < |w| ==> w[k] != "" && FirstChars(parts)[k] == w[k][0]
    decreases |parts|
  {
    if |parts| > 0 {
      FirstCharsOfNonEmpty(parts[1..]);
    }
  }

  /**
    The initials are the upper-cased first letters of the first two words;
    a name of one word gives one letter and a name of none gives nothing.
   */
  lemma InitialsOfWords(name: string)
    ensures var w := Words(name); var r := GetInitials(name);
      |r| == (if |w| < 2 then |w| else 2)
      && forall k :: 0 <= k < |r| ==> w[k] != "" && r[k] == Upper(w[k][0])
  {
    FirstCharsOfNonEmpty(Split(name, ' '));
  }

  /** Words never contain the separating space. */
  lemma WordsHaveNoSpace(name: string)
    ensures forall k :: 0 <= k < |Words(name)| ==> ' ' !in Words(name)[k]
  {
    var parts := Split(name, ' ');
    SplitPiecesFree(name, ' ');
    forall k | 0 <= k < |Words(name)|
      ensures ' ' !in Words(name)[k]
    {
      Seqs.FilterMembership(parts, (p: string) => p != "", Words(name)[k]);
    }
  }

  /** A two-word name gives the capitals of both words. */
  lemma TwoWordInitials(first: string, last: string)
    requires first != "" && last != "" && ' ' !in first && ' ' !in last
    ensures GetInitials(first + " " + last) == [Upper(first[0]), Upper(last[0])]
  {
    assert first + " " + last == first + [' '] + last;
    SplitFirst(first, ' ', last);
    SplitNoSeparator(last, ' ');
    var parts := [first, last];
    assert FirstChars(parts[1..]) == [last[0]];
    assert FirstChars(parts) == [first[0], last[0]];
  }

  /** Doubled spaces leave an empty piece, which contributes no letter. */
  lemma DoubledSpaceInitials(first: string, last: string)
    requires first != "" && last != "" && ' ' !in first && ' ' !in last
    ensures GetInitials(first + "  " + last) == [Upper(first[0]), Upper(last[0])]
  {
    var rest := [' '] + last;
    assert rest == "" + [' '] + last;
    assert first + "  " + last == first + [' '] + rest;
    SplitFirst("", ' ', last);
    SplitNoSeparator(last, ' ');
    assert Split(rest, ' ') == ["", last];
    SplitFirst(first, ' ', rest);
    var parts := [first, "", last];
    assert Split(first + "  " + last, ' ') == parts;
    assert FirstChars(parts[2..]) == [last[0]];
    assert FirstChars(parts[1..]) == [last[0]];
    assert FirstChars(parts) == [first[0], last[0]];
  }

  /** The avatar of the first mock applicant. */
  lemma MockApplicantInitials()
    ensures GetInitials("Ahmed Mohammed") == "AM"
  {
    TwoWordInitials("Ahmed", "Mohammed");
    assert "Ahmed" + " " + "Mohammed" == "Ahmed Mohammed";
  }

  // ---------------------------------------------------------------------------
  // `formatDate`: minutes, hours or days ago
  // ---------------------------------------------------------------------------

  const MinuteMs := 60 * 1000
  const DayMs := 24 * HourMs

  /** `Math.round(a / b)` for a positive divisor: the nearest integer, halves rounded up. */
  function RoundDiv(a: int, b: int): (r: int)
    requires b > 0
    ensures 2 * b * r - b <= 2 * a < 2 * b * r + b
  {
    var q := (2 * a + b) / (2 * b);
    assert 2 * b * q <= 2 * a + b < 2 * b * q + 2 * b;
    q
  }

  datatype Elapsed = MinutesAgo(minutes: int) | HoursAgo(hours: int) | DaysAgo(days: int)

  /**
    The unit shown for an application `diffMs` milliseconds old: minutes
    while they round below 60, then hours while they round below 24, then
    days. Hours shown lie in 1..23 and days are at least 1.
   */
  function Bucket(diffMs: int): (r: Elapsed)
    ensures r.MinutesAgo? <==> RoundDiv(diffMs, MinuteMs) < 60
    ensures r.HoursAgo? <==> RoundDiv(diffMs, MinuteMs) >= 60 && RoundDiv(diffMs, HourMs) < 24
    ensures r.MinutesAgo? ==> r.minutes == RoundDiv(diffMs, MinuteMs)
    ensures r.HoursAgo? ==> r.hours == RoundDiv(diffMs, HourMs) && 1 <= r.hours < 24
    ensures r.DaysAgo? ==> r.days == RoundDiv(diffMs, DayMs) && r.days >= 1
  {
    var mins := RoundDiv(diffMs, MinuteMs);
    var hours := RoundDiv(diffMs, HourMs);
    var days := RoundDiv(diffMs, DayMs);
    if mins < 60 then MinutesAgo(mins)
    else if hours < 24 then HoursAgo(hours)
    else DaysAgo(days)
  }

  /** The mock applications, 2, 5, 12, 18 and 24 hours old, read as hours except the last, one day. */
  lemma MockRelativeTimes(now: int)
    ensures var apps := MockSummaryData(now).recentApplications;
      Bucket(now - apps[0].appliedAt) == HoursAgo(2)
      && Bucket(now - apps[1].appliedAt) == HoursAgo(5)
      && Bucket(now - apps[2].appliedAt) == HoursAgo(12)
      && Bucket(now - apps[3].appliedAt) == HoursAgo(18)
      && Bucket(now - apps[4].appliedAt) == DaysAgo(1)
  {
  }

  // ---------------------------------------------------------------------------
  // The list
  // ---------------------------------------------------------------------------

  datatype Row = Row(id: string, initials: string, name: string, email: string, elapsed: Elapsed, title: string)

  datatype ListBody = NoRecentApplications | Entries(rows: seq<Row>)

  function RowOf(app: VolunteerApplication, now: int): Row {
    Row(app.id, GetInitials(app.volunteerName), app.volunteerName, app.volunteerEmail,
      Bucket(now - app.appliedAt), app.opportunityTitle)
  }

  /** An empty list shows the empty text; otherwise one row per application, in order. */
  function Body(apps: seq<VolunteerApplication>, now: int): (r: ListBody)
    ensures r.NoRecentApplications? <==> |apps| == 0
    ensures r.Entries? ==> (|r.rows| == |apps|
      && forall k :: 0 <= k < |apps| ==> r.rows[k].id == apps[k].id && r.rows[k].name == apps[k].volunteerName)
  {
    if |apps| == 0 then NoRecentApplications
    else Entries(seq(|apps|, k requires 0 <= k < |apps| => RowOf(apps[k], now)))
  }

  /** The link to all applications. */
  predicate ShowsViewAll(apps: seq<VolunteerApplication>) {
    |apps| > 0
  }

  /** The empty text and the view-all link are never shown together, and one of them always is. */
  lemma EmptyTextOrViewAll(apps: seq<VolunteerApplication>, now: int)
    ensures Body(apps, now).NoRecentApplications? <==> !ShowsViewAll(apps)
  {
  }
}
