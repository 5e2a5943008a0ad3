/**
 * The shared time helpers (shared/utils/time.js): the duration label
 * formatMinutesToHours, the project breadcrumb and the sum of estimated
 * durations of one day.
 */
module TimeUtils {
  import opened Wrappers
  import opened DayTasks
  import ProjectUtils
  import Sorting
  import Folds

  // ---------------------------------------------------------------------------
  // Decimal numerals, as a template literal writes a non-negative integer
  // ---------------------------------------------------------------------------

  predicate AllDigits(s: string) {
    forall i :: 0 <= i < |s| ==> IsDigit(s[i])
  }

  /** `${n}` for a non-negative integer: its decimal digits, no leading zero. */
  function Decimal(n: nat): (s: string)
    ensures 1 <= |s| && AllDigits(s)
    ensures s[0] == '0' ==> n == 0 && s == "0"
  {
    if n < 10 then [DigitChar(n)] else Decimal(n / 10) + [DigitChar(n % 10)]
  }

  /** The number a string of decimal digits denotes. */
  function DigitsValue(s: string): (n: nat)
    requires AllDigits(s)
  {
    if s == [] then 0 else 10 * DigitsValue(s[..|s| - 1]) + DigitValue(s[|s| - 1])
  }

  /** The numeral of `n` denotes `n`. */
  lemma {:induction false} DecimalRoundTrip(n: nat)
    ensures DigitsValue(Decimal(n)) == n
  {
    if n >= 10 {
      var s := Decimal(n);
      assert s[..|s| - 1] == Decimal(n / 10);
      DecimalRoundTrip(n / 10);
    }
  }

  // ---------------------------------------------------------------------------
  // formatMinutesToHours
  // ---------------------------------------------------------------------------

  /**
   * formatMinutesToHours. A missing or negative amount is "0m"; under an
   * hour it is "<n>m"; a whole number of hours is "<h>h"; anything else
   * is "<h>h <m>m" with the minutes under 60.
   */
  function FormatMinutesToHours(minutes: Option<int>): (r: string)
    ensures minutes.None? || minutes.value < 0 ==> r == "0m"
    ensures 2 <= |r| && (r[|r| - 1] == 'm' || r[|r| - 1] == 'h')
  {
    if minutes.None? || minutes.value < 0 then "0m"
    else if minutes.value < 60 then Decimal(minutes.value) + "m"
    else
      var hours, rest := minutes.value / 60, minutes.value % 60;
      if rest == 0 then Decimal(hours) + "h"
      else Decimal(hours) + "h " + Decimal(rest) + "m"
  }

  /** The first index of `c` in `s`, or `|s|` when it does not occur. */
  function IndexOf(s: string, c: char): (i: nat)
    ensures i <= |s|
    ensures forall j :: 0 <= j < i ==> s[j] != c
    ensures i < |s| ==> s[i] == c
  {
    if s == [] || s[0] == c then 0
    else
      var i := IndexOf(s[1..], c);
      assert forall j :: 1 <= j < |s| ==> s[j] == s[1..][j - 1];
      1 + i
  }

  /**
   * Reads a duration label back as minutes: "<n>m", "<h>h" or "<h>h <m>m"
   * with decimal numbers; anything else is not a label.
   */
  function ReadDuration(s: string): (m: Option<nat>)
  {
    var h := IndexOf(s, 'h');
    if h == |s| then
      if 2 <= |s| && s[|s| - 1] == 'm' && AllDigits(s[..|s| - 1])
      then Some(DigitsValue(s[..|s| - 1]))
      else None
    else
      var hours, rest := s[..h], s[h + 1..];
      if hours == [] || !AllDigits(hours) then None
      else if rest == [] then Some(60 * DigitsValue(hours))
      else if 3 <= |rest| && rest[0] == ' ' && rest[|rest| - 1] == 'm' && AllDigits(rest[1..|rest| - 1])
      then Some(60 * DigitsValue(hours) + DigitsValue(rest[1..|rest| - 1]))
      else None
  }

  /** A run of digits followed by `c` (not a digit) has its first `c` right after the digits. */
  lemma FirstAfterDigits(d: string, c: char, tail: string)
    requires AllDigits(d) && !IsDigit(c)
    ensures IndexOf(d + [c] + tail, c) == |d|
  {
    assert (d + [c] + tail)[|d|] == c;
  }

  /** A label under an hour reads back as its minutes. */
  lemma MinutesLabelRead(m: nat)
    requires m < 60
    ensures ReadDuration(Decimal(m) + "m") == Some(m)
  {
    var d := Decimal(m);
    var s := d + "m";
    assert s == d + ['m'] + [];
    FirstAfterDigits(d, 'm', []);
    assert s[..|s| - 1] == d;
    DecimalRoundTrip(m);
  }

  /** A label with an `h` after a run of digits is read as hours, then the part after the `h`. */
  lemma ReadAfterHours(d: string, tail: string)
    requires d != [] && AllDigits(d)
    ensures tail == [] ==> ReadDuration(d + ['h'] + tail) == Some(60 * DigitsValue(d))
    ensures 3 <= |tail| && tail[0] == ' ' && tail[|tail| - 1] == 'm' && AllDigits(tail[1..|tail| - 1]) ==>
              ReadDuration(d + ['h'] + tail) == Some(60 * DigitsValue(d) + DigitsValue(tail[1..|tail| - 1]))
  {
    var s := d + ['h'] + tail;
    FirstAfterDigits(d, 'h', tail);
    assert s[..|d|] == d;
    assert s[|d| + 1..] == tail;
  }

  /** A whole-hours label reads back as 60 times its hours. */
  lemma HoursLabelRead(h: nat)
    ensures ReadDuration(Decimal(h) + "h") == Some(60 * h)
  {
    var d := Decimal(h);
    assert d + "h" == d + ['h'] + [];
    ReadAfterHours(d, []);
    DecimalRoundTrip(h);
  }

  /** When `s` starts with the digits `d` and then `c` (not a digit), the first `c` is right after `d`. */
  lemma IndexAfterDigits(s: string, d: string, c: char)
    requires AllDigits(d) && !IsDigit(c)
    requires |d| < |s| && s[..|d|] == d && s[|d|] == c
    ensures IndexOf(s, c) == |d|
  {
  }

  /** A string made of digits `d`, "h ", digits `e` and "m" reads as the total they denote. */
  lemma ReadMixedAt(s: string, d: string, e: string)
    requires d != [] && AllDigits(d) && e != [] && AllDigits(e)
    requires |s| == |d| + |e| + 3 && s[..|d|] == d && s[|d|] == 'h'
    requires s[|d| + 1] == ' ' && s[|d| + 2..|s| - 1] == e && s[|s| - 1] == 'm'
    ensures ReadDuration(s) == Some(60 * DigitsValue(d) + DigitsValue(e))
  {
    IndexAfterDigits(s, d, 'h');
    var rest := s[|d| + 1..];
    assert rest[1..|rest| - 1] == e;
  }

  /** An hours-and-minutes label of two digit runs reads as the total they denote. */
  lemma ReadMixed(d: string, e: string)
    requires d != [] && AllDigits(d) && e != [] && AllDigits(e)
    ensures ReadDuration(d + "h " + e + "m") == Some(60 * DigitsValue(d) + DigitsValue(e))
  {
    var s := d + "h " + e + "m";
    assert s[..|d|] == d;
    assert s[|d| + 2..|s| - 1] == e;
    ReadMixedAt(s, d, e);
  }

  /** An hours-and-minutes label reads back as the total of its parts. */
  lemma MixedLabelRead(h: nat, m: nat)
    ensures ReadDuration(Decimal(h) + "h " + Decimal(m) + "m") == Some(60 * h + m)
  {
    ReadMixed(Decimal(h), Decimal(m));
    DecimalRoundTrip(h);
    DecimalRoundTrip(m);
  }

  /**
   * The label of an amount is read back as that amount; a missing or
   * negative amount reads as 0.
   */
  lemma FormatReadRoundTrip(minutes: Option<int>)
    ensures ReadDuration(FormatMinutesToHours(minutes))
         == Some(if minutes.Some? && minutes.value >= 0 then minutes.value else 0)
  {
    var text := FormatMinutesToHours(minutes);
    if minutes.None? || minutes.value < 0 {
      assert Decimal(0) + "m" == "0m";
      MinutesLabelRead(0);
    } else if minutes.value < 60 {
      assert text == Decimal(minutes.value) + "m";
      MinutesLabelRead(minutes.value);
    } else if minutes.value % 60 == 0 {
      assert text == Decimal(minutes.value / 60) + "h";
      HoursLabelRead(minutes.value / 60);
    } else {
      assert text == Decimal(minutes.value / 60) + "h " + Decimal(minutes.value % 60) + "m";
      MixedLabelRead(minutes.value / 60, minutes.value % 60);
    }
  }

  // ---------------------------------------------------------------------------
  // getProjectBreadcrumb
  // ---------------------------------------------------------------------------

  /** A project as the breadcrumb sees it. */
  datatype NamedProject = NamedProject(id: string, name: string, parentId: Option<string>)

  /** `projects.find(p => p.id === id)`. */
  function FindById(projects: seq<NamedProject>, id: string): (r: Option<NamedProject>)
    ensures r.None? <==> forall i :: 0 <= i < |projects| ==> projects[i].id != id
    ensures r.Some? ==> exists i :: && 0 <= i < |projects| && projects[i] == r.value && r.value.id == id
                                    && forall k :: 0 <= k < i ==> projects[k].id != id
  {
    if projects == [] then None
    else if projects[0].id == id then Some(projects[0])
    else
      var r := FindById(projects[1..], id);
      assert forall i :: 1 <= i < |projects| ==> projects[i] == projects[1..][i - 1];
      r
  }

  /**
   * getProjectBreadcrumb: the empty string when the list or the id is
   * missing or no project has that id; otherwise "<parent> / <name>"
   * when the project names a parent that is in the list, else the
   * project's own name.
   */
  function ProjectBreadcrumb(projectId: Option<string>, projects: Option<seq<NamedProject>>): (r: string)
    ensures projects.None? || !ProjectUtils.Truthy(projectId) ==> r == ""
    ensures (projects.Some? && ProjectUtils.Truthy(projectId) && FindById(projects.value, projectId.value).None?)
              ==> r == ""
  {
    if projects.None? || !ProjectUtils.Truthy(projectId) then ""
    else match FindById(projects.value, projectId.value)
      case None => ""
      case Some(project) =>
        if ProjectUtils.Truthy(project.parentId) then
          match FindById(projects.value, project.parentId.value)
          case Some(parent) => parent.name + " / " + project.name
          case None => project.name
        else project.name
  }

  /**
   * A found project's breadcrumb ends with its name, and it is longer
   * than the name exactly when the project's parent is in the list, in
   * which case it starts with the parent's name and " / ".
   */
  lemma BreadcrumbShape(projectId: string, projects: seq<NamedProject>)
    requires projectId != ""
    requires FindById(projects, projectId).Some?
    ensures var r := ProjectBreadcrumb(Some(projectId), Some(projects));
            var project := FindById(projects, projectId).value;
            var parentFound := ProjectUtils.Truthy(project.parentId)
                               && FindById(projects, project.parentId.value).Some?;
            && |project.name| <= |r|
            && r[|r| - |project.name|..] == project.name
            && (|r| > |project.name| <==> parentFound)
            && (parentFound ==>
                  var parent := FindById(projects, project.parentId.value).value;
                  r[..|parent.name| + 3] == parent.name + " / ")
  {
    var r := ProjectBreadcrumb(Some(projectId), Some(projects));
    var project := FindById(projects, projectId).value;
    if ProjectUtils.Truthy(project.parentId) && FindById(projects, project.parentId.value).Some? {
      var parent := FindById(projects, project.parentId.value).value;
      assert r == (parent.name + " / ") + project.name;
    }
  }

  // ---------------------------------------------------------------------------
  // getDayEstimatedDuration
  // ---------------------------------------------------------------------------

  /** An item as the day sum sees it. */
  datatype DayItem = DayItem(dayId: Option<string>, estimatedDuration: Option<int>)

  /** `s.slice(0, 10)` */
  function Prefix10(s: string): (r: string)
    ensures |r| <= 10 && r <= s
    ensures |s| <= 10 ==> r == s
  {
    if |s| <= 10 then s else s[..10]
  }

  /** `(item.day_id || '').slice(0, 10) === dayIso` */
  function OnDay(dayIso: string): DayItem -> bool {
    (item: DayItem) => Prefix10(item.dayId.GetOr("")) == dayIso
  }

  /** `item.estimated_duration || 0` */
  function Estimate(item: DayItem): int {
    item.estimatedDuration.GetOr(0)
  }

  /**
   * getDayEstimatedDuration: 0 when there is no list; otherwise the sum
   * of the estimates (a missing one counts as 0) of the items whose day
   * id starts with the day.
   */
  function DayEstimatedDuration(dayIso: string, items: Option<seq<DayItem>>): (total: int)
    ensures items.None? ==> total == 0
    ensures items == Some([]) ==> total == 0
  {
    if items.None? then 0 else Folds.Sum(Sorting.Filter(items.value, OnDay(dayIso)), Estimate)
  }

  /** The day sum of two lists put together is the sum of their day sums. */
  lemma DayDurationAppend(dayIso: string, a: seq<DayItem>, b: seq<DayItem>)
    ensures DayEstimatedDuration(dayIso, Some(a + b))
         == DayEstimatedDuration(dayIso, Some(a)) + DayEstimatedDuration(dayIso, Some(b))
  {
    Folds.FilterAppend(a, b, OnDay(dayIso));
    Folds.SumAppend(Sorting.Filter(a, OnDay(dayIso)), Sorting.Filter(b, OnDay(dayIso)), Estimate);
  }

  /** One item adds its estimate when it is on the day and nothing otherwise. */
  lemma DayDurationSingle(dayIso: string, item: DayItem)
    ensures DayEstimatedDuration(dayIso, Some([item]))
         == if Prefix10(item.dayId.GetOr("")) == dayIso then Estimate(item) else 0
  {
    assert [item][1..] == [];
    assert Sorting.Filter([item], OnDay(dayIso))
        == (if OnDay(dayIso)(item) then [item] else []) + Sorting.Filter([], OnDay(dayIso));
    assert Folds.Sum([item], Estimate) == Estimate(item) + Folds.Sum([], Estimate);
  }

  /** Items of other days add nothing: a list with none on the day sums to 0. */
  lemma {:induction false} OtherDaysAddNothing(dayIso: string, items: seq<DayItem>)
    requires forall i :: 0 <= i < |items| ==> Prefix10(items[i].dayId.GetOr("")) != dayIso
    ensures DayEstimatedDuration(dayIso, Some(items)) == 0
  {
    if items != [] {
      assert items == [items[0]] + items[1..];
      DayDurationAppend(dayIso, [items[0]], items[1..]);
      DayDurationSingle(dayIso, items[0]);
      OtherDaysAddNothing(dayIso, items[1..]);
    }
  }

  /** With no negative estimates the day sum is between 0 and the sum over all items. */
  lemma DayDurationBounds(dayIso: string, items: seq<DayItem>)
    requires forall i :: 0 <= i < |items| ==> Estimate(items[i]) >= 0
    ensures 0 <= DayEstimatedDuration(dayIso, Some(items)) <= Folds.Sum(items, Estimate)
  {
    Folds.FilteredSumBounds(items, OnDay(dayIso), Estimate);
  }
}
