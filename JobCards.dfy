/** How the job board's listing page turns a job into a card
    (frontend/src/pages/Jobs.tsx): salary text, posting age, job-type text
    and logo. Number formatting (`toLocaleString`) is a parameter. */
module JobCards {
  import opened Wrappers
  import opened Text
  import opened Models
  import opened Paging

  /** A salary bound counts when it is present and not 0 (0 is falsy). */
  predicate Truthy(x: Option<int>) {
    x.Some? && x.value != 0
  }

  /** `formatSalary`: "Competitive" without bounds, a range with both,
      "From" with only a minimum, "Up to" with only a maximum. */
  function FormatSalary(min: Option<int>, max: Option<int>, show: int -> string): (text: string)
    ensures text == "Competitive" <==> !Truthy(min) && !Truthy(max)
    ensures Truthy(min) && Truthy(max) ==> text == "$" + show(min.value) + " - $" + show(max.value)
    ensures Truthy(min) && !Truthy(max) ==> text == "From $" + show(min.value)
    ensures !Truthy(min) && Truthy(max) ==> text == "Up to $" + show(max.value)
  {
    if !Truthy(min) && !Truthy(max) then "Competitive"
    else if Truthy(min) && Truthy(max) then
      var l := "$" + show(min.value) + " - $" + show(max.value);
      assert l[0] == '$';
      l
    else if Truthy(min) then
      var l := "From $" + show(min.value);
      assert l[0] == 'F';
      l
    else
      var l := "Up to $" + show(max.value);
      assert l[0] == 'U';
      l
  }

  const DayMs: nat := 1000 * 60 * 60 * 24

  function Abs(x: int): nat {
    if x < 0 then -x else x
  }

  /** `Math.ceil(|now - created| / one day)`, times in milliseconds: 0 only
      for the same instant, otherwise the number of started days. */
  function DiffDays(now: int, created: int): (days: nat)
    ensures days == 0 <==> now == created
    ensures days > 0 ==> (days - 1) * DayMs < Abs(now - created) <= days * DayMs
  {
    CeilDiv(Abs(now - created), DayMs)
  }

  /** Past and future dates are treated alike. */
  lemma DiffDaysSymmetric(now: int, created: int)
    ensures DiffDays(now, created) == DiffDays(created, now)
  {
    assert Abs(now - created) == Abs(created - now);
  }

  /** `formatDate`'s buckets. The week count shown is 1 to 4, the month
      count at least 1. */
  function DateLabel(days: nat): (text: string)
    ensures text == "Today" <==> days == 0
    ensures text == "Yesterday" <==> days == 1
    ensures 2 <= days < 7 ==> text == NatToString(days) + " days ago"
    ensures 7 <= days < 30 ==> text == NatToString(days / 7) + " weeks ago" && 1 <= days / 7 <= 4
    ensures 30 <= days ==> text == NatToString(days / 30) + " months ago" && days / 30 >= 1
  {
    if days == 0 then "Today"
    else if days == 1 then "Yesterday"
    else
      var text :=
        if days < 7 then NatToString(days) + " days ago"
        else if days < 30 then NatToString(days / 7) + " weeks ago"
        else NatToString(days / 30) + " months ago";
      assert '0' <= text[0] <= '9';
      text
  }

  /** The posted-date text of a card. */
  function PostedLabel(now: int, created: int): (text: string)
    ensures text == "Today" <==> now == created
    ensures text == DateLabel(DiffDays(created, now))
  {
    DiffDaysSymmetric(now, created);
    DateLabel(DiffDays(now, created))
  }

  /** `replace("_", "-")` with a string pattern: only the first '_' changes. */
  function ReplaceFirst(s: string, from: char, to: char): (r: string)
    ensures |r| == |s|
  {
    if s == [] then []
    else if s[0] == from then [to] + s[1..]
    else [s[0]] + ReplaceFirst(s[1..], from, to)
  }

  /** A string without the pattern comes back as it is. */
  lemma {:induction false} ReplaceFirstAbsent(s: string, from: char, to: char)
    requires from !in s
    ensures ReplaceFirst(s, from, to) == s
  {
    if s != [] {
      ReplaceFirstAbsent(s[1..], from, to);
    }
  }

  /** The first occurrence, after a prefix free of the pattern, is the one
      replaced; what follows it is left alone. */
  lemma {:induction false} ReplaceFirstAt(a: string, b: string, from: char, to: char)
    requires from !in a
    ensures ReplaceFirst(a + [from] + b, from, to) == a + [to] + b
  {
    if a != [] {
      ReplaceFirstAt(a[1..], b, from, to);
      assert (a + [from] + b)[1..] == a[1..] + [from] + b;
    }
  }

  /** The type text of a card. */
  function TypeLabel(t: JobType): (text: string)
    ensures text == match t
      case FullTime => "full-time"
      case PartTime => "part-time"
      case Contract => "contract"
      case Internship => "internship"
  {
    var name := JobTypeName(t);
    match t
    case FullTime =>
      ReplaceFirstAt("full", "time", '_', '-');
      assert name == "full" + ['_'] + "time";
      ReplaceFirst(name, '_', '-')
    case PartTime =>
      ReplaceFirstAt("part", "time", '_', '-');
      assert name == "part" + ['_'] + "time";
      ReplaceFirst(name, '_', '-')
    case Contract =>
      ReplaceFirstAbsent(name, '_', '-');
      ReplaceFirst(name, '_', '-')
    case Internship =>
      ReplaceFirstAbsent(name, '_', '-');
      ReplaceFirst(name, '_', '-')
  }

  const AvatarBase := "https://api.dicebear.com/7.x/initials/svg?seed="

  /** The logo: the company logo when set, else a generated avatar seeded
      with the company name (the text "undefined" when there is none). */
  function LogoUrl(companyLogo: Option<string>, companyName: Option<string>): (url: string)
    ensures companyLogo.Some? && companyLogo.value != "" ==> url == companyLogo.value
    ensures companyLogo.None? || companyLogo.value == "" ==>
      StartsWith(url, AvatarBase) && url[|AvatarBase|..] == (if companyName.Some? then companyName.value else "undefined")
  {
    if companyLogo.Some? && companyLogo.value != "" then companyLogo.value
    else AvatarBase + (if companyName.Some? then companyName.value else "undefined")
  }
}
