/** The history card's text: the truncated content and the relative time label. */
module ClipboardCard {
  import opened Strings

  const DefaultMaxLength: nat := 100

  /** `truncateContent`: short content unchanged, long content cut to `maxLength` characters plus `...`. */
  function TruncateContent(content: string, maxLength: nat := DefaultMaxLength): (r: string)
    ensures |r| <= maxLength + 3
    ensures |content| <= maxLength ==> r == content
    ensures |content| > maxLength ==> content[..maxLength] <= r
  {
    if |content| <= maxLength then content else content[..maxLength] + "..."
  }

  /**
   * The content is shown whole, or as exactly its first `maxLength`
   * characters followed by `...`; with the default that is 103 characters.
   */
  lemma TruncateShape(content: string, maxLength: nat)
    ensures var r := TruncateContent(content, maxLength);
      || (|content| <= maxLength && r == content)
      || (|content| > maxLength && |r| == maxLength + 3
          && r[..maxLength] == content[..maxLength] && r[maxLength..] == "...")
    ensures |content| > DefaultMaxLength ==> |TruncateContent(content)| == 103
  {
  }

  /** Truncating what is already truncated changes nothing. */
  lemma TruncateIdempotent(content: string, maxLength: nat)
    ensures TruncateContent(TruncateContent(content, maxLength), maxLength) == TruncateContent(content, maxLength)
  {
    if |content| > maxLength {
      var r := content[..maxLength] + "...";
      assert r[..maxLength] == content[..maxLength];
    }
  }

  /** The four kinds of time label. */
  datatype TimeLabel = JustNow | MinutesAgo(minutes: nat) | HoursAgo(hours: nat) | OnDate(date: string)

  /** Which label an age of `diff` milliseconds gets; `localeDate` stands for `toLocaleDateString()`. */
  function TimeBucket(diff: int, localeDate: string): (b: TimeLabel)
    ensures b.JustNow? <==> diff < 60000
    ensures b.MinutesAgo? <==> 60000 <= diff < 3600000
    ensures b.HoursAgo? <==> 3600000 <= diff < 86400000
    ensures b.OnDate? <==> diff >= 86400000
    ensures b.MinutesAgo? ==> 1 <= b.minutes <= 59 && b.minutes * 60000 <= diff < (b.minutes + 1) * 60000
    ensures b.HoursAgo? ==> 1 <= b.hours <= 23 && b.hours * 3600000 <= diff < (b.hours + 1) * 3600000
    ensures b.OnDate? ==> b.date == localeDate
  {
    if diff < 60000 then JustNow
    else if diff < 3600000 then MinutesAgo(diff / 60000)
    else if diff < 86400000 then HoursAgo(diff / 3600000)
    else OnDate(localeDate)
  }

  /** The text of a label: a fixed phrase, a count with its unit suffix, or the date. */
  function LabelText(b: TimeLabel): (r: string)
    ensures b.JustNow? ==> r == "Just now"
    ensures b.OnDate? ==> r == b.date
    ensures b.MinutesAgo? ==> |r| > 5 && r[|r| - 5..] == "m ago"
    ensures b.HoursAgo? ==> |r| > 5 && r[|r| - 5..] == "h ago"
  {
    match b
    case JustNow => "Just now"
    case MinutesAgo(m) => NatToString(m) + "m ago"
    case HoursAgo(h) => NatToString(h) + "h ago"
    case OnDate(d) => d
  }

  /** `formatTime`: the label for an entry created at `timestamp`, read at `now`. */
  function FormatTime(timestamp: int, now: int, localeDate: string): (r: string)
    ensures now - timestamp < 60000 ==> r == "Just now"
    ensures 60000 <= now - timestamp < 3600000 ==> |r| > 5 && r[|r| - 5..] == "m ago"
    ensures 3600000 <= now - timestamp < 86400000 ==> |r| > 5 && r[|r| - 5..] == "h ago"
    ensures now - timestamp >= 86400000 ==> r == localeDate
  {
    LabelText(TimeBucket(now - timestamp, localeDate))
  }

  /** A minutes or hours label gives back its number: the count before the suffix reads as the bucket's value. */
  lemma LabelNumberReadsBack(b: TimeLabel)
    requires b.MinutesAgo? || b.HoursAgo?
    ensures var t := LabelText(b);
      |t| > 5 && t[|t| - 5..] == (if b.MinutesAgo? then "m ago" else "h ago")
      && (forall i :: 0 <= i < |t| - 5 ==> IsDigit(t[i]))
      && DecimalValue(t[..|t| - 5]) == (if b.MinutesAgo? then b.minutes else b.hours)
  {
    var n := if b.MinutesAgo? then b.minutes else b.hours;
    var t := LabelText(b);
    assert t[..|t| - 5] == NatToString(n);
    DecimalRoundTrip(n);
  }
}
