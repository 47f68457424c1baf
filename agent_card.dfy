/** The agent card's derived text (AgentCard.tsx): the age of the last heartbeat in
    coarse buckets ("just now", minutes, hours, days), the "never" fallback, and the
    emoji chosen from the lower-cased agent name. Times are integer milliseconds. */
module AgentCard {
  import opened Types

  // ------------------------------------------------------------ decimal numbers

  predicate IsDigit(c: char) {
    '0' <= c <= '9'
  }

  predicate AllDigits(s: string) {
    forall i :: 0 <= i < |s| ==> IsDigit(s[i])
  }

  function DigitChar(d: nat): (c: char)
    requires d < 10
    ensures IsDigit(c) && c as int - '0' as int == d
  {
    ('0' as int + d) as char
  }

  /** `${n}` for a non-negative integer: its decimal digits, no leading zeros. */
  function DecimalString(n: nat): (s: string)
    ensures |s| >= 1 && AllDigits(s)
    ensures n > 0 ==> s[0] != '0'
    decreases n
  {
    if n < 10 then [DigitChar(n)] else DecimalString(n / 10) + [DigitChar(n % 10)]
  }

  /** The value of a string of decimal digits. */
  function DecimalValue(s: string): nat
    requires AllDigits(s)
  {
    if s == [] then 0 else DecimalValue(s[..|s| - 1]) * 10 + (s[|s| - 1] as int - '0' as int)
  }

  /** Reading back the printed number gives the number. */
  lemma {:induction false} DecimalRoundTrip(n: nat)
    ensures DecimalValue(DecimalString(n)) == n
    decreases n
  {
    var s := DecimalString(n);
    if n >= 10 {
      DecimalRoundTrip(n / 10);
      assert s[..|s| - 1] == DecimalString(n / 10);
    }
  }

  // ------------------------------------------------------------ heartbeat age

  /** The buckets of getTimeSince. */
  datatype Age = JustNow | MinutesAgo(minutes: nat) | HoursAgo(hours: nat) | DaysAgo(days: nat)

  /** `Math.floor((now - since) / 1000)`; Dafny's division by a positive divisor is floor division. */
  function ElapsedSeconds(now: int, since: int): (s: int)
    ensures s * 1000 <= now - since < (s + 1) * 1000
  {
    (now - since) / 1000
  }

  /** The bucket of an elapsed time in seconds (negative, i.e. future, times included). */
  function AgeOf(seconds: int): (a: Age)
    ensures a == JustNow <==> seconds < 60
    ensures a.MinutesAgo? <==> 60 <= seconds < 3600
    ensures a.HoursAgo? <==> 3600 <= seconds < 86400
    ensures a.DaysAgo? <==> 86400 <= seconds
    ensures a.MinutesAgo? ==> 1 <= a.minutes <= 59 && a.minutes * 60 <= seconds < (a.minutes + 1) * 60
    ensures a.HoursAgo? ==> 1 <= a.hours <= 23 && a.hours * 3600 <= seconds < (a.hours + 1) * 3600
    ensures a.DaysAgo? ==> 1 <= a.days && a.days * 86400 <= seconds < (a.days + 1) * 86400
  {
    if seconds < 60 then JustNow
    else if seconds < 3600 then MinutesAgo(seconds / 60)
    else if seconds < 86400 then HoursAgo(seconds / 3600)
    else DaysAgo(seconds / 86400)
  }

  /** The text of a bucket. */
  function AgeText(a: Age): string {
    match a
    case JustNow => "just now"
    case MinutesAgo(m) => DecimalString(m) + "m ago"
    case HoursAgo(h) => DecimalString(h) + "h ago"
    case DaysAgo(d) => DecimalString(d) + "d ago"
  }

  /** Reads a bucket back from its text. */
  function ParseAge(s: string): Option<Age> {
    if s == "just now" then Some(JustNow)
    else if |s| > 5 && AllDigits(s[..|s| - 5]) then
      var n := DecimalValue(s[..|s| - 5]);
      var unit := s[|s| - 5..];
      if unit == "m ago" then Some(MinutesAgo(n))
      else if unit == "h ago" then Some(HoursAgo(n))
      else if unit == "d ago" then Some(DaysAgo(n))
      else None
    else None
  }

  /** The text determines the bucket and its count: no two buckets print alike. */
  lemma AgeTextRoundTrip(a: Age)
    ensures ParseAge(AgeText(a)) == Some(a)
  {
    var s := AgeText(a);
    match a
    case JustNow =>
    case MinutesAgo(n) =>
      assert s[..|s| - 5] == DecimalString(n) && s[|s| - 5..] == "m ago";
      assert s != "just now" by { assert s[|s| - 5] == 'm'; }
      DecimalRoundTrip(n);
    case HoursAgo(n) =>
      assert s[..|s| - 5] == DecimalString(n) && s[|s| - 5..] == "h ago";
      assert s != "just now" by { assert s[|s| - 5] == 'h'; }
      DecimalRoundTrip(n);
    case DaysAgo(n) =>
      assert s[..|s| - 5] == DecimalString(n) && s[|s| - 5..] == "d ago";
      assert s != "just now" by { assert s[|s| - 5] == 'd'; }
      DecimalRoundTrip(n);
  }

  /** getTimeSince(then) evaluated at time now: the text of the bucket of the elapsed
      whole seconds, from which that bucket can be read back. */
  function TimeSince(now: int, since: int): (r: string)
    ensures ParseAge(r) == Some(AgeOf(ElapsedSeconds(now, since)))
  {
    AgeTextRoundTrip(AgeOf(ElapsedSeconds(now, since)));
    AgeText(AgeOf(ElapsedSeconds(now, since)))
  }

  /** A heartbeat less than a minute old, or in the future, reads "just now"; one a
      minute or more old names the elapsed whole minutes, hours or days. */
  lemma TimeSinceBuckets(now: int, since: int)
    ensures now - since < 60000 <==> TimeSince(now, since) == "just now"
    ensures 60000 <= now - since < 3600000 ==>
              TimeSince(now, since) == DecimalString((now - since) / 60000) + "m ago"
    ensures 3600000 <= now - since < 86400000 ==>
              TimeSince(now, since) == DecimalString((now - since) / 3600000) + "h ago"
    ensures 86400000 <= now - since ==>
              TimeSince(now, since) == DecimalString((now - since) / 86400000) + "d ago"
  {
    var s := ElapsedSeconds(now, since);
    var a := AgeOf(s);
    AgeTextRoundTrip(a);
    AgeTextRoundTrip(JustNow);
    if a.MinutesAgo? {
      assert a.minutes == (now - since) / 60000;
    } else if a.HoursAgo? {
      assert a.hours == (now - since) / 3600000;
    } else if a.DaysAgo? {
      assert a.days == (now - since) / 86400000;
    }
  }

  /** "Last heartbeat" line: "never" without a heartbeat, else the age of that heartbeat. */
  function HeartbeatLabel(lastHeartbeat: Option<int>, now: int): (r: string)
    ensures lastHeartbeat.None? ==> r == "never"
    ensures lastHeartbeat.Some? ==> ParseAge(r) == Some(AgeOf(ElapsedSeconds(now, lastHeartbeat.value)))
  {
    match lastHeartbeat
    case None => "never"
    case Some(since) => TimeSince(now, since)
  }

  // ------------------------------------------------------------ emoji

  const DefaultEmoji: string := "\U{1F916}"

  /** agentEmojis: no key has an upper-case letter, so lower-casing a key gives the
      key back (LowerCaseFixed) and a lower-cased name can reach it; every emoji is
      non-empty, so a listed name never falls back. */
  function AgentEmojis(): (m: map<string, string>)
    ensures forall k :: k in m ==> IsLowerCase(k) && m[k] != ""
  {
    map[
      "robbie" := "\U{1F916}",
      "adan" := "\U{1F4BB}",
      "adam" := "\U{1F4B0}",
      "amanda" := "\U{1F6E0}\U{FE0F}",
      "leo" := "\U{1F3A8}",
      "maya" := "\U{1F4E3}",
      "zaldy" := "\U{1F4D0}",
      "main" := "\U{1F916}"
    ]
  }

  /** `agentEmojis[name.toLowerCase()] || "🤖"`: the table entry of the lower-cased
      name, or the default robot for a name the table does not know. */
  function EmojiFor(name: string): (r: string)
    ensures Lower(name) in AgentEmojis() ==> r == AgentEmojis()[Lower(name)]
    ensures Lower(name) !in AgentEmojis() ==> r == DefaultEmoji
    ensures r != ""
  {
    var key := Lower(name);
    if key in AgentEmojis() && AgentEmojis()[key] != "" then AgentEmojis()[key] else DefaultEmoji
  }
}
