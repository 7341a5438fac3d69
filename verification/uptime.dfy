/** The uptime line of the newer bot's stats message
    (`lurk_chan/src/tasks/stats.rs`): a counter that starts one tick below
    zero and grows one tick per render, shown as days, hours, minutes and
    seconds. */
module Uptime {
  import opened Wrappers
  import opened Text

  const Tick: nat := 30

  /** The uptime shown at each of the first `ticks` renders: the counter
      starts one tick below zero and each tick adds one tick's seconds
      before rendering. */
  method UptimesShown(ticks: nat) returns (shown: seq<int>)
    ensures |shown| == ticks
    ensures forall i :: 0 <= i < ticks ==> shown[i] == Tick * i
  {
    var uptime: int := -(Tick as int);
    shown := [];
    var i := 0;
    while i < ticks
      invariant 0 <= i <= ticks && |shown| == i
      invariant uptime == Tick * i - Tick
      invariant forall j :: 0 <= j < i ==> shown[j] == Tick * j
    {
      uptime := uptime + Tick;
      shown := shown + [uptime];
      i := i + 1;
    }
  }

  /** `{:<02}`: the zero flag pads integers on the left to two digits,
      whatever the alignment says. */
  function Pad2(n: nat): (t: string)
    ensures |t| >= 2 && AllDigits(t)
  {
    if n < 10 then ['0', DigitChar(n)] else DecimalText(n)
  }

  lemma Pad2Value(n: nat)
    ensures DigitsValue(Pad2(n)) == n
  {
    if n < 10 {
      var t := Pad2(n);
      assert t[..1] == ['0'] && t[..1][..0] == [];
      assert DigitsValue(t[..1]) == 0;
      assert DigitValue(t[1]) == n;
    } else {
      DigitsValueOfDecimal(n);
    }
  }

  /** Days, then hours, minutes and seconds within the day, hour and minute. */
  datatype Clock = Clock(days: nat, hours: nat, minutes: nat, seconds: nat)

  /** The seconds a clock reading stands for. */
  function Seconds(c: Clock): nat {
    c.days * 86400 + c.hours * 3600 + c.minutes * 60 + c.seconds
  }

  /** chrono's `num_days`, `num_hours % 24`, `num_minutes % 60` and
      `num_seconds % 60` of a non-negative duration. */
  function ClockOf(secs: nat): (c: Clock)
    ensures c.hours < 24 && c.minutes < 60 && c.seconds < 60
    ensures Seconds(c) == secs
  {
    var mins := secs / 60;
    var hours := secs / 3600;
    var days := secs / 86400;
    assert secs == 60 * mins + secs % 60;
    assert hours == mins / 60;
    assert mins == 60 * hours + mins % 60;
    assert days == hours / 24;
    assert hours == 24 * days + hours % 24;
    assert secs == 3600 * hours + 60 * (mins % 60) + secs % 60;
    Clock(days, hours % 24, mins % 60, secs % 60)
  }

  /** A clock within its ranges is the reading of its own seconds. */
  lemma ClockOfSeconds(c: Clock)
    requires c.hours < 24 && c.minutes < 60 && c.seconds < 60
    ensures ClockOf(Seconds(c)) == c
  {
    var secs := Seconds(c);
    assert secs == 60 * (c.days * 1440 + c.hours * 60 + c.minutes) + c.seconds;
    assert secs / 60 == c.days * 1440 + c.hours * 60 + c.minutes;
    assert secs / 3600 == c.days * 24 + c.hours;
    assert secs / 86400 == c.days;
  }

  /** The uptime field: `dd:hh:mm:ss`. */
  function UptimeText(secs: nat): string {
    ClockText(ClockOf(secs))
  }

  function ClockText(c: Clock): string {
    Pad2(c.days) + ":" + Pad2(c.hours) + ":" + Pad2(c.minutes) + ":" + Pad2(c.seconds)
  }

  function FieldValue(t: string): Option<nat> {
    if |t| > 0 && AllDigits(t) then Some(DigitsValue(t)) else None
  }

  /** The four colon-separated groups of an uptime field. */
  function SplitFields(t: string): Option<(string, string, string, string)> {
    match SplitOnce(t, ':')
    case None => None
    case Some((d, rest)) =>
      match SplitOnce(rest, ':')
      case None => None
      case Some((h, rest2)) =>
        match SplitOnce(rest2, ':')
        case None => None
        case Some((m, s)) => Some((d, h, m, s))
  }

  /** Reading an uptime field back into its clock. */
  function ParseClock(t: string): Option<Clock> {
    match SplitFields(t)
    case None => None
    case Some((d, h, m, s)) =>
      if FieldValue(d).Some? && FieldValue(h).Some? && FieldValue(m).Some? && FieldValue(s).Some? then
        Some(Clock(FieldValue(d).value, FieldValue(h).value, FieldValue(m).value, FieldValue(s).value))
      else None
  }

  /** Reading an uptime field back into seconds. */
  function ParseUptime(t: string): Option<nat> {
    match ParseClock(t)
    case None => None
    case Some(c) => Some(Seconds(c))
  }

  lemma NoColonInDigits(t: string)
    requires AllDigits(t)
    ensures ':' !in t
  {
  }

  lemma SplitFieldsOfJoin(d: string, h: string, m: string, s: string)
    requires AllDigits(d) && AllDigits(h) && AllDigits(m)
    ensures SplitFields(d + ":" + h + ":" + m + ":" + s) == Some((d, h, m, s))
  {
    NoColonInDigits(d);
    NoColonInDigits(h);
    NoColonInDigits(m);
    assert d + ":" + h + ":" + m + ":" + s == d + [':'] + (h + [':'] + (m + [':'] + s));
    SplitOnceOfJoin(d, ':', h + [':'] + (m + [':'] + s));
    SplitOnceOfJoin(h, ':', m + [':'] + s);
    SplitOnceOfJoin(m, ':', s);
  }

  /** Every clock reads back from its text. */
  lemma ClockTextReadsBack(c: Clock)
    ensures ParseClock(ClockText(c)) == Some(c)
  {
    Pad2Value(c.days);
    Pad2Value(c.hours);
    Pad2Value(c.minutes);
    Pad2Value(c.seconds);
    SplitFieldsOfJoin(Pad2(c.days), Pad2(c.hours), Pad2(c.minutes), Pad2(c.seconds));
  }

  /** The uptime field shows the uptime exactly. */
  lemma UptimeRoundTrip(secs: nat)
    ensures ParseUptime(UptimeText(secs)) == Some(secs)
  {
    ClockTextReadsBack(ClockOf(secs));
  }

  /** Under a minute of uptime (the first render shows zero seconds) reads
      as zero days, hours and minutes followed by the padded seconds. */
  lemma UptimeUnderAMinute(secs: nat)
    requires secs < 60
    ensures UptimeText(secs) == "00:00:00:" + Pad2(secs)
  {
    var c := ClockOf(secs);
    assert c.days == 0 && c.hours == 0 && c.minutes == 0 && c.seconds == secs;
  }
}
