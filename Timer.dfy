/** `convert_timer_time_to_seconds`: the countdown text of a troop movement,
    `HH:MM:SS`, read with `datetime.strptime(text, "%H:%M:%S")` and turned
    into a number of seconds. */
module Timer {
  import opened Base
  import opened Text

  /** `s.split(sep)` for a one-character separator. */
  function SplitOn(s: string, sep: char): (parts: seq<string>)
    ensures |parts| >= 1
    decreases |s|
  {
    if |s| == 0 then [""]
    else
      var rest := SplitOn(s[1..], sep);
      if s[0] == sep then [""] + rest else [[s[0]] + rest[0]] + rest[1..]
  }

  /** One field as `strptime` takes it for `%H`, `%M` or `%S`: one or two
      ASCII digits, with a value of at most `max` (23 for the hour, 59 for
      minutes and seconds; `%S` also matches 60 and 61, which `datetime`
      then refuses). */
  predicate IsTimerField(p: string, max: nat)
  {
    1 <= |p| <= 2 && AllDigits(p) && DecimalValue(p) <= max
  }

  /** `s` is the three fields `h`, `m`, `sec` joined by colons, each valid. */
  predicate IsTimerText(s: string, h: string, m: string, sec: string)
  {
    && s == h + ":" + m + ":" + sec
    && IsTimerField(h, 23) && IsTimerField(m, 59) && IsTimerField(sec, 59)
  }

  function Seconds(h: string, m: string, sec: string): nat
    requires AllDigits(h) && AllDigits(m) && AllDigits(sec)
  {
    DecimalValue(h) * 3600 + DecimalValue(m) * 60 + DecimalValue(sec)
  }

  /** `convert_timer_time_to_seconds(s)`; malformed text raises `ValueError`. */
  function ConvertTimerTimeToSeconds(s: string): (r: Result<nat>)
    ensures r.Ok? ==> r.value <= 86399
    ensures r.Err? ==> r.error == ValueError
  {
    var parts := SplitOn(s, ':');
    if |parts| == 3 && IsTimerField(parts[0], 23) && IsTimerField(parts[1], 59) && IsTimerField(parts[2], 59)
    then Ok(Seconds(parts[0], parts[1], parts[2]))
    else Err(ValueError)
  }

  lemma {:induction false} SplitWithoutSeparator(a: string, sep: char)
    requires sep !in a
    ensures SplitOn(a, sep) == [a]
    decreases |a|
  {
    if |a| > 0 {
      assert sep !in a[1..];
      SplitWithoutSeparator(a[1..], sep);
      assert [a[0]] + a[1..] == a;
    }
  }

  lemma {:induction false} SplitAtSeparator(a: string, sep: char, rest: string)
    requires sep !in a
    ensures SplitOn(a + [sep] + rest, sep) == [a] + SplitOn(rest, sep)
    decreases |a|
  {
    var s := a + [sep] + rest;
    if |a| == 0 {
      assert s[1..] == rest;
    } else {
      assert s[1..] == a[1..] + [sep] + rest;
      assert sep !in a[1..];
      SplitAtSeparator(a[1..], sep, rest);
      assert [a[0]] + a[1..] == a;
    }
  }

  /** `sep.join(parts)` */
  function Join(parts: seq<string>, sep: char): string
    requires |parts| >= 1
  {
    if |parts| == 1 then parts[0] else parts[0] + [sep] + Join(parts[1..], sep)
  }

  /** Splitting loses nothing: joining the parts gives the text back, and
      no part holds the separator. */
  lemma {:induction false} SplitThenJoin(s: string, sep: char)
    ensures Join(SplitOn(s, sep), sep) == s
    ensures forall p :: p in SplitOn(s, sep) ==> sep !in p
    decreases |s|
  {
    if |s| > 0 {
      SplitThenJoin(s[1..], sep);
      var rest := SplitOn(s[1..], sep);
      var parts := SplitOn(s, sep);
      if s[0] == sep {
        assert parts[1..] == rest;
        assert s == [sep] + s[1..];
      } else {
        assert s == [s[0]] + s[1..];
        if |rest| > 1 {
          assert parts[1..] == rest[1..];
        }
        forall p | p in parts
          ensures sep !in p
        {
          if p != parts[0] {
            assert p in rest[1..];
          } else {
            assert sep !in rest[0];
          }
        }
      }
    }
  }

  /** Every text of the form H:M:S with H <= 23 and M, S <= 59 (one or two
      digits each) is accepted, with the value H*3600 + M*60 + S. */
  lemma TimerTextAccepted(s: string, h: string, m: string, sec: string)
    requires IsTimerText(s, h, m, sec)
    ensures ConvertTimerTimeToSeconds(s) == Ok(Seconds(h, m, sec))
  {
    assert ':' !in h && ':' !in m && ':' !in sec by {
      assert !IsDigit(':');
    }
    assert s == h + [':'] + (m + [':'] + sec);
    SplitAtSeparator(h, ':', m + [':'] + sec);
    SplitAtSeparator(m, ':', sec);
    SplitWithoutSeparator(sec, ':');
  }

  /** Nothing else is accepted: an accepted text is such a triple. */
  lemma AcceptedIsTimerText(s: string)
    requires ConvertTimerTimeToSeconds(s).Ok?
    ensures exists h, m, sec :: IsTimerText(s, h, m, sec) && ConvertTimerTimeToSeconds(s).value == Seconds(h, m, sec)
  {
    var parts := SplitOn(s, ':');
    SplitThenJoin(s, ':');
    assert parts[1..][1..] == [parts[2]];
    assert Join(parts[1..], ':') == parts[1] + [':'] + parts[2];
    assert s == parts[0] + ":" + parts[1] + ":" + parts[2];
    assert IsTimerText(s, parts[0], parts[1], parts[2]);
  }

  /** Two ASCII digits for `n < 100`, with a leading zero. */
  function TwoDigits(n: nat): (s: string)
    requires n < 100
    ensures IsTimerField(s, n) && DecimalValue(s) == n
  {
    var s := [DigitChar(n / 10), DigitChar(n % 10)];
    assert s[..1] == [DigitChar(n / 10)] && s[..1][..0] == [];
    assert DecimalValue(s[..1]) == n / 10;
    s
  }

  /** A countdown as the page shows it: `HH:MM:SS`. */
  function FormatTimer(t: nat): string
    requires t < 86400
  {
    TwoDigits(t / 3600) + ":" + TwoDigits(t / 60 % 60) + ":" + TwoDigits(t % 60)
  }

  lemma SecondsOfDay(t: nat)
    ensures t / 3600 * 3600 + t / 60 % 60 * 60 + t % 60 == t
  {
    assert t / 60 == t / 3600 * 60 + t / 60 % 60;
    assert t == t / 60 * 60 + t % 60;
  }

  /** The hour, minute and second of a time within a day fit their fields. */
  lemma DayFields(t: nat)
    requires t < 86400
    ensures t / 3600 <= 23 && t / 60 % 60 <= 59 && t % 60 <= 59
  {
  }

  /** A countdown shown as `HH:MM:SS` is a valid timer text with those fields. */
  lemma FormatTimerIsTimerText(t: nat)
    requires t < 86400
    ensures t / 3600 <= 23 && t / 60 % 60 <= 59
    ensures IsTimerText(FormatTimer(t), TwoDigits(t / 3600), TwoDigits(t / 60 % 60), TwoDigits(t % 60))
  {
    DayFields(t);
  }

  /** Reading a countdown back gives the same number of seconds, for every
      time within a day. */
  lemma TimerRoundTrip(t: nat)
    requires t < 86400
    ensures ConvertTimerTimeToSeconds(FormatTimer(t)) == Ok(t)
  {
    FormatTimerIsTimerText(t);
    var h, m, sec := TwoDigits(t / 3600), TwoDigits(t / 60 % 60), TwoDigits(t % 60);
    TimerTextAccepted(FormatTimer(t), h, m, sec);
    SecondsOfDay(t);
  }
}
