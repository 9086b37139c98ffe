/** The countdown shown to the operator: printed by server.go, parsed and printed again by
    static/app.js. Durations are nanoseconds. */
module Durations {
  import opened Basics

  predicate IsDigit(c: char) { '0' <= c <= '9' }

  predicate AllDigits(s: string) { forall i | 0 <= i < |s| :: IsDigit(s[i]) }

  function Digits(n: nat): (s: string)
    ensures |s| > 0 && AllDigits(s)
  {
    if n < 10 then ['0' + n as char] else Digits(n / 10) + ['0' + (n % 10) as char]
  }

  /** parseInt(s, 10) of a run of digits. */
  function Value(s: string): nat
    requires AllDigits(s)
  {
    if s == "" then 0 else Value(s[..|s| - 1]) * 10 + (s[|s| - 1] - '0') as nat
  }

  lemma {:induction false} ValueOfDigits(n: nat)
    ensures Value(Digits(n)) == n
  {
    if n >= 10 {
      ValueOfDigits(n / 10);
      assert Digits(n)[..|Digits(n)| - 1] == Digits(n / 10);
    } else {
      assert Digits(n)[..0] == "";
    }
  }

  /** %d. */
  function Decimal(n: int): string { if n < 0 then "-" + Digits(-n) else Digits(n) }

  /** Go's % truncates toward zero. */
  function Rem(a: int, b: int): int
    requires b > 0
  {
    if a >= 0 then a % b else -((-a) % b)
  }

  function Quot(a: int, b: int): int
    requires b > 0
  {
    if a >= 0 then a / b else -((-a) / b)
  }

  /** d.Round(time.Second) in seconds: nearest, halves away from zero. */
  function RoundSeconds(d: int): int {
    if d >= 0 then (d + SECOND / 2) / SECOND else -((-d + SECOND / 2) / SECOND)
  }

  function FormatDuration(d: int): string {
    var sec := RoundSeconds(d);
    var h, m, s := Quot(sec, 3600), Rem(Quot(sec, 60), 60), Rem(sec, 60);
    if h > 0 then Decimal(h) + "h" + Decimal(m) + "m"
    else if m > 0 then Decimal(m) + "m" + Decimal(s) + "s"
    else Decimal(s) + "s"
  }

  /** handleStatus's time to the next refresh is positive, at most one interval and ends on a
      multiple of the interval, so the printer is only called with such durations. */
  lemma RemainingInRange(refresh: int, elapsed: int)
    requires refresh > 0 && elapsed >= 0
    ensures var remaining := refresh - Rem(elapsed, refresh);
      0 < remaining <= refresh && exists k: int :: elapsed + remaining == k * refresh
  {
    var q := elapsed / refresh;
    assert elapsed + (refresh - Rem(elapsed, refresh)) == (q + 1) * refresh;
  }

  /** Rounding goes to the nearest second, and from the middle away from zero. */
  lemma RoundsToNearest(d: int)
    ensures var twiceOff := 2 * (d - RoundSeconds(d) * 1_000_000_000);
      && -1_000_000_000 <= twiceOff <= 1_000_000_000
      && (twiceOff == 1_000_000_000 ==> d < 0) && (twiceOff == -1_000_000_000 ==> d > 0)
  {
  }

  /** What is shown for a duration that is not negative: the two largest units of the rounded
      seconds, each below the next larger one, and seconds alone below a minute. */
  lemma PrintedUnits(d: nat)
    ensures var sec := RoundSeconds(d);
      && (sec >= 3600 ==> exists h: nat, m: nat ::
            m < 60 && 3600 * h + 60 * m <= sec < 3600 * h + 60 * m + 60
            && FormatDuration(d) == Digits(h) + "h" + Digits(m) + "m")
      && (60 <= sec < 3600 ==> exists m: nat, s: nat ::
            s < 60 && 60 * m + s == sec && FormatDuration(d) == Digits(m) + "m" + Digits(s) + "s")
      && (sec < 60 ==> FormatDuration(d) == Digits(sec) + "s")
  {
    var sec := RoundSeconds(d);
    var h, m, s := sec / 3600, (sec / 60) % 60, sec % 60;
    assert (sec / 60) / 60 == h;
    if sec >= 3600 {
      assert FormatDuration(d) == Digits(h) + "h" + Digits(m) + "m";
    } else if sec >= 60 {
      assert m == sec / 60;
      assert FormatDuration(d) == Digits(m) + "m" + Digits(s) + "s";
    }
  }

  function RunLength(s: string): (n: nat)
    ensures n <= |s| && AllDigits(s[..n])
    ensures n < |s| ==> !IsDigit(s[n])
  {
    if s == "" || !IsDigit(s[0]) then 0
    else
      assert forall k | 0 <= k < 1 + RunLength(s[1..]) :: IsDigit(s[k]) by {
        assert forall k | 1 <= k < 1 + RunLength(s[1..]) :: s[k] == s[1..][..RunLength(s[1..])][k - 1];
      }
      1 + RunLength(s[1..])
  }

  /** s.match(/(\d+)u/): the first run of digits that the unit follows. */
  function MatchUnit(s: string, u: char): Option<nat> {
    if s == "" then None
    else
      var n := RunLength(s);
      if 0 < n < |s| && s[n] == u then Some(Value(s[..n])) else MatchUnit(s[1..], u)
  }

  /** _parseDuration. On anything the server printed it undoes the printing, up to what was
      left out: seconds are exact below an hour and cut to whole minutes from there on. */
  method ParseDuration(s: string) returns (sec: nat)
    ensures sec == Parsed(s)
    ensures forall d: nat | FormatDuration(d) == s ::
      sec == if RoundSeconds(d) < 3600 then RoundSeconds(d) else RoundSeconds(d) - RoundSeconds(d) % 60
  {
    forall d: nat | FormatDuration(d) == s
      ensures Parsed(s) == if RoundSeconds(d) < 3600 then RoundSeconds(d) else RoundSeconds(d) - RoundSeconds(d) % 60
    {
      ParseUndoesPrint(d);
    }
    sec := 0;
    var m := MatchUnit(s, 'h');
    if m.Some? {
      sec := sec + m.value * 3600;
    }
    m := MatchUnit(s, 'm');
    if m.Some? {
      sec := sec + m.value * 60;
    }
    m := MatchUnit(s, 's');
    if m.Some? {
      sec := sec + m.value;
    }
  }

  function Or0(m: Option<nat>): nat { if m.Some? then m.value else 0 }

  function Parsed(s: string): nat {
    3600 * Or0(MatchUnit(s, 'h')) + 60 * Or0(MatchUnit(s, 'm')) + Or0(MatchUnit(s, 's'))
  }

  /** _formatCountdown, on whole seconds. */
  function FormatCountdown(sec: int): string {
    if sec <= 0 then "0s"
    else
      var h, m, s := sec / 3600, (sec % 3600) / 60, sec % 60;
      if h > 0 then Digits(h) + "h" + Digits(m) + "m"
      else if m > 0 then Digits(m) + "m" + Digits(s) + "s"
      else Digits(s) + "s"
  }

  lemma {:induction false} RunOf(d: string, u: char, rest: string)
    requires AllDigits(d) && !IsDigit(u)
    ensures RunLength(d + [u] + rest) == |d|
  {
    if d != "" {
      assert (d + [u] + rest)[1..] == d[1..] + [u] + rest;
      RunOf(d[1..], u, rest);
    }
  }

  /** A number followed by another unit is passed over. */
  lemma {:induction false} Skip(d: string, v: char, rest: string, u: char)
    requires AllDigits(d) && !IsDigit(v) && v != u
    ensures MatchUnit(d + [v] + rest, u) == MatchUnit(rest, u)
  {
    RunOf(d, v, rest);
    if d != "" {
      assert (d + [v] + rest)[1..] == d[1..] + [v] + rest;
      Skip(d[1..], v, rest, u);
    } else {
      assert (d + [v] + rest)[1..] == rest;
    }
  }

  lemma Hit(n: nat, u: char, rest: string)
    requires !IsDigit(u)
    ensures MatchUnit(Digits(n) + [u] + rest, u) == Some(n)
  {
    RunOf(Digits(n), u, rest);
    assert (Digits(n) + [u] + rest)[..|Digits(n)|] == Digits(n);
    ValueOfDigits(n);
  }

  /** Two numbers with different units, as both printers write them. */
  lemma MatchTwo(a: nat, v: char, b: nat, w: char, u: char)
    requires !IsDigit(v) && !IsDigit(w) && v != w
    ensures MatchUnit(Digits(a) + [v] + Digits(b) + [w], u) ==
      if u == v then Some(a) else if u == w && !IsDigit(u) then Some(b) else None
  {
    var tail := Digits(b) + [w] + "";
    assert Digits(a) + [v] + Digits(b) + [w] == Digits(a) + [v] + tail;
    if u == v {
      Hit(a, v, tail);
    } else {
      Skip(Digits(a), v, tail, u);
      MatchOne(b, w, u);
      assert tail == Digits(b) + [w];
    }
  }

  lemma MatchOne(b: nat, w: char, u: char)
    requires !IsDigit(w)
    ensures MatchUnit(Digits(b) + [w], u) == if u == w then Some(b) else None
  {
    assert Digits(b) + [w] + "" == Digits(b) + [w];
    if u == w {
      Hit(b, w, "");
    } else {
      Skip(Digits(b), w, "", u);
    }
  }

  /** The two printers agree on whole seconds. */
  lemma PrintersAgree(d: nat)
    ensures FormatCountdown(RoundSeconds(d)) == FormatDuration(d)
  {
    var sec := RoundSeconds(d);
    assert (sec % 3600) / 60 == (sec / 60) % 60;
    assert Digits(0) == "0";
  }

  lemma ParseHours(h: nat, m: nat)
    ensures Parsed(Digits(h) + ['h'] + Digits(m) + ['m']) == 3600 * h + 60 * m
  {
    MatchTwo(h, 'h', m, 'm', 'h');
    MatchTwo(h, 'h', m, 'm', 'm');
    MatchTwo(h, 'h', m, 'm', 's');
  }

  lemma ParseMinutes(m: nat, s: nat)
    ensures Parsed(Digits(m) + ['m'] + Digits(s) + ['s']) == 60 * m + s
  {
    MatchTwo(m, 'm', s, 's', 'h');
    MatchTwo(m, 'm', s, 's', 'm');
    MatchTwo(m, 'm', s, 's', 's');
  }

  lemma ParseSeconds(s: nat)
    ensures Parsed(Digits(s) + ['s']) == s
  {
    MatchOne(s, 's', 'h');
    MatchOne(s, 's', 'm');
    MatchOne(s, 's', 's');
  }

  /** sec as hours, minutes and seconds. */
  lemma Units(sec: nat)
    ensures var h, m, s := sec / 3600, (sec % 3600) / 60, sec % 60;
      && sec == 3600 * h + 60 * m + s && m < 60 && (h > 0 <==> sec >= 3600)
  {
    var h, rest := sec / 3600, sec % 3600;
    assert sec == 3600 * h + rest && rest < 3600;
    var m, s := rest / 60, rest % 60;
    assert rest == 60 * m + s && s < 60;
    assert sec == 60 * (60 * h + m) + s;
  }

  lemma Shown(sec: nat) returns (h: nat, m: nat, s: nat)
    ensures sec == 3600 * h + 60 * m + s && m < 60 && s == sec % 60 && (h > 0 <==> sec >= 3600)
    ensures FormatCountdown(sec) ==
      if h > 0 then Digits(h) + ['h'] + Digits(m) + ['m']
      else if m > 0 then Digits(m) + ['m'] + Digits(s) + ['s']
      else Digits(s) + ['s']
  {
    Units(sec);
    h, m, s := sec / 3600, (sec % 3600) / 60, sec % 60;
    assert sec == 0 ==> Digits(0) == "0";
    hide Digits;
  }

  lemma ParseCountdown(sec: nat)
    ensures Parsed(FormatCountdown(sec)) == if sec < 3600 then sec else sec - sec % 60
  {
    var h, m, s := Shown(sec);
    hide Digits, Parsed, MatchUnit, FormatCountdown;
    if h > 0 {
      ParseHours(h, m);
    } else if m > 0 {
      ParseMinutes(m, s);
    } else {
      ParseSeconds(s);
    }
  }

  /** The client's parser undoes the server's printer up to what it leaves out: seconds are
      exact below an hour and cut to whole minutes from there on. */
  lemma ParseUndoesPrint(d: nat)
    ensures var sec := RoundSeconds(d);
      Parsed(FormatDuration(d)) == if sec < 3600 then sec else sec - sec % 60
  {
    PrintersAgree(d);
    ParseCountdown(RoundSeconds(d));
  }

  /** Printing the parsed value again shows the same text, so the display does not jump. */
  lemma ReprintIsStable(d: nat)
    ensures FormatCountdown(Parsed(FormatDuration(d))) == FormatDuration(d)
  {
    var sec := RoundSeconds(d);
    ParseUndoesPrint(d);
    PrintersAgree(d);
    CutKeepsMinutes(sec);
  }

  /** Dropping the odd seconds of an hour or more changes neither hours nor minutes. */
  lemma CutKeepsMinutes(sec: nat)
    ensures var cut := sec - sec % 60;
      cut / 3600 == sec / 3600 && (cut % 3600) / 60 == (sec % 3600) / 60
  {
    Units(sec);
    var h, m, cut := sec / 3600, (sec % 3600) / 60, sec - sec % 60;
    assert cut == 3600 * h + 60 * m;
    assert cut / 3600 == h && cut % 3600 == 60 * m;
  }
}
