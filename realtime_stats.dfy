/** The live-statistics panel (Frontend/components/ui/realtime-stats.tsx):
    the uptime formatter and the two ways a poll updates the panel's state.
    The network reply, the clock and the `Math.random()` draws are
    parameters. */
module RealtimeStats {
  import opened Wrappers
  import opened JsText

  /** The panel's `stats` record. */
  datatype Stats = Stats(
    activeUsers: int,
    totalMessages: int,
    messagesPerSecond: int,
    activeSessions: int,
    averageResponseTime: int,
    uptime: string)

  const InitialStats: Stats := Stats(0, 0, 0, 0, 0, "00:00:00")

  /** The whole state of the panel: the record it shows, the message count of
      the previous successful poll, and the time the panel was mounted. */
  datatype Panel = Panel(stats: Stats, previousMessageCount: int, startTime: int)

  function InitialPanel(startTime: int): Panel { Panel(InitialStats, 0, startTime) }

  /** The JSON body of `/api/stats`. Fields it leaves out keep their previous
      value when merged; `totalMessages` is the one field the update reads. */
  datatype ServerStats = ServerStats(
    activeUsers: Option<int>,
    totalMessages: int,
    messagesPerSecond: Option<int>,
    activeSessions: Option<int>,
    averageResponseTime: Option<int>,
    uptime: Option<string>)

  /** The five values `Math.floor(Math.random() * k)` of the simulated update,
      for k = 50, 5, 3, 15 and 50. */
  datatype Draws = Draws(users: int, messages: int, rate: int, sessions: int, responseTime: int)

  predicate ValidDraws(d: Draws)
  {
    0 <= d.users < 50 && 0 <= d.messages < 5 && 0 <= d.rate < 3 &&
    0 <= d.sessions < 15 && 0 <= d.responseTime < 50
  }

  /** How one poll ends: a reply with `ok` set and a body, a reply without
      `ok`, or an exception (from `fetch` or from reading the body). */
  datatype FetchOutcome = Fetched(data: ServerStats) | NotOk | Failed(draws: Draws)

  predicate ValidOutcome(o: FetchOutcome) { o.Failed? ==> ValidDraws(o.draws) }

  // ---------------------------------------------------------------------
  // formatUptime

  function Max(a: int, b: int): int { if a >= b then a else b }

  function GetOr<T>(o: Option<T>, default: T): T
  {
    match o
    case Some(v) => v
    case None => default
  }

  /** JavaScript's `a % b` for a positive `b`: the remainder takes the sign of `a`. */
  function JsRem(a: int, b: nat): int
    requires b > 0
  {
    if a >= 0 then a % b else -((-a) % b)
  }

  /** `n.toString().padStart(2, '0')`. */
  function Pad2(n: int): string { PadStart(IntToRadix(n, 10), 2, '0') }

  /** `formatUptime`: whole hours, minutes and seconds of `ms`, each at least
      two digits, joined by colons. `Math.floor` of a quotient by a positive
      constant is Dafny's `/`. */
  function FormatUptime(ms: int): string
  {
    var seconds := ms / 1000;
    var minutes := seconds / 60;
    var hours := minutes / 60;
    Pad2(hours) + ":" + Pad2(JsRem(minutes, 60)) + ":" + Pad2(JsRem(seconds, 60))
  }

  /** Reads an uptime string back as whole seconds: the last two characters
      are seconds, the two before the last colon minutes, everything before
      the first colon hours. */
  function UptimeSeconds(s: string): int
  {
    if |s| < 8 then 0
    else ParseRadix(s[..|s| - 6], 10) * 3600 + ParseRadix(s[|s| - 5..|s| - 3], 10) * 60 + ParseRadix(s[|s| - 2..], 10)
  }

  /** For a non-negative duration the three fields are `floor(ms/3600000)`
      (never wrapped), `floor(ms/60000) mod 60` and `floor(ms/1000) mod 60`,
      each written in decimal and padded to two digits. */
  lemma UptimeFields(ms: int)
    requires ms >= 0
    ensures FormatUptime(ms) == Pad2(ms / 3600000) + ":" + Pad2((ms / 60000) % 60) + ":" + Pad2((ms / 1000) % 60)
    ensures 0 <= (ms / 60000) % 60 < 60 && 0 <= (ms / 1000) % 60 < 60
    ensures ms / 1000 == (ms / 3600000) * 3600 + ((ms / 60000) % 60) * 60 + (ms / 1000) % 60
  {
    var seconds := ms / 1000;
    assert seconds / 60 == ms / 60000;
    assert (seconds / 60) / 60 == ms / 3600000;
  }

  lemma {:induction false} Pad2Value(n: nat)
    ensures |Pad2(n)| >= 2
    ensures n < 100 ==> |Pad2(n)| == 2
    ensures forall i :: 0 <= i < |Pad2(n)| ==> IsDigitIn(Pad2(n)[i], 10)
    ensures ParseRadix(Pad2(n), 10) == n
  {
    var digits := NatToRadix(n, 10);
    var padded := Pad2(n);
    if 10 <= n < 100 {
      DivideByRadix(n, 10);
      assert digits == NatToRadix(n / 10, 10) + [DigitChar(n % 10)];
      assert |NatToRadix(n / 10, 10)| == 1;
    }
    assert padded == padded[..|padded| - |digits|] + digits;
    ParseRadixLeadingZeros(padded[..|padded| - |digits|], digits, 10);
    RadixRoundTrip(n, 10);
  }

  /** Reading the string back gives the whole seconds of the duration: the
      formatter loses exactly the milliseconds. */
  lemma UptimeRoundTrip(ms: int)
    requires ms >= 0
    ensures UptimeSeconds(FormatUptime(ms)) == ms / 1000
  {
    var h, m, sec := ms / 3600000, (ms / 60000) % 60, (ms / 1000) % 60;
    assert FormatUptime(ms) == Pad2(h) + ":" + Pad2(m) + ":" + Pad2(sec) && ms / 1000 == h * 3600 + m * 60 + sec by {
      UptimeFields(ms);
    }
    ReadUptime(h, m, sec);
  }

  /** Reading back three padded fields gives their total in seconds. */
  lemma ReadUptime(h: nat, m: nat, sec: nat)
    requires m < 60 && sec < 60
    ensures UptimeSeconds(Pad2(h) + ":" + Pad2(m) + ":" + Pad2(sec)) == h * 3600 + m * 60 + sec
  {
    Pad2Value(h);
    Pad2Value(m);
    Pad2Value(sec);
    ReadFields(Pad2(h), Pad2(m), Pad2(sec));
  }

  /** The reader takes each field as a decimal number. */
  lemma ReadFields(ph: string, pm: string, ps: string)
    requires |ph| >= 2 && |pm| == 2 && |ps| == 2
    ensures UptimeSeconds(ph + ":" + pm + ":" + ps) == ParseRadix(ph, 10) * 3600 + ParseRadix(pm, 10) * 60 + ParseRadix(ps, 10)
  {
    SplitUptime(ph, pm, ps);
  }

  /** The hours are everything before the last six characters, the minutes
      the two after the first colon, the seconds the last two. */
  lemma SplitUptime(ph: string, pm: string, ps: string)
    requires |ph| >= 2 && |pm| == 2 && |ps| == 2
    ensures var s := ph + ":" + pm + ":" + ps;
      |s| >= 8 && s[..|s| - 6] == ph && s[|s| - 5..|s| - 3] == pm && s[|s| - 2..] == ps
  {
    var s := ph + ":" + pm + ":" + ps;
    var n := |s|;
    assert s[..n - 6] == ph by {
      assert s == ph + (":" + pm + ":" + ps);
    }
    assert s[n - 5..n - 3] == pm by {
      forall k | 0 <= k < 2 ensures s[n - 5 + k] == pm[k] {
        assert s == (ph + ":") + pm + (":" + ps);
      }
    }
    assert s[n - 2..] == ps by {
      assert s == (ph + ":" + pm + ":") + ps;
    }
  }

  /** Two non-negative durations print alike exactly when they have the same
      whole seconds. */
  lemma UptimeSameSecond(a: int, b: int)
    requires a >= 0 && b >= 0
    ensures FormatUptime(a) == FormatUptime(b) <==> a / 1000 == b / 1000
  {
    if FormatUptime(a) == FormatUptime(b) {
      UptimeRoundTrip(a);
      UptimeRoundTrip(b);
    }
  }

  /** Under one second the formatter prints the panel's initial uptime. */
  lemma UptimeUnderASecond(ms: int)
    requires 0 <= ms < 1000
    ensures FormatUptime(ms) == InitialStats.uptime
  {
    var zero := ms / 1000;
    assert zero == 0;
    assert zero / 60 == zero && JsRem(zero, 60) == zero;
    assert IntToRadix(zero, 10) == [DigitChar(zero)];
    PadOneDigit(DigitChar(zero));
    assert Pad2(zero) == ['0', '0'];
    assert FormatUptime(ms) == Pad2(zero) + ":" + Pad2(zero) + ":" + Pad2(zero);
    assert ['0', '0'] + ":" + ['0', '0'] + ":" + ['0', '0'] == InitialStats.uptime;
  }

  lemma PadOneDigit(d: char)
    ensures PadStart([d], 2, '0') == ['0', d]
  {
    assert [ '0' ] + [d] == ['0', d];
  }

  /** A negative duration (the clock moved back) starts with a minus sign. */
  lemma NegativeUptime(ms: int)
    requires ms < 0
    ensures FormatUptime(ms)[0] == '-'
  {
    var hours := ((ms / 1000) / 60) / 60;
    assert hours < 0;
    assert |IntToRadix(hours, 10)| >= 2;
  }

  /** Whatever the duration, the three fields are separated by exactly two
      colons: no field contains one. */
  lemma UptimeColons(ms: int)
    ensures multiset(FormatUptime(ms))[':'] == 2
  {
    var seconds := ms / 1000;
    var minutes := seconds / 60;
    var hours := minutes / 60;
    NoColonInPad2(hours);
    NoColonInPad2(JsRem(minutes, 60));
    NoColonInPad2(JsRem(seconds, 60));
  }

  lemma NoColonInPad2(n: int)
    ensures multiset(Pad2(n))[':'] == 0
  {
    var digits := NatToRadix(if n < 0 then -n else n, 10);
    assert forall i :: 0 <= i < |digits| ==> IsDigitIn(digits[i], 10);
    assert ':' !in digits;
    var text := IntToRadix(n, 10);
    assert text == digits || text == "-" + digits;
    assert ':' !in text;
    PadStartKeepsOut(text, 2, '0', ':');
  }

  lemma PadStartKeepsOut(s: string, targetLength: nat, fill: char, c: char)
    requires c !in s && c != fill
    ensures c !in PadStart(s, targetLength, fill)
  {
    var r := PadStart(s, targetLength, fill);
    forall i | 0 <= i < |r| ensures r[i] != c {
      if i >= |r| - |s| {
        assert r[i] == r[|r| - |s|..][i - (|r| - |s|)];
      }
    }
  }

  // ---------------------------------------------------------------------
  // The two updates of fetchStats

  /** The update after a successful poll: the server's fields over the
      previous record, the rate computed from the previous count, and the
      count remembered for the next poll. */
  function Merge(prev: Stats, previousMessageCount: int, data: ServerStats): Stats
  {
    Stats(
      GetOr(data.activeUsers, prev.activeUsers),
      data.totalMessages,
      Max(0, data.totalMessages - previousMessageCount),
      GetOr(data.activeSessions, prev.activeSessions),
      GetOr(data.averageResponseTime, prev.averageResponseTime),
      GetOr(data.uptime, prev.uptime))
  }

  /** The simulated update when the poll throws: every field is replaced. */
  function Simulate(prev: Stats, d: Draws, elapsed: int): Stats
  {
    Stats(
      d.users + 25,
      prev.totalMessages + d.messages + 1,
      d.rate + 1,
      d.sessions + 5,
      d.responseTime + 20,
      FormatUptime(elapsed))
  }

  /** One run of `fetchStats` at clock reading `now`. */
  function FetchStats(p: Panel, o: FetchOutcome, now: int): Panel
  {
    match o
    case Fetched(data) => Panel(Merge(p.stats, p.previousMessageCount, data), data.totalMessages, p.startTime)
    case NotOk => p
    case Failed(d) => p.(stats := Simulate(p.stats, d, now - p.startTime))
  }

  /** After a successful poll the rate is the growth of the message count since
      the previous successful poll, or zero when it did not grow; the server's
      own rate is ignored; the new count is remembered; the server's other
      fields replace the old ones where sent. */
  lemma MergeStep(p: Panel, data: ServerStats, now: int, serverRate: int)
    ensures var q := FetchStats(p, Fetched(data), now);
      && q.stats.messagesPerSecond >= 0
      && (q.stats.messagesPerSecond > 0 <==> data.totalMessages > p.previousMessageCount)
      && (data.totalMessages >= p.previousMessageCount ==>
            q.stats.messagesPerSecond == data.totalMessages - p.previousMessageCount)
      && q.previousMessageCount == data.totalMessages == q.stats.totalMessages
      && q == FetchStats(p, Fetched(data.(messagesPerSecond := Some(serverRate))), now)
      && (data.activeUsers.Some? ==> q.stats.activeUsers == data.activeUsers.value)
      && (data.activeUsers.None? ==> q.stats.activeUsers == p.stats.activeUsers)
      && (data.activeSessions.Some? ==> q.stats.activeSessions == data.activeSessions.value)
      && (data.activeSessions.None? ==> q.stats.activeSessions == p.stats.activeSessions)
      && (data.averageResponseTime.Some? ==> q.stats.averageResponseTime == data.averageResponseTime.value)
      && (data.averageResponseTime.None? ==> q.stats.averageResponseTime == p.stats.averageResponseTime)
      && (data.uptime.Some? ==> q.stats.uptime == data.uptime.value)
      && (data.uptime.None? ==> q.stats.uptime == p.stats.uptime)
      && q.startTime == p.startTime
  {
  }

  /** The simulated update raises the message count by one to five, draws the
      other figures from their fixed ranges, shows the time since mounting,
      and leaves the remembered count alone. */
  lemma FallbackStep(p: Panel, d: Draws, now: int)
    requires ValidDraws(d)
    ensures var q := FetchStats(p, Failed(d), now);
      && p.stats.totalMessages + 1 <= q.stats.totalMessages <= p.stats.totalMessages + 5
      && 25 <= q.stats.activeUsers <= 74
      && 1 <= q.stats.messagesPerSecond <= 3
      && 5 <= q.stats.activeSessions <= 19
      && 20 <= q.stats.averageResponseTime <= 69
      && q.previousMessageCount == p.previousMessageCount
      && q.startTime == p.startTime
  {
  }

  /** The simulated update shows the whole seconds elapsed since the panel
      was mounted. */
  lemma FallbackUptime(prev: Stats, d: Draws, elapsed: int)
    requires elapsed >= 0
    ensures UptimeSeconds(Simulate(prev, d, elapsed).uptime) == elapsed / 1000
  {
    UptimeRoundTrip(elapsed);
  }

  // ---------------------------------------------------------------------
  // Runs of polls

  /** One poll and the clock reading it happens at. */
  datatype Tick = Tick(outcome: FetchOutcome, now: int)

  function Run(p: Panel, ticks: seq<Tick>): Panel
    decreases |ticks|
  {
    if ticks == [] then p else Run(FetchStats(p, ticks[0].outcome, ticks[0].now), ticks[1..])
  }

  /** The count remembered after a run is the count of the last successful
      poll, or the starting one if no poll succeeded. */
  function LastServerCount(start: int, ticks: seq<Tick>): int
    decreases |ticks|
  {
    if ticks == [] then start
    else if ticks[|ticks| - 1].outcome.Fetched? then ticks[|ticks| - 1].outcome.data.totalMessages
    else LastServerCount(start, ticks[..|ticks| - 1])
  }

  lemma {:induction false} RunRemembersLastServerCount(p: Panel, ticks: seq<Tick>)
    ensures Run(p, ticks).previousMessageCount == LastServerCount(p.previousMessageCount, ticks)
    ensures Run(p, ticks).startTime == p.startTime
    decreases |ticks|
  {
    if ticks != [] {
      var t := ticks[|ticks| - 1];
      var init := ticks[..|ticks| - 1];
      RunSnoc(p, init, t);
      assert init + [t] == ticks;
      RunRemembersLastServerCount(p, init);
    }
  }

  lemma {:induction false} RunSnoc(p: Panel, ticks: seq<Tick>, t: Tick)
    ensures Run(p, ticks + [t]) == FetchStats(Run(p, ticks), t.outcome, t.now)
    decreases |ticks|
  {
    if ticks != [] {
      assert (ticks + [t])[1..] == ticks[1..] + [t];
      RunSnoc(FetchStats(p, ticks[0].outcome, ticks[0].now), ticks[1..], t);
    }
  }

  predicate AllFailed(ticks: seq<Tick>)
  {
    forall i :: 0 <= i < |ticks| ==> ticks[i].outcome.Failed? && ValidDraws(ticks[i].outcome.draws)
  }

  /** While the server stays unreachable, `n` polls raise the message count by
      at least `n` and at most `5 n`. */
  lemma {:induction false} FallbackRunGrows(p: Panel, ticks: seq<Tick>)
    requires AllFailed(ticks)
    ensures p.stats.totalMessages + |ticks| <= Run(p, ticks).stats.totalMessages <= p.stats.totalMessages + 5 * |ticks|
    decreases |ticks|
  {
    if ticks != [] {
      var q := FetchStats(p, ticks[0].outcome, ticks[0].now);
      FallbackStep(p, ticks[0].outcome.draws, ticks[0].now);
      assert AllFailed(ticks[1..]) by {
        forall i | 0 <= i < |ticks[1..]| ensures ticks[1..][i] == ticks[i + 1] { }
      }
      FallbackRunGrows(q, ticks[1..]);
    }
  }

  /** The rates shown after each successful poll of a run. */
  function Rates(p: Panel, datas: seq<ServerStats>): seq<int>
    decreases |datas|
  {
    if datas == [] then []
    else
      var q := FetchStats(p, Fetched(datas[0]), 0);
      [q.stats.messagesPerSecond] + Rates(q, datas[1..])
  }

  function Sum(xs: seq<int>): int
    decreases |xs|
  {
    if xs == [] then 0 else xs[0] + Sum(xs[1..])
  }

  predicate CountsNonDecreasing(start: int, datas: seq<ServerStats>)
  {
    (|datas| > 0 ==> start <= datas[0].totalMessages) &&
    forall i :: 0 < i < |datas| ==> datas[i - 1].totalMessages <= datas[i].totalMessages
  }

  /** Over successful polls whose counts never fall, the rates shown add up to
      the growth of the count since the remembered one. */
  lemma {:induction false} RatesTelescope(p: Panel, datas: seq<ServerStats>)
    requires |datas| > 0 && CountsNonDecreasing(p.previousMessageCount, datas)
    ensures Sum(Rates(p, datas)) == datas[|datas| - 1].totalMessages - p.previousMessageCount
    decreases |datas|
  {
    var q := FetchStats(p, Fetched(datas[0]), 0);
    if |datas| > 1 {
      assert CountsNonDecreasing(q.previousMessageCount, datas[1..]) by {
        forall i | 0 < i < |datas[1..]|
          ensures datas[1..][i - 1].totalMessages <= datas[1..][i].totalMessages
        {
          assert datas[1..][i - 1] == datas[i] && datas[1..][i] == datas[i + 1];
        }
      }
      RatesTelescope(q, datas[1..]);
    }
  }
}
