/** The cron scheduler (internal/cron/cron.go): the arithmetic of the next run and the tick
    that submits due jobs. Times are wall-clock nanoseconds of one fixed offset. */
module CronSchedules {
  import opened Jobs
  import opened Text
  import opened Retry

  function Truncate(t: Time): Time { t - t % MINUTE }

  /** The first multiple of the interval after a minute. */
  function NextMultiple(interval: int, minute: int): int
    requires interval > 0
  {
    (minute / interval + 1) * interval
  }

  /** The "every n minutes" rule, counted from the top of the hour. */
  function Aligned(interval: int, fromMin: Time): Time
    requires interval > 0
  {
    var currentMin := fromMin / MINUTE % 60;
    var hour := fromMin - currentMin * MINUTE;
    var nextMin := NextMultiple(interval, currentMin);
    if nextMin >= 60 then hour + 60 * MINUTE else hour + nextMin * MINUTE
  }

  /** The interval a schedule means, in minutes; None if it is not supported. Whatever follows
      the first of five fields is ignored. */
  function Interval(schedule: string): (r: Option<int>)
    ensures r.Some? ==> r.value > 0
  {
    var s := TrimSpace(schedule);
    if s == "* * * * *" then Some(1)
    else if HasPrefix(s, "*/") then
      var fields := Fields(s);
      if |fields| == 5 then Positive(TrimPrefix(fields[0], "*/")) else None
    else None
  }

  function Positive(s: string): (r: Option<int>)
    ensures r.Some? ==> r.value > 0
  {
    match Atoi(s)
    case None => None
    case Some(n) => if n > 0 then Some(n) else None
  }

  /** None is the zero time of an unsupported schedule. */
  function NextRun(schedule: string, from: Time): Option<Time> {
    match Interval(schedule)
    case None => None
    case Some(n) => Some(Aligned(n, Truncate(from)))
  }

  // ---------- next run is the least slot ----------

  /** A full minute whose minute of the hour is a multiple of n. */
  predicate IsSlot(n: int, t: Time)
    requires n > 0
  {
    t % 60_000_000_000 == 0 && t / 60_000_000_000 % 60 % n == 0
  }

  lemma MulSign(d: int, n: int)
    requires n > 0
    ensures d >= 1 ==> d * n >= n
    ensures d <= -1 ==> d * n <= -n
  {
  }

  lemma DivisionIsUnique(x: int, n: int, q: int, r: int)
    requires n > 0 && 0 <= r < n && x == q * n + r
    ensures x / n == q && x % n == r
  {
    var d := q - x / n;
    MulSign(d, n);
    assert d * n == q * n - x / n * n;
    assert x == x / n * n + x % n;
  }

  lemma NextMultipleIsFirst(n: int, cur: int)
    requires n > 0
    ensures cur < NextMultiple(n, cur) && NextMultiple(n, cur) % n == 0
    ensures forall x :: cur < x < NextMultiple(n, cur) ==> x % n != 0
  {
    var q := cur / n;
    assert cur == q * n + cur % n;
    assert NextMultiple(n, cur) == q * n + n;
    DivisionIsUnique(NextMultiple(n, cur), n, q + 1, 0);
    forall x | cur < x < NextMultiple(n, cur)
      ensures x % n != 0
    {
      var d := x / n - q;
      MulSign(d, n);
      assert d * n == x / n * n - q * n;
      assert x == x / n * n + x % n;
    }
  }

  lemma SameHour(m: int, u: int)
    requires m - m % 60 <= u < m - m % 60 + 60
    ensures u % 60 == u - (m - m % 60)
  {
    assert m == m / 60 * 60 + m % 60;
    DivisionIsUnique(u, 60, m / 60, u - (m - m % 60));
  }

  lemma NextHour(m: int)
    ensures (m - m % 60 + 60) % 60 == 0
  {
    DivisionIsUnique(m - m % 60 + 60, 60, m / 60 + 1, 0);
  }

  /** The minute the rule picks: the first multiple after the current minute of the hour, or
      the next hour. */
  function AlignedMinute(n: int, m: int): int
    requires n > 0
  {
    m - m % 60 + if NextMultiple(n, m % 60) >= 60 then 60 else NextMultiple(n, m % 60)
  }

  lemma AlignedMinuteIsFirst(n: int, m: int)
    requires n > 0
    ensures var t := AlignedMinute(n, m);
            && m < t && t % 60 % n == 0
            && forall u :: m < u < t ==> u % 60 % n != 0
  {
    var t := AlignedMinute(n, m);
    NextMultipleIsFirst(n, m % 60);
    if NextMultiple(n, m % 60) >= 60 {
      NextHour(m);
      DivisionIsUnique(0, n, 0, 0);
    } else {
      SameHour(m, t);
    }
    forall u | m < u < t
      ensures u % 60 % n != 0
    {
      SameHour(m, u);
    }
  }

  lemma TruncateIsMinute(from: Time)
    ensures Truncate(from) == from / MINUTE * MINUTE && Truncate(from) / MINUTE == from / MINUTE
  {
    DivisionIsUnique(Truncate(from), MINUTE, from / MINUTE, 0);
  }

  lemma AlignedInMinutes(n: int, from: Time)
    requires n > 0
    ensures var t := Aligned(n, Truncate(from));
            t % MINUTE == 0 && t / MINUTE == AlignedMinute(n, from / MINUTE)
  {
    var t := Aligned(n, Truncate(from));
    TruncateIsMinute(from);
    assert t == AlignedMinute(n, from / MINUTE) * MINUTE;
    DivisionIsUnique(t, MINUTE, AlignedMinute(n, from / MINUTE), 0);
  }

  lemma FullMinutesCompare(t: Time, u: Time)
    requires t % MINUTE == 0 && u % MINUTE == 0
    ensures t <= u <==> t / MINUTE <= u / MINUTE
  {
  }

  lemma AfterMeansLaterMinute(from: Time, u: Time)
    requires u % MINUTE == 0
    ensures from < u <==> from / MINUTE < u / MINUTE
  {
  }

  /** The rule gives the least slot after `from`, for every n, sixty and above included. */
  lemma AlignedIsLeastSlot(n: int, from: Time)
    requires n > 0
    ensures var t := Aligned(n, Truncate(from));
            && from < t && IsSlot(n, t)
            && forall u :: IsSlot(n, u) && from < u ==> t <= u
  {
    var t := Aligned(n, Truncate(from));
    AlignedInMinutes(n, from);
    AlignedMinuteIsFirst(n, from / MINUTE);
    AfterMeansLaterMinute(from, t);
    forall u | IsSlot(n, u) && from < u
      ensures t <= u
    {
      AfterMeansLaterMinute(from, u);
      FullMinutesCompare(t, u);
    }
  }

  /** The rule for five stars, the next full minute, is the one for an interval of one. */
  lemma EveryMinuteAligns(from: Time)
    ensures Aligned(1, Truncate(from)) == Truncate(from) + MINUTE
  {
    TruncateIsMinute(from);
  }

  /** The text of a schedule whose first field is "*" "/" and d. */
  function Every(d: string, others: seq<string>): string {
    Join([['*', '/'] + d] + others)
  }

  lemma EveryStarts(d: string, others: seq<string>)
    requires others != []
    ensures Every(d, others) == ['*', '/'] + d + " " + Join(others)
    ensures HasPrefix(Every(d, others), "*/") && Every(d, others) != "* * * * *"
  {
    var ws := [['*', '/'] + d] + others;
    assert ws[0] == ['*', '/'] + d && ws[1..] == others;
    var s := Every(d, others);
    assert s[0] == '*' && s[1] == '/';
  }

  lemma IntervalOfFields(s: string)
    requires Tight(s) && HasPrefix(s, "*/") && s != "* * * * *" && |Fields(s)| == 5
    ensures Interval(s) == Positive(TrimPrefix(Fields(s)[0], "*/"))
  {
    TrimKeeps(s);
  }

  /** A schedule of five fields acts through the number in its first one alone. */
  lemma FiveFields(d: string, others: seq<string>)
    requires IsWord(['*', '/'] + d) && |others| == 4 && forall i :: 0 <= i < 4 ==> IsWord(others[i])
    ensures Interval(Every(d, others)) == Positive(d)
  {
    var ws := [['*', '/'] + d] + others;
    assert ws[0] == ['*', '/'] + d;
    FieldsOfJoin(ws);
    EveryStarts(d, others);
    IntervalOfFields(Every(d, others));
    assert TrimPrefix(ws[0], "*/") == d by {
      assert ws[0][2..] == d;
    }
  }

  lemma ItoaIsWord(n: int)
    requires n > 0
    ensures IsWord(['*', '/'] + Itoa(n))
  {
    DigitsParse(n);
    var w := ['*', '/'] + Itoa(n);
    forall i | 0 <= i < |w|
      ensures !IsSpace(w[i])
    {
      if i >= 2 {
        assert w[i] == Digits(n)[i - 2];
        assert IsDigit(Digits(n)[i - 2]);
      }
    }
  }

  /** Every interval can be written, whatever the other four fields. */
  lemma EveryMinutesParses(n: int, others: seq<string>)
    requires 0 < n <= MAX_INT64 && |others| == 4 && forall i :: 0 <= i < 4 ==> IsWord(others[i])
    ensures Interval(Every(Itoa(n), others)) == Some(n)
  {
    ItoaIsWord(n);
    ItoaRoundTrip(n);
    FiveFields(Itoa(n), others);
  }

  /** "* * * * *" runs at the next full minute, as an interval of one minute does. */
  lemma EveryMinuteIsIntervalOne(n: int, others: seq<string>, from: Time)
    requires n == 1 && |others| == 4 && forall i :: 0 <= i < 4 ==> IsWord(others[i])
    ensures NextRun("* * * * *", from) == Some(Truncate(from) + MINUTE) == NextRun(Every(Itoa(n), others), from)
  {
    TrimKeeps("* * * * *");
    EveryMinuteAligns(from);
    EveryMinutesParses(n, others);
  }

  /** Five fields, the first of them "*" "/" and d. */
  predicate FirstOfFive(schedule: string, d: string) {
    |Fields(schedule)| == 5 && Fields(schedule)[0] == ['*', '/'] + d
  }

  lemma FirstFieldStarts(s: string)
    requires Tight(s)
    ensures HasPrefix(s, "*/") <==> |Fields(s)| > 0 && HasPrefix(Fields(s)[0], "*/")
  {
    FirstField(s);
    if HasPrefix(s, "*/") {
      assert s[0] == '*' && s[1] == '/';
    }
  }

  lemma FiveStarsField(s: string, d: string)
    requires s == "* * * * *"
    ensures Tight(s) && !FirstOfFive(s, d)
  {
    FirstField(s);
    assert IsSpace(s[1]);
  }

  lemma IntervalOfTight(s: string, n: int)
    requires Tight(s) && s != "* * * * *"
    ensures Interval(s) == Some(n) <==> exists d :: FirstOfFive(s, d) && Atoi(d) == Some(n) && n > 0
  {
    TrimKeeps(s);
    FirstFieldStarts(s);
    if HasPrefix(s, "*/") && |Fields(s)| == 5 {
      var d := TrimPrefix(Fields(s)[0], "*/");
      assert Fields(s)[0] == ['*', '/'] + d;
      assert forall e :: Fields(s)[0] == ['*', '/'] + e ==> Fields(s)[0][2..] == e;
    } else {
      forall e
        ensures FirstOfFive(s, e) ==> HasPrefix(Fields(s)[0], "*/")
      {
      }
    }
  }

  lemma TrimTwice(s: string)
    ensures TrimSpace(TrimSpace(s)) == TrimSpace(s)
  {
    var a, b := TrimSpaceSplits(s);
    if TrimSpace(s) != [] {
      TrimKeeps(TrimSpace(s));
    }
  }

  /** What is accepted: a schedule means n minutes exactly if, trimmed, it is five stars and n
      is one, or it has five fields of which the first is "*" "/" and the positive number n.
      Every other text has no next run. */
  lemma IntervalIff(schedule: string, n: int)
    ensures Interval(schedule) == Some(n) <==>
            || (TrimSpace(schedule) == "* * * * *" && n == 1)
            || exists d :: FirstOfFive(schedule, d) && Atoi(d) == Some(n) && n > 0
  {
    var t := TrimSpace(schedule);
    FieldsOfTrimmed(schedule);
    TrimTwice(schedule);
    assert Interval(schedule) == Interval(t);
    var a, b := TrimSpaceSplits(schedule);
    if t == "* * * * *" {
      forall d
        ensures !FirstOfFive(schedule, d)
      {
        FiveStarsField(t, d);
      }
    } else if t != [] {
      IntervalOfTight(t, n);
    }
  }

  /** A daily schedule, for one, is refused. */
  lemma DailyIsRefused(s: string, from: Time)
    requires s == "0 9 * * *"
    ensures NextRun(s, from) == None
  {
    TrimKeeps(s);
  }

  /** Every supported schedule runs next at the least slot of its interval after `from`. */
  lemma NextRunIsLeastSlot(schedule: string, from: Time)
    ensures NextRun(schedule, from).Some? <==> Interval(schedule).Some?
    ensures NextRun(schedule, from).Some? ==>
              var t, n := NextRun(schedule, from).value, Interval(schedule).value;
              && from < t && IsSlot(n, t)
              && forall u :: IsSlot(n, u) && from < u ==> t <= u
  {
    if Interval(schedule).Some? {
      AlignedIsLeastSlot(Interval(schedule).value, from);
    }
  }

  // ---------- ticks ----------

  /** One submission: the slot it stands for and the tick that made it. */
  datatype Submission = Submission(slot: Time, at: Time)

  /** The next run of a job after some ticks, one slot per tick at most; `after` is its
      next-run rule. */
  function NextAfter(after: Time -> Time, first: Time, ticks: seq<Time>): Time
    decreases |ticks|
  {
    if ticks == [] then first
    else
      var next := NextAfter(after, first, ticks[..|ticks| - 1]);
      if ticks[|ticks| - 1] < next then next else after(next)
  }

  function Submissions(after: Time -> Time, first: Time, ticks: seq<Time>): seq<Submission>
    decreases |ticks|
  {
    if ticks == [] then []
    else
      var front, now := ticks[..|ticks| - 1], ticks[|ticks| - 1];
      var next := NextAfter(after, first, front);
      Submissions(after, first, front) + if now < next then [] else [Submission(next, now)]
  }

  /** The rule finds, after any time, the least slot. */
  ghost predicate FindsLeast(after: Time -> Time, slot: Time -> bool) {
    forall t :: t < after(t) && slot(after(t)) && forall u :: slot(u) && t < u ==> after(t) <= u
  }

  /** The submissions are, in order and once each, the slots from the first one up to the
      next run still due, none of them early. */
  ghost predicate CoversSlots(slot: Time -> bool, first: Time, subs: seq<Submission>, next: Time) {
    && slot(next) && first <= next
    && (forall i :: 0 <= i < |subs| ==> slot(subs[i].slot) && first <= subs[i].slot <= subs[i].at && subs[i].slot < next)
    && (forall i, j :: 0 <= i < j < |subs| ==> subs[i].slot < subs[j].slot)
    && (forall u :: slot(u) && first <= u < next ==> exists i :: 0 <= i < |subs| && subs[i].slot == u)
  }

  lemma OneMoreSlot(slot: Time -> bool, first: Time, subs: seq<Submission>, next: Time, now: Time, next': Time)
    requires CoversSlots(slot, first, subs, next) && next <= now
    requires next < next' && slot(next') && forall u :: slot(u) && next < u ==> next' <= u
    ensures CoversSlots(slot, first, subs + [Submission(next, now)], next')
  {
    var more := subs + [Submission(next, now)];
    assert more[|subs|].slot == next;
    forall u | slot(u) && first <= u < next'
      ensures exists i :: 0 <= i < |more| && more[i].slot == u
    {
      if u < next {
        var i :| 0 <= i < |subs| && subs[i].slot == u;
        assert more[i].slot == u;
      } else {
        assert more[|subs|].slot == u;
      }
    }
  }

  lemma {:induction false} TicksCoverSlots(after: Time -> Time, slot: Time -> bool, first: Time, ticks: seq<Time>)
    requires FindsLeast(after, slot) && slot(first)
    ensures CoversSlots(slot, first, Submissions(after, first, ticks), NextAfter(after, first, ticks))
    decreases |ticks|
  {
    if ticks != [] {
      var front, now := ticks[..|ticks| - 1], ticks[|ticks| - 1];
      TicksCoverSlots(after, slot, first, front);
      var next := NextAfter(after, first, front);
      if now < next {
        assert Submissions(after, first, ticks) == Submissions(after, first, front);
      } else {
        OneMoreSlot(slot, first, Submissions(after, first, front), next, now, after(next));
      }
    }
  }

  // ---------- the table of cron jobs ----------

  datatype CronJob = CronJob(schedule: string, kind: string, priority: int, nextRun: Time)

  type Table = map<string, CronJob>

  /** Refuses blank ids and types, negative priorities, unsupported schedules and taken ids. */
  predicate CanAdd(jobs: Table, id: string, c: CronJob, now: Time) {
    && TrimSpace(id) != "" && TrimSpace(c.kind) != "" && c.priority >= 0
    && NextRun(c.schedule, now).Some? && id !in jobs
  }

  /** A job is accepted exactly if neither its id nor its type is blank, its priority is not
      negative, its schedule is supported and its id is free. */
  lemma CanAddIff(jobs: Table, id: string, c: CronJob, now: Time)
    ensures CanAdd(jobs, id, c, now) <==>
            !AllSpace(id) && !AllSpace(c.kind) && 0 <= c.priority && Interval(c.schedule).Some? && id !in jobs
  {
    BlankIff(id);
    BlankIff(c.kind);
  }

  function Added(jobs: Table, id: string, c: CronJob, now: Time): Table {
    if CanAdd(jobs, id, c, now) then jobs[id := c.(nextRun := NextRun(c.schedule, now).value)] else jobs
  }

  /** What one tick does to one job. */
  function Ticked(c: CronJob, now: Time): CronJob {
    if now < c.nextRun then c
    else c.(nextRun := match NextRun(c.schedule, c.nextRun) case None => 0 case Some(t) => t)
  }

  /** A due job of an unsupported schedule falls back to the zero time and stays due. */
  lemma UnsupportedStaysDue(c: CronJob, now: Time)
    requires Interval(c.schedule) == None && c.nextRun <= now
    ensures Ticked(c, now) == c.(nextRun := 0)
  {
  }

  /** The jobs a tick hands out for submission. */
  function DueAt(jobs: Table, now: Time): set<string> {
    set id | id in jobs && !(now < jobs[id].nextRun)
  }

  datatype Event = Adds(id: string, c: CronJob, now: Time) | Removes(id: string) | Ticks(now: Time)

  function Next(jobs: Table, e: Event): Table {
    match e
    case Adds(id, c, now) => Added(jobs, id, c, now)
    case Removes(id) => jobs - {id}
    case Ticks(now) => map id | id in jobs :: Ticked(jobs[id], now)
  }

  function Run(jobs: Table, es: seq<Event>): Table
    decreases |es|
  {
    if es == [] then jobs else Next(Run(jobs, es[..|es| - 1]), es[|es| - 1])
  }

  /** No such job ever gets into the table. */
  lemma {:induction false} TableIsSupported(es: seq<Event>, id: string)
    ensures id in Run(map[], es) ==> Interval(Run(map[], es)[id].schedule).Some?
    decreases |es|
  {
    if es != [] {
      TableIsSupported(es[..|es| - 1], id);
    }
  }

  /** The submissions of one job that the ticks of a run hand out. */
  function HandedOut(jobs: Table, es: seq<Event>, id: string): seq<Submission>
    decreases |es|
  {
    if es == [] then []
    else
      var front, e := es[..|es| - 1], es[|es| - 1];
      var before := Run(jobs, front);
      HandedOut(jobs, front, id) +
      if e.Ticks? && id in DueAt(before, e.now) then [Submission(before[id].nextRun, e.now)] else []
  }

  function TickTimes(es: seq<Event>): seq<Time>
    decreases |es|
  {
    if es == [] then []
    else TickTimes(es[..|es| - 1]) + if es[|es| - 1].Ticks? then [es[|es| - 1].now] else []
  }

  /** The next run of a schedule after any time. */
  ghost predicate Follows(schedule: string, after: Time -> Time) {
    forall t :: NextRun(schedule, t) == Some(after(t))
  }

  lemma OthersSpare(jobs: Table, e: Event, id: string)
    requires id in jobs && !e.Ticks? && e != Removes(id)
    ensures id in Next(jobs, e) && Next(jobs, e)[id] == jobs[id]
  {
  }

  lemma {:induction false} OneMoreTick(after: Time -> Time, first: Time, ticks: seq<Time>, now: Time)
    ensures var next := NextAfter(after, first, ticks);
            && NextAfter(after, first, ticks + [now]) == (if now < next then next else after(next))
            && Submissions(after, first, ticks + [now]) ==
               Submissions(after, first, ticks) + if now < next then [] else [Submission(next, now)]
  {
    assert (ticks + [now])[..|ticks + [now]| - 1] == ticks;
  }

  /** The job is where the rule takes it and was handed out as the rule says. */
  ghost predicate OnTrack(c: CronJob, after: Time -> Time, ticks: seq<Time>, c': CronJob, subs: seq<Submission>) {
    c' == c.(nextRun := NextAfter(after, c.nextRun, ticks)) && subs == Submissions(after, c.nextRun, ticks)
  }

  lemma TickStaysOnTrack(c: CronJob, after: Time -> Time, ticks: seq<Time>, c': CronJob, subs: seq<Submission>, now: Time)
    requires Follows(c.schedule, after) && OnTrack(c, after, ticks, c', subs)
    ensures OnTrack(c, after, ticks + [now], Ticked(c', now),
                    subs + if now < c'.nextRun then [] else [Submission(c'.nextRun, now)])
  {
    OneMoreTick(after, c.nextRun, ticks, now);
    assert NextRun(c'.schedule, c'.nextRun) == Some(after(c'.nextRun));
  }

  /** Whatever is added, removed and ticked around it, a job that stays goes through exactly
      the next runs of its rule and is handed out exactly for the submissions of that rule. */
  lemma {:induction false} RunStaysOnTrack(jobs: Table, es: seq<Event>, id: string, after: Time -> Time)
    requires id in jobs && Follows(jobs[id].schedule, after) && Removes(id) !in es
    ensures id in Run(jobs, es)
    ensures OnTrack(jobs[id], after, TickTimes(es), Run(jobs, es)[id], HandedOut(jobs, es, id))
    decreases |es|
  {
    if es != [] {
      var front, e := es[..|es| - 1], es[|es| - 1];
      RunStaysOnTrack(jobs, front, id, after);
      if e.Ticks? {
        TickStaysOnTrack(jobs[id], after, TickTimes(front), Run(jobs, front)[id], HandedOut(jobs, front, id), e.now);
        TickStep(jobs, es, id);
      } else {
        OtherStep(jobs, es, id);
      }
    }
  }

  lemma OtherStep(jobs: Table, es: seq<Event>, id: string)
    requires es != [] && !es[|es| - 1].Ticks? && es[|es| - 1] != Removes(id) && id in Run(jobs, es[..|es| - 1])
    ensures id in Run(jobs, es) && Run(jobs, es)[id] == Run(jobs, es[..|es| - 1])[id]
    ensures HandedOut(jobs, es, id) == HandedOut(jobs, es[..|es| - 1], id)
    ensures TickTimes(es) == TickTimes(es[..|es| - 1])
  {
    OthersSpare(Run(jobs, es[..|es| - 1]), es[|es| - 1], id);
  }

  lemma TickStep(jobs: Table, es: seq<Event>, id: string)
    requires es != [] && es[|es| - 1].Ticks? && id in Run(jobs, es[..|es| - 1])
    ensures var before, now := Run(jobs, es[..|es| - 1]), es[|es| - 1].now;
            && id in Run(jobs, es) && Run(jobs, es)[id] == Ticked(before[id], now)
            && HandedOut(jobs, es, id) == HandedOut(jobs, es[..|es| - 1], id) +
                 (if now < before[id].nextRun then [] else [Submission(before[id].nextRun, now)])
            && TickTimes(es) == TickTimes(es[..|es| - 1]) + [now]
  {
  }

  lemma ScheduleFindsSlots(schedule: string, after: Time -> Time, slot: Time -> bool)
    requires Interval(schedule).Some? && Follows(schedule, after)
    requires forall t :: slot(t) <==> IsSlot(Interval(schedule).value, t)
    ensures FindsLeast(after, slot)
  {
    forall t
      ensures t < after(t) && slot(after(t)) && forall u :: slot(u) && t < u ==> after(t) <= u
    {
      NextRunIsLeastSlot(schedule, t);
    }
  }

  /** Cron visits every slot exactly once. Once a job is accepted, over any ticks, however late
      or irregular, and any other additions and removals, the ticks hand it out once for each
      slot after its addition up to its next run, in order, never early and none skipped. */
  lemma EverySlotOnce(jobs: Table, id: string, c: CronJob, now: Time, es: seq<Event>, slot: Time -> bool)
    requires CanAdd(jobs, id, c, now) && Removes(id) !in es
    requires Interval(c.schedule).Some? ==> forall t :: slot(t) <==> IsSlot(Interval(c.schedule).value, t)
    ensures var added := Added(jobs, id, c, now);
            && now < added[id].nextRun && id in Run(added, es)
            && Run(added, es)[id] == c.(nextRun := Run(added, es)[id].nextRun)
            && (forall u :: slot(u) && now < u ==> added[id].nextRun <= u)
            && CoversSlots(slot, added[id].nextRun, HandedOut(added, es, id), Run(added, es)[id].nextRun)
  {
    var added := Added(jobs, id, c, now);
    NextRunIsLeastSlot(c.schedule, now);
    var n := Interval(c.schedule).value;
    var after := (t: Time) => Aligned(n, Truncate(t));
    ScheduleFindsSlots(c.schedule, after, slot);
    RunStaysOnTrack(added, es, id, after);
    TicksCoverSlots(after, slot, added[id].nextRun, TickTimes(es));
  }

  // ---------- the object ----------

  class CronScheduler {
    var jobs: Table

    constructor ()
      ensures jobs == map[]
    {
      jobs := map[];
    }

    method Add(id: string, c: CronJob, now: Time) returns (ok: bool)
      modifies this
      ensures ok <==> CanAdd(old(jobs), id, c, now)
      ensures jobs == Next(old(jobs), Adds(id, c, now))
    {
      if TrimSpace(id) == "" || TrimSpace(c.kind) == "" || c.priority < 0 {
        return false;
      }
      var next := NextRun(c.schedule, now);
      if next.None? || id in jobs {
        return false;
      }
      jobs := jobs[id := c.(nextRun := next.value)];
      return true;
    }

    method Remove(id: string)
      modifies this
      ensures jobs == Next(old(jobs), Removes(id)) == old(jobs) - {id}
    {
      jobs := jobs - {id};
    }

    /** One tick: every due job moves on by one slot and is handed out once for submission. */
    method Tick(now: Time) returns (due: seq<CronJob>, ghost dueIds: seq<string>)
      modifies this
      ensures jobs == Next(old(jobs), Ticks(now))
      ensures |due| == |dueIds|
      ensures forall i :: 0 <= i < |due| ==> dueIds[i] in jobs && due[i] == jobs[dueIds[i]]
      ensures forall id :: id in dueIds <==> id in DueAt(old(jobs), now)
      ensures forall i, j :: 0 <= i < j < |dueIds| ==> dueIds[i] != dueIds[j]
    {
      due, dueIds := [], [];
      var rest: set<string> := jobs.Keys;
      while rest != {}
        invariant rest <= old(jobs).Keys && jobs.Keys == old(jobs).Keys
        invariant forall id :: id in jobs ==> jobs[id] == if id in rest then old(jobs)[id] else Ticked(old(jobs)[id], now)
        invariant |due| == |dueIds|
        invariant forall i :: 0 <= i < |due| ==> dueIds[i] in jobs && dueIds[i] !in rest && due[i] == jobs[dueIds[i]]
        invariant forall id :: id in dueIds <==> id in DueAt(old(jobs), now) && id !in rest
        invariant forall i, j :: 0 <= i < j < |dueIds| ==> dueIds[i] != dueIds[j]
        decreases rest
      {
        var id := NextKey(rest);
        if !(now < jobs[id].nextRun) {
          var moved := Ticked(jobs[id], now);
          jobs := jobs[id := moved];
          due, dueIds := due + [moved], dueIds + [id];
        }
        rest := rest - {id};
      }
    }
  }
}
