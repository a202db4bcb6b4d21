/// The utility thread's timers, the certificate checks they run, and the certificates those sign.
module CertTimers {
  import opened Common

  /// Nanoseconds.
  type Time = int

  const SECOND := 1_000_000_000
  const MINUTE := 60 * SECOND
  const DAY := 86_400 * SECOND
  const CERTIFICATE_EXPIRY_CHECK_INTERVAL := 86_400
  const SELF_SIGNED_REFRESH_THRESHOLD := 14 * DAY
  const NOT_BEFORE_OFFSET := 5 * MINUTE
  const WEB_HTTPS_CERT_VALIDITY_DAYS := 100

  // ---------------------------------------------------------------------------------------------
  // A job of the polling loop
  // ---------------------------------------------------------------------------------------------

  /// One evaluation of a job's condition, and when the job would be done if it ran then.
  datatype Poll = Poll(at: Time, done: Time)

  /// Polls follow one another, and none starts before the previous one is done.
  predicate Timed(started: Time, polls: seq<Poll>) {
    && (forall i :: 0 <= i < |polls| ==> started <= polls[i].at <= polls[i].done)
    && (forall i, j :: 0 <= i < j < |polls| ==> polls[i].done <= polls[j].at)
  }

  /// `elapsed().as_secs() >= interval`.
  predicate Due(last: Time, at: Time, interval: nat)
    requires last <= at
  {
    (at - last) / SECOND >= interval
  }

  /// When the job was last done, going by the polls at which it ran.
  function LastDone(started: Time, polls: seq<Poll>, runs: seq<nat>): Time
    requires forall k :: 0 <= k < |runs| ==> runs[k] < |polls|
  {
    if runs == [] then started else polls[runs[|runs| - 1]].done
  }

  /// The polls at which a job runs: those at which its interval has passed since it was last done.
  function RunsAmong(started: Time, interval: nat, polls: seq<Poll>): (runs: seq<nat>)
    ensures forall k :: 0 <= k < |runs| ==> runs[k] < |polls|
  {
    if polls == [] then []
    else
      var n := |polls| - 1;
      var runs := RunsAmong(started, interval, polls[..n]);
      if polls[n].at - LastDone(started, polls, runs) >= interval * SECOND then runs + [n] else runs
  }

  lemma OneMorePoll(started: Time, interval: nat, polls: seq<Poll>, i: nat)
    requires i < |polls|
    ensures var runs := RunsAmong(started, interval, polls[..i]);
            var due := polls[i].at - LastDone(started, polls, runs) >= interval * SECOND;
            RunsAmong(started, interval, polls[..i + 1]) == runs + if due then [i] else []
  {
    var runs := RunsAmong(started, interval, polls[..i]);
    assert polls[..i + 1][..i] == polls[..i] && polls[..i + 1][i] == polls[i];
    assert LastDone(started, polls[..i + 1], runs) == LastDone(started, polls, runs);
  }

  /// Each of two runs in a row starts the interval after the other was done, the first the interval
  /// after the start and at the first poll for which that is so, and the last poll came before the
  /// interval was over, unless the job ran then.
  ghost predicate AllSpaced(started: Time, interval: nat, polls: seq<Poll>, runs: seq<nat>) {
    && (forall k :: 0 <= k < |runs| ==> runs[k] < |polls|)
    && (forall k :: 0 < k < |runs| ==> Spaced(polls, runs[k - 1], runs[k], interval))
    && (runs != [] ==> polls[runs[0]].at - started >= interval * SECOND)
    && (runs != [] && runs[0] > 0 ==> polls[runs[0] - 1].at - started < interval * SECOND)
    && (polls != [] && (runs != [] ==> runs[|runs| - 1] < |polls| - 1) ==>
          polls[|polls| - 1].at - LastDone(started, polls, runs) < interval * SECOND)
  }

  lemma SpacedLonger(started: Time, interval: nat, polls: seq<Poll>, runs: seq<nat>)
    requires polls != [] && AllSpaced(started, interval, polls[..|polls| - 1], runs)
    requires polls[|polls| - 1].at - LastDone(started, polls, runs) < interval * SECOND
    ensures AllSpaced(started, interval, polls, runs)
  {
    var init := polls[..|polls| - 1];
    forall k | 0 < k < |runs| ensures Spaced(polls, runs[k - 1], runs[k], interval) {
      assert Spaced(init, runs[k - 1], runs[k], interval);
    }
  }

  lemma SpacedOnce(started: Time, interval: nat, polls: seq<Poll>, runs: seq<nat>)
    requires interval > 0 && polls != [] && AllSpaced(started, interval, polls[..|polls| - 1], runs)
    requires Timed(started, polls) && polls[|polls| - 1].at - LastDone(started, polls, runs) >= interval * SECOND
    ensures AllSpaced(started, interval, polls, runs + [|polls| - 1])
  {
    var n := |polls| - 1;
    var init, runs' := polls[..n], runs + [n];
    forall k | 0 < k < |runs'| ensures Spaced(polls, runs'[k - 1], runs'[k], interval) {
      if k < |runs| {
        assert Spaced(init, runs[k - 1], runs[k], interval);
      } else {
        LastSpaced(started, interval, polls, runs);
      }
    }
  }

  lemma LastSpaced(started: Time, interval: nat, polls: seq<Poll>, runs: seq<nat>)
    requires interval > 0 && polls != [] && runs != [] && AllSpaced(started, interval, polls[..|polls| - 1], runs)
    requires Timed(started, polls) && polls[|polls| - 1].at - LastDone(started, polls, runs) >= interval * SECOND
    ensures Spaced(polls, runs[|runs| - 1], |polls| - 1, interval)
  {
  }

  lemma {:induction false} RunsAreSpaced(started: Time, interval: nat, polls: seq<Poll>)
    requires interval > 0 && Timed(started, polls)
    ensures AllSpaced(started, interval, polls, RunsAmong(started, interval, polls))
  {
    if polls != [] {
      hide AllSpaced;
      var n := |polls| - 1;
      var runs := RunsAmong(started, interval, polls[..n]);
      RunsAreSpaced(started, interval, polls[..n]);
      if polls[n].at - LastDone(started, polls, runs) >= interval * SECOND {
        SpacedOnce(started, interval, polls, runs);
      } else {
        SpacedLonger(started, interval, polls, runs);
      }
    }
  }

  /// Runs a job at the polls at which its interval has passed since it was last done. From one run
  /// to the next at least the interval passes, and less than the interval and one gap between polls.
  method PollLoop(started: Time, interval: nat, polls: seq<Poll>) returns (runs: seq<nat>)
    requires interval > 0 && Timed(started, polls)
    ensures runs == RunsAmong(started, interval, polls)
    ensures AllSpaced(started, interval, polls, runs)
  {
    runs := [];
    var last := started;
    for i := 0 to |polls|
      invariant runs == RunsAmong(started, interval, polls[..i])
      invariant last == LastDone(started, polls, runs)
      invariant i > 0 ==> last <= polls[i - 1].done
    {
      DueMeansInterval(last, polls[i].at, interval);
      OneMorePoll(started, interval, polls, i);
      if Due(last, polls[i].at, interval) {
        runs := runs + [i];
        last := polls[i].done;
      }
    }
    assert polls[..|polls|] == polls;
    RunsAreSpaced(started, interval, polls);
  }

  /// Two runs in a row: the second starts an interval after the first was done, and within the
  /// interval and the time since the poll before it.
  predicate Spaced(polls: seq<Poll>, i: nat, j: nat, interval: nat) {
    && i < j < |polls|
    && interval * SECOND <= polls[j].at - polls[i].done
    && polls[j].at - polls[i].done < interval * SECOND + (polls[j].at - polls[j - 1].at)
  }

  lemma DueMeansInterval(last: Time, at: Time, interval: nat)
    requires last <= at
    ensures Due(last, at, interval) <==> at - last >= interval * SECOND
  {
  }

  // ---------------------------------------------------------------------------------------------
  // Expiry mails
  // ---------------------------------------------------------------------------------------------

  /// `num_days`, which truncates toward zero.
  function NumDays(delta: Time): int {
    if delta >= 0 then delta / DAY else -(-delta / DAY)
  }

  const TIME_CHECK := [-14, -7, -3, -1, 0]

  datatype Mail = Expiring(to: string) | Expired(to: string)

  function MailsFor(days: int, admins: seq<string>): seq<Mail> {
    seq(|admins|, i requires 0 <= i < |admins| => if days >= 0 then Expired(admins[i]) else Expiring(admins[i]))
  }

  const DAY_LENGTH := 86_400_000_000_000

  /// Fourteen, seven, three or one whole days are left, and part of the next.
  predicate LeftToWarn(left: Time) {
    || 14 * DAY_LENGTH <= left < 15 * DAY_LENGTH
    || 7 * DAY_LENGTH <= left < 8 * DAY_LENGTH
    || 3 * DAY_LENGTH <= left < 4 * DAY_LENGTH
    || DAY_LENGTH <= left < 2 * DAY_LENGTH
  }

  /// Less than a day is left, or less than a day has passed since.
  predicate AboutNow(left: Time) {
    -DAY_LENGTH < left < DAY_LENGTH
  }

  lemma ListedDays(left: Time)
    ensures NumDays(-left) in TIME_CHECK <==> LeftToWarn(left) || AboutNow(left)
    ensures LeftToWarn(left) ==> NumDays(-left) < 0
    ensures AboutNow(left) ==> NumDays(-left) == 0
  {
    assert TIME_CHECK[0] == -14 && TIME_CHECK[1] == -7 && TIME_CHECK[2] == -3 && TIME_CHECK[3] == -1 && TIME_CHECK[4] == 0;
  }

  /// Mails every administrator if the number of days left is on the list; `admins` is the answer of
  /// the database, if it gives one.
  method ExpiryCheck(now: Time, expiry: Time, admins: Option<seq<string>>) returns (mails: seq<Mail>)
    ensures mails == if NumDays(now - expiry) in TIME_CHECK && admins.Some?
                     then MailsFor(NumDays(now - expiry), admins.value) else []
    ensures |mails| == if admins.Some? && (LeftToWarn(expiry - now) || AboutNow(expiry - now)) then |admins.value| else 0
    ensures forall i :: 0 <= i < |mails| ==>
              mails[i] == if AboutNow(expiry - now) then Expired(admins.value[i]) else Expiring(admins.value[i])
  {
    var days := NumDays(now - expiry);
    mails := [];
    for i := 0 to |TIME_CHECK|
      invariant mails == if days in TIME_CHECK[..i] && admins.Some? then MailsFor(days, admins.value) else []
    {
      if TIME_CHECK[i] == days {
        if admins.None? {
          return;
        }
        var sent: seq<Mail> := [];
        for k := 0 to |admins.value|
          invariant sent == MailsFor(days, admins.value)[..k]
        {
          sent := sent + [if days >= 0 then Expired(admins.value[k]) else Expiring(admins.value[k])];
        }
        mails := mails + sent;
      }
    }
    assert TIME_CHECK[..|TIME_CHECK|] == TIME_CHECK;
    ListedDays(expiry - now);
  }

  /// Checks that are at least a day apart.
  predicate DayApart(checks: seq<Time>) {
    forall i, j :: 0 <= i < j < |checks| ==> checks[j] - checks[i] >= (j - i) * DAY
  }

  /// A warning before the expiry fires at most once, and the one for day 0 at most twice.
  lemma WarnsOnce(checks: seq<Time>, expiry: Time, i: nat, j: nat)
    requires DayApart(checks) && i < j < |checks|
    ensures NumDays(checks[i] - expiry) < 0 ==> NumDays(checks[i] - expiry) != NumDays(checks[j] - expiry)
    ensures i + 1 < j ==> !(NumDays(checks[i] - expiry) == 0 && NumDays(checks[j] - expiry) == 0)
  {
    assert checks[j] - checks[i] >= (j - i) * DAY;
    assert (j - i) * DAY >= DAY;
    if i + 1 < j {
      assert (j - i) * DAY >= 2 * DAY;
    }
  }

  /// Consecutive checks are a day apart, because the clock of a check is read after it starts and
  /// before it is done.
  lemma {:induction false} PolledChecksAreDayApart(polls: seq<Poll>, runs: seq<nat>, checks: seq<Time>, i: nat, j: nat)
    requires |checks| == |runs| && i < j < |runs|
    requires forall k :: 0 <= k < |runs| ==> runs[k] < |polls| && polls[runs[k]].at <= checks[k] <= polls[runs[k]].done
    requires forall k :: 0 < k < |runs| ==> Spaced(polls, runs[k - 1], runs[k], CERTIFICATE_EXPIRY_CHECK_INTERVAL)
    ensures checks[j] - checks[i] >= (j - i) * DAY
  {
    assert Spaced(polls, runs[j - 1], runs[j], CERTIFICATE_EXPIRY_CHECK_INTERVAL);
    if i < j - 1 {
      PolledChecksAreDayApart(polls, runs, checks, i, j - 1);
    }
  }

  /// So the loop's checks send each warning once at most.
  lemma LoopWarnsOnce(polls: seq<Poll>, runs: seq<nat>, checks: seq<Time>, expiry: Time, i: nat, j: nat)
    requires |checks| == |runs| && i < j < |runs|
    requires forall k :: 0 <= k < |runs| ==> runs[k] < |polls| && polls[runs[k]].at <= checks[k] <= polls[runs[k]].done
    requires forall k :: 0 < k < |runs| ==> Spaced(polls, runs[k - 1], runs[k], CERTIFICATE_EXPIRY_CHECK_INTERVAL)
    ensures NumDays(checks[i] - expiry) < 0 ==> NumDays(checks[i] - expiry) != NumDays(checks[j] - expiry)
    ensures i + 1 < j ==> !(NumDays(checks[i] - expiry) == 0 && NumDays(checks[j] - expiry) == 0)
  {
    hide NumDays, Spaced;
    forall a, b | 0 <= a < b < |checks| ensures checks[b] - checks[a] >= (b - a) * DAY {
      PolledChecksAreDayApart(polls, runs, checks, a, b);
    }
    WarnsOnce(checks, expiry, i, j);
  }

  /// Day 0 covers a day on either side of the expiry, so it can fire twice.
  lemma DayZeroFiresTwice(expiry: Time)
    ensures var checks := [expiry - DAY / 2, expiry + DAY / 2];
            DayApart(checks) && NumDays(checks[0] - expiry) == 0 && NumDays(checks[1] - expiry) == 0
  {
  }

  /// Two checks can pass over a warning exactly when they are more than a day apart.
  lemma WarningSkippedExactly(gap: Time, days: int)
    requires days < 0 && gap >= 0
    ensures (exists now, expiry :: SkipsDay(now, gap, expiry, days)) <==> gap > DAY
  {
    if gap > DAY {
      var expiry := -days * DAY;
      assert SkipsDay(-DAY, gap, expiry, days) by {
        assert NumDays(-DAY - expiry) < days;
        assert NumDays(gap - DAY - expiry) > days;
      }
    }
    forall now, expiry | SkipsDay(now, gap, expiry, days) ensures gap > DAY {
    }
  }

  const POLL_GAP := 5 * SECOND

  /// Polls every five seconds, each done a nanosecond later.
  function RegularPolls(n: nat): (polls: seq<Poll>)
    ensures |polls| == n && forall i :: 0 <= i < n ==> polls[i] == Poll((i + 1) * POLL_GAP, (i + 1) * POLL_GAP + 1)
  {
    seq(n, i => Poll((i + 1) * POLL_GAP, (i + 1) * POLL_GAP + 1))
  }

  const CHECK_RUNS := [17_279, 34_560]

  /// The checks among the first n regular polls.
  function ChecksAmong(n: nat): seq<nat> {
    if n <= 17_279 then [] else if n <= 34_560 then [17_279] else CHECK_RUNS
  }

  lemma OneMoreCheck(n: nat)
    requires 0 < n <= 34_561
    ensures ChecksAmong(n) == ChecksAmong(n - 1) + if n == 17_280 || n == 34_561 then [n - 1] else []
  {
  }

  /// When each of the regular polls is due.
  lemma RegularDue(n: nat)
    requires 0 < n <= 34_561
    ensures var polls, runs := RegularPolls(n), ChecksAmong(n - 1);
            && (forall k :: 0 <= k < |runs| ==> runs[k] < n - 1)
            && (polls[n - 1].at - LastDone(0, polls, runs) >= CERTIFICATE_EXPIRY_CHECK_INTERVAL * SECOND
                <==> n == 17_280 || n == 34_561)
  {
  }

  lemma RegularPollsBefore(n: nat)
    requires n > 0
    ensures RegularPolls(n)[..n - 1] == RegularPolls(n - 1) && RegularPolls(n)[..n] == RegularPolls(n)
  {
  }

  lemma NoPolls(polls: seq<Poll>)
    requires polls == []
    ensures RunsAmong(0, CERTIFICATE_EXPIRY_CHECK_INTERVAL, polls) == ChecksAmong(0)
  {
  }

  lemma {:induction false} RegularRuns(n: nat)
    requires n <= 34_561
    ensures RunsAmong(0, CERTIFICATE_EXPIRY_CHECK_INTERVAL, RegularPolls(n)) == ChecksAmong(n)
  {
    hide LastDone, RunsAmong, ChecksAmong;
    if n == 0 {
      NoPolls(RegularPolls(0));
    } else {
      RegularRuns(n - 1);
      RegularDue(n);
      OneMoreCheck(n);
      RegularPollsBefore(n);
      var polls := RegularPolls(n);
      OneMorePoll(0, CERTIFICATE_EXPIRY_CHECK_INTERVAL, polls, n - 1);
      var runs := RunsAmong(0, CERTIFICATE_EXPIRY_CHECK_INTERVAL, polls[..n - 1]);
      assert runs == ChecksAmong(n - 1);
      assert polls[..n - 1 + 1] == polls;
    }
  }

  /// The loop allows that: with polls every five seconds the first two checks are a day and five
  /// seconds apart, and for some expiry the mail for seven days before it is skipped.
  lemma LoopSkipsWarning() returns (polls: seq<Poll>, runs: seq<nat>, expiry: Time)
    ensures Timed(0, polls) && runs == RunsAmong(0, CERTIFICATE_EXPIRY_CHECK_INTERVAL, polls) && |runs| == 2
    ensures polls[runs[1]].at - polls[runs[0]].at == DAY + POLL_GAP
    ensures SkipsDay(polls[runs[0]].at, polls[runs[1]].at - polls[runs[0]].at, expiry, -7)
  {
    hide RunsAmong, NumDays;
    polls, runs := RegularPolls(34_561), CHECK_RUNS;
    RegularRuns(34_561);
    expiry := 9 * DAY;
    assert polls[17_279].at == DAY && polls[34_560].at == 2 * DAY + POLL_GAP;
    SevenDaysSkipped();
  }

  lemma SevenDaysSkipped()
    ensures SkipsDay(DAY, DAY + POLL_GAP, 9 * DAY, -7)
  {
  }

  predicate SkipsDay(now: Time, gap: Time, expiry: Time, days: int) {
    NumDays(now - expiry) < days < NumDays(now + gap - expiry)
  }
}
