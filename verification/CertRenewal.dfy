/// The self-signed certificates of the core and the proxy: how they are signed, when they are
/// refreshed, and that they never expire while refreshes succeed.
module CertRenewal {
  import opened Common
  import opened CertTimers

  // ---------------------------------------------------------------------------------------------
  // Signing
  // ---------------------------------------------------------------------------------------------

  datatype Validity = Validity(notBefore: Time, notAfter: Time)

  function SignWithValidity(now: Time, days: int): Validity {
    Validity(now - NOT_BEFORE_OFFSET, now + days * DAY)
  }

  function SignWebServerCert(now: Time): Validity {
    SignWithValidity(now, WEB_HTTPS_CERT_VALIDITY_DAYS)
  }

  /// A certificate is valid from five minutes before it is signed until its days are over.
  lemma SignedCovers(now: Time, days: int, t: Time)
    ensures var v := SignWithValidity(now, days);
            v.notBefore <= t <= v.notAfter <==>
            -5 * 60 * 1_000_000_000 <= t - now <= days * 86_400 * 1_000_000_000
  {
  }

  /// A certificate holds whole seconds, and the stored expiry is read back from it.
  function StoredExpiry(v: Validity): Time {
    v.notAfter / SECOND * SECOND
  }

  // ---------------------------------------------------------------------------------------------
  // The stored certificates
  // ---------------------------------------------------------------------------------------------

  datatype Source = NoCert | SelfSigned | LetsEncrypt | Custom

  datatype Cert = Cert(source: Source, expiry: Option<Time>)

  /// What a refresh meets: it fails, or the new certificate is signed at some time.
  datatype Attempt = RefreshFails | SignsAt(at: Time)

  predicate NeedsRefresh(c: Cert, now: Time) {
    c.source == SelfSigned && c.expiry.Some? && c.expiry.value - now <= SELF_SIGNED_REFRESH_THRESHOLD
  }

  function Refreshed(c: Cert, now: Time, attempt: Attempt): Cert {
    if NeedsRefresh(c, now) && attempt.SignsAt? then Cert(SelfSigned, Some(StoredExpiry(SignWebServerCert(attempt.at))))
    else c
  }

  /// A self-signed certificate that expires within the days given.
  predicate RunsOut(c: Cert, now: Time, days: int) {
    c.source == SelfSigned && c.expiry.Some? && c.expiry.value - now <= days * 86_400 * 1_000_000_000
  }

  /// A self-signed certificate that lasts until the days after `at` are over, but for part of a second.
  predicate LastsFrom(c: Cert, at: Time, days: int) {
    && c.source == SelfSigned && c.expiry.Some?
    && c.expiry.value % 1_000_000_000 == 0
    && 0 <= at + days * 86_400 * 1_000_000_000 - c.expiry.value < 1_000_000_000
  }

  /// The row of certificates: one for the core's web server, one for the proxies.
  class Certificates {
    var core: Cert
    var proxy: Cert
    var acmeDomain: Option<string>

    constructor (core: Cert, proxy: Cert, acmeDomain: Option<string>)
      ensures this.core == core && this.proxy == proxy && this.acmeDomain == acmeDomain
    {
      this.core, this.proxy, this.acmeDomain := core, proxy, acmeDomain;
    }

    method RefreshCore(attempt: Attempt) returns (ok: bool)
      modifies this`core
      ensures ok == attempt.SignsAt?
      ensures core == if ok then Cert(SelfSigned, Some(StoredExpiry(SignWebServerCert(attempt.at)))) else old(core)
    {
      if attempt.RefreshFails? {
        return false;
      }
      core := Cert(SelfSigned, Some(StoredExpiry(SignWebServerCert(attempt.at))));
      return true;
    }

    method RefreshProxy(attempt: Attempt) returns (ok: bool)
      modifies this`proxy, this`acmeDomain
      ensures ok == attempt.SignsAt?
      ensures proxy == if ok then Cert(SelfSigned, Some(StoredExpiry(SignWebServerCert(attempt.at)))) else old(proxy)
      ensures acmeDomain == if ok then None else old(acmeDomain)
    {
      if attempt.RefreshFails? {
        return false;
      }
      proxy := Cert(SelfSigned, Some(StoredExpiry(SignWebServerCert(attempt.at))));
      acmeDomain := None;
      return true;
    }

    /// The refreshing half of a check. Both decisions use the rows read at its start; what is
    /// reloaded or broadcast follows a refresh that succeeded.
    method CheckCertificates(now: Time, coreAttempt: Attempt, proxyAttempt: Attempt)
      returns (reloadWeb: bool, broadcastProxy: bool)
      modifies this
      ensures core == Refreshed(old(core), now, coreAttempt)
      ensures proxy == Refreshed(old(proxy), now, proxyAttempt)
      ensures reloadWeb == (NeedsRefresh(old(core), now) && coreAttempt.SignsAt?)
      ensures broadcastProxy == (NeedsRefresh(old(proxy), now) && proxyAttempt.SignsAt?)
      ensures reloadWeb <==> RunsOut(old(core), now, 14) && coreAttempt.SignsAt?
      ensures broadcastProxy <==> RunsOut(old(proxy), now, 14) && proxyAttempt.SignsAt?
      ensures if reloadWeb then LastsFrom(core, coreAttempt.at, 100) else core == old(core)
      ensures if broadcastProxy then LastsFrom(proxy, proxyAttempt.at, 100) && acmeDomain.None?
              else proxy == old(proxy) && acmeDomain == old(acmeDomain)
    {
      var coreCert, proxyCert := core, proxy;
      reloadWeb, broadcastProxy := false, false;
      if coreCert.source == SelfSigned && coreCert.expiry.Some? {
        if coreCert.expiry.value - now <= SELF_SIGNED_REFRESH_THRESHOLD {
          reloadWeb := RefreshCore(coreAttempt);
        }
      }
      if proxyCert.source == SelfSigned && proxyCert.expiry.Some? {
        if proxyCert.expiry.value - now <= SELF_SIGNED_REFRESH_THRESHOLD {
          broadcastProxy := RefreshProxy(proxyAttempt);
        }
      }
    }
  }

  // ---------------------------------------------------------------------------------------------
  // Renewal over time
  // ---------------------------------------------------------------------------------------------

  /// One check: when it reads the clock, when a certificate is signed if one is, when it is over.
  datatype Check = Check(now: Time, signs: Time, done: Time)

  /// The certificate in force before the check with a given index.
  function CertBefore(first: Cert, checks: seq<Check>, i: nat): Cert
    requires i <= |checks|
  {
    if i == 0 then first
    else Refreshed(CertBefore(first, checks, i - 1), checks[i - 1].now, SignsAt(checks[i - 1].signs))
  }

  /// Only a self-signed certificate with an expiry is ever replaced, and only by one: any other is the
  /// same after any number of checks.
  lemma {:induction false} OthersAreKept(first: Cert, checks: seq<Check>, i: nat)
    requires i <= |checks|
    ensures first.source != SelfSigned || first.expiry.None? ==> CertBefore(first, checks, i) == first
    ensures CertBefore(first, checks, i).source == first.source
  {
    if i > 0 {
      OthersAreKept(first, checks, i - 1);
    }
  }

  /// One check, whether or not the signing succeeds.
  lemma RefreshedExactly(c: Cert, now: Time, attempt: Attempt)
    ensures if RunsOut(c, now, 14) && attempt.SignsAt? then LastsFrom(Refreshed(c, now, attempt), attempt.at, 100)
            else Refreshed(c, now, attempt) == c
  {
  }

  /// Every check signs while it lasts, and the end of each is at most 14 days after the beginning of
  /// the one before.
  predicate Regular(checks: seq<Check>) {
    && (forall i :: 0 <= i < |checks| ==> checks[i].now <= checks[i].signs <= checks[i].done)
    && (forall i :: 0 < i < |checks| ==> checks[i - 1].done <= checks[i].now)
    && (forall i :: 0 < i < |checks| ==> checks[i].done - checks[i - 1].now <= SELF_SIGNED_REFRESH_THRESHOLD)
  }

  predicate IsSelfSigned(c: Cert) {
    c.source == SelfSigned && c.expiry.Some?
  }

  lemma StoredExpiryBounds(at: Time)
    ensures var e := StoredExpiry(SignWebServerCert(at));
            at + WEB_HTTPS_CERT_VALIDITY_DAYS * DAY - SECOND < e <= at + WEB_HTTPS_CERT_VALIDITY_DAYS * DAY
  {
  }

  /// A certificate that outlasts the first check outlasts every check: at each instant up to the
  /// end of a check the one in force before it has not expired.
  lemma {:induction false} NeverExpires(first: Cert, checks: seq<Check>, i: nat, t: Time)
    requires Regular(checks) && i < |checks| && t <= checks[i].done
    requires IsSelfSigned(first) && checks[0].done < first.expiry.value
    ensures IsSelfSigned(CertBefore(first, checks, i))
    ensures t < CertBefore(first, checks, i).expiry.value
  {
    if i > 0 {
      var prev := checks[i - 1];
      NeverExpires(first, checks, i - 1, prev.done);
      StoredExpiryBounds(prev.signs);
    }
  }

  /// The stored expiry never moves back.
  lemma {:induction false} ExpiryAdvances(first: Cert, checks: seq<Check>, i: nat, j: nat)
    requires Regular(checks) && i <= j <= |checks| && IsSelfSigned(first)
    ensures IsSelfSigned(CertBefore(first, checks, i)) && IsSelfSigned(CertBefore(first, checks, j))
    ensures CertBefore(first, checks, i).expiry.value <= CertBefore(first, checks, j).expiry.value
    decreases j
  {
    if i < j {
      ExpiryAdvances(first, checks, i, j - 1);
      StoredExpiryBounds(checks[j - 1].signs);
    } else if i > 0 {
      ExpiryAdvances(first, checks, i - 1, j - 1);
    }
  }

  /// A certificate just refreshed is left alone for 86 days less a second, and lasts until a second
  /// before its hundredth day is over.
  lemma RefreshLasts(at: Time, now: Time)
    ensures var c := Cert(SelfSigned, Some(StoredExpiry(SignWebServerCert(at))));
            && (now <= at + 86 * DAY - SECOND ==> !NeedsRefresh(c, now))
            && (now >= at + 86 * DAY ==> NeedsRefresh(c, now))
            && (now <= at + WEB_HTTPS_CERT_VALIDITY_DAYS * DAY - SECOND ==> now < c.expiry.value)
  {
    hide StoredExpiry;
    StoredExpiryBounds(at);
  }

  /// The checks of the utility thread: one at start-up, after the timer was set and before the first
  /// poll, and then one at each run of the job.
  ghost predicate ThreadChecks(started: Time, polls: seq<Poll>, runs: seq<nat>, checks: seq<Check>) {
    && |checks| == |runs| + 1 && AllSpaced(started, CERTIFICATE_EXPIRY_CHECK_INTERVAL, polls, runs)
    && started <= checks[0].now <= checks[0].signs <= checks[0].done
    && (polls != [] ==> checks[0].done <= polls[0].at)
    && (forall k :: 0 <= k < |runs| ==> During(polls[runs[k]], checks[k + 1]))
  }

  /// The check takes place while the job runs at this poll.
  predicate During(poll: Poll, check: Check) {
    poll.at <= check.now <= check.signs <= check.done <= poll.done
  }

  /// No poll takes longer than `lasting`, polls are at most `gap` apart, and the first comes at most
  /// `startup` after the timer was set.
  predicate Brisk(started: Time, polls: seq<Poll>, startup: Time, lasting: Time, gap: Time) {
    && (polls != [] ==> polls[0].at - started <= startup)
    && (forall i :: 0 <= i < |polls| ==> polls[i].done - polls[i].at <= lasting)
    && (forall i :: 0 < i < |polls| ==> polls[i].at - polls[i - 1].at <= gap)
  }

  /// The time that start-up, or two polls with the gap between them, may take so that a day later it
  /// is not more than 14 days.
  predicate FastEnough(startup: Time, lasting: Time, gap: Time) {
    && 0 <= lasting && 0 <= gap && startup + lasting <= SELF_SIGNED_REFRESH_THRESHOLD
    && 2 * lasting + gap <= SELF_SIGNED_REFRESH_THRESHOLD - CERTIFICATE_EXPIRY_CHECK_INTERVAL * SECOND
  }

  lemma FirstRunIsSoon(started: Time, polls: seq<Poll>, runs: seq<nat>, checks: seq<Check>,
                       startup: Time, lasting: Time, gap: Time)
    requires ThreadChecks(started, polls, runs, checks) && Brisk(started, polls, startup, lasting, gap)
    requires FastEnough(startup, lasting, gap) && runs != []
    requires forall i, j :: 0 <= i < j < |polls| ==> polls[i].at <= polls[j].at
    ensures checks[0].done <= checks[1].now && checks[1].done - checks[0].now <= SELF_SIGNED_REFRESH_THRESHOLD
  {
    var r := runs[0];
    assert During(polls[r], checks[1]);
    if r > 0 {
      assert polls[r].at - polls[r - 1].at <= gap;
    }
  }

  /// In a thread that starts up, polls and does its jobs fast enough the checks are regular.
  lemma ThreadChecksAreRegular(started: Time, polls: seq<Poll>, runs: seq<nat>, checks: seq<Check>,
                               startup: Time, lasting: Time, gap: Time)
    requires Timed(started, polls) && ThreadChecks(started, polls, runs, checks)
    requires Brisk(started, polls, startup, lasting, gap) && FastEnough(startup, lasting, gap)
    ensures Regular(checks)
  {
    if runs != [] {
      forall i, j | 0 <= i < j < |polls| ensures polls[i].at <= polls[j].at {
        assert polls[i].done <= polls[j].at;
      }
      FirstRunIsSoon(started, polls, runs, checks, startup, lasting, gap);
    }
    forall k | 0 < k < |runs|
      ensures checks[k].done <= checks[k + 1].now
      ensures checks[k + 1].done - checks[k].now <= SELF_SIGNED_REFRESH_THRESHOLD
    {
      assert Spaced(polls, runs[k - 1], runs[k], CERTIFICATE_EXPIRY_CHECK_INTERVAL);
      assert During(polls[runs[k - 1]], checks[k - 1 + 1]) && During(polls[runs[k]], checks[k + 1]);
    }
    forall k | 0 < k < |checks|
      ensures checks[k - 1].done <= checks[k].now
      ensures checks[k].done - checks[k - 1].now <= SELF_SIGNED_REFRESH_THRESHOLD
    {
      if k > 1 {
        assert 0 < k - 1 < |runs|;
      }
    }
    forall k | 0 <= k < |checks| ensures checks[k].now <= checks[k].signs <= checks[k].done {
      if k > 0 {
        assert During(polls[runs[k - 1]], checks[k - 1 + 1]);
      }
    }
  }

  /// So there a certificate that outlasts the check at start-up never expires while refreshes succeed.
  lemma ThreadNeverExpires(first: Cert, started: Time, polls: seq<Poll>, runs: seq<nat>, checks: seq<Check>,
                           startup: Time, lasting: Time, gap: Time, i: nat, t: Time)
    requires Timed(started, polls) && ThreadChecks(started, polls, runs, checks)
    requires Brisk(started, polls, startup, lasting, gap) && FastEnough(startup, lasting, gap)
    requires i < |checks| && t <= checks[i].done
    requires IsSelfSigned(first) && checks[0].done < first.expiry.value
    ensures IsSelfSigned(CertBefore(first, checks, i)) && t < CertBefore(first, checks, i).expiry.value
  {
    ThreadChecksAreRegular(started, polls, runs, checks, startup, lasting, gap);
    NeverExpires(first, checks, i, t);
  }

  /// Two refreshes are more than 86 days less a second apart.
  lemma RefreshesAreFarApart(first: Cert, checks: seq<Check>, i: nat, j: nat)
    requires Regular(checks) && i < j < |checks| && IsSelfSigned(first)
    requires NeedsRefresh(CertBefore(first, checks, i), checks[i].now)
    requires NeedsRefresh(CertBefore(first, checks, j), checks[j].now)
    ensures checks[j].signs - checks[i].signs > 86 * DAY - SECOND
  {
    hide StoredExpiry, CertBefore;
    ExpiryAdvances(first, checks, i + 1, j);
    RefreshedExpiry(first, checks, i);
  }

  lemma RefreshedExpiry(first: Cert, checks: seq<Check>, i: nat)
    requires i < |checks| && NeedsRefresh(CertBefore(first, checks, i), checks[i].now)
    ensures var c := CertBefore(first, checks, i + 1);
            IsSelfSigned(c) && checks[i].signs + WEB_HTTPS_CERT_VALIDITY_DAYS * DAY - SECOND < c.expiry.value
  {
    StoredExpiryBounds(checks[i].signs);
  }

  /// The threshold is as small as it can be: every certificate left alone by a check outlasts the
  /// time to the end of the next one exactly when that time is at most 14 days.
  lemma ThresholdExactly(gap: Time)
    requires gap >= 0
    ensures (forall c, now | IsSelfSigned(c) && !NeedsRefresh(c, now) :: now + gap < c.expiry.value) <==>
            gap <= SELF_SIGNED_REFRESH_THRESHOLD
  {
    if gap > SELF_SIGNED_REFRESH_THRESHOLD {
      var c := Cert(SelfSigned, Some(gap));
      assert IsSelfSigned(c) && !NeedsRefresh(c, 0) && !(0 + gap < c.expiry.value);
    }
  }
}
