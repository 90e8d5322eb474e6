/**
 * One round of monitorWebsites at the level of values: probe every target,
 * wait the collection window, scan the results, announce and take the pause.
 * In the source the probes run concurrently; here each probe has finished
 * before the scan reads its target, and their events are listed in target
 * order.
 */
module Rounds {
  import opened Durations
  import opened Mail
  import opened Trace
  import opened Probes
  import opened Scan

  /** `5 * time.Second`, the fixed wait before the scan. */
  const CollectionWindow: Duration := 5_000_000_000

  /**
   * What the outside world does in one round: `network[i]` is what the
   * requests to target i return, `slowMailOk[i]` and `downMailOk[i]` whether
   * the relay accepts target i's slow and down alert.
   */
  datatype Environment = Environment(network: seq<seq<Attempt>>, slowMailOk: seq<bool>, downMailOk: seq<bool>)

  /** The environment answers for `n` targets, with at least maxRetries outcomes per target. */
  predicate Fits(env: Environment, n: nat, maxRetries: int) {
    |env.network| == n && |env.slowMailOk| == n && |env.downMailOk| == n
    && forall i :: 0 <= i < n ==> maxRetries <= |env.network[i]|
  }

  datatype RoundOutcome = RoundOutcome(targets: seq<Target>, events: seq<Event>)

  /** The probes of the first k targets of a round, target by target. */
  function ProbesUpTo(ts: seq<Target>, k: nat, maxRetries: int, threshold: Duration, env: Environment,
                      render: Duration -> string): (r: RoundOutcome)
    requires k <= |ts| && Fits(env, |ts|, maxRetries)
    ensures |r.targets| == k
  {
    if k == 0 then RoundOutcome([], [])
    else
      var p := ProbesUpTo(ts, k - 1, maxRetries, threshold, env, render);
      var o := Probe(ts[k - 1], maxRetries, threshold, env.network[k - 1], env.slowMailOk[k - 1], render);
      RoundOutcome(p.targets + [o.site], p.events + o.events)
  }

  /** The probes of one round, every target in list order. */
  function ProbeAll(ts: seq<Target>, maxRetries: int, threshold: Duration, env: Environment,
                    render: Duration -> string): (r: RoundOutcome)
    requires Fits(env, |ts|, maxRetries)
    ensures |r.targets| == |ts|
  {
    ProbesUpTo(ts, |ts|, maxRetries, threshold, env, render)
  }

  /** One round: start line, probes, collection window, scan, waiting line and the interval pause. */
  function Round(ts: seq<Target>, interval: int64, maxRetries: int, threshold: Duration, env: Environment,
                 render: Duration -> string): (r: RoundOutcome)
    requires Fits(env, |ts|, maxRetries)
    ensures |r.targets| == |ts|
  {
    var p := ProbeAll(ts, maxRetries, threshold, env, render);
    RoundOutcome(p.targets,
                 [LogRoundStart] + p.events + [Sleep(CollectionWindow)]
                 + ScanTrace(p.targets, env.downMailOk)
                 + [LogWaiting(interval), Sleep(FromSeconds(interval))])
  }

  /** Several rounds in a row, each one starting from the targets the previous one left. */
  function Run(ts: seq<Target>, interval: int64, maxRetries: int, threshold: Duration, envs: seq<Environment>,
               render: Duration -> string): (r: RoundOutcome)
    requires forall k :: 0 <= k < |envs| ==> Fits(envs[k], |ts|, maxRetries)
    ensures |r.targets| == |ts|
    decreases |envs|
  {
    if envs == [] then RoundOutcome(ts, [])
    else
      var first := Round(ts, interval, maxRetries, threshold, envs[0], render);
      var rest := Run(first.targets, interval, maxRetries, threshold, envs[1..], render);
      RoundOutcome(rest.targets, first.events + rest.events)
  }

  /** Each of the first k targets ends the probing phase as its own probe leaves it. */
  lemma {:induction false} ProbesUpToTargets(ts: seq<Target>, k: nat, maxRetries: int, threshold: Duration,
                                             env: Environment, render: Duration -> string)
    requires k <= |ts| && Fits(env, |ts|, maxRetries)
    ensures var r := ProbesUpTo(ts, k, maxRetries, threshold, env, render);
            forall i :: 0 <= i < k ==>
              r.targets[i] == Probe(ts[i], maxRetries, threshold, env.network[i], env.slowMailOk[i], render).site
  {
    if k > 0 {
      ProbesUpToTargets(ts, k - 1, maxRetries, threshold, env, render);
    }
  }

  /** Each target ends the probing phase as its own probe leaves it. */
  lemma ProbeAllTargets(ts: seq<Target>, maxRetries: int, threshold: Duration, env: Environment,
                        render: Duration -> string)
    requires Fits(env, |ts|, maxRetries)
    ensures var r := ProbeAll(ts, maxRetries, threshold, env, render);
            forall i :: 0 <= i < |ts| ==>
              r.targets[i] == Probe(ts[i], maxRetries, threshold, env.network[i], env.slowMailOk[i], render).site
  {
    ProbesUpToTargets(ts, |ts|, maxRetries, threshold, env, render);
  }

  /**
   * After a round each target keeps its URL and is up exactly when one of its
   * first maxRetries attempts succeeded.
   */
  lemma RoundStatuses(ts: seq<Target>, interval: int64, maxRetries: int, threshold: Duration, env: Environment,
                      render: Duration -> string)
    requires Fits(env, |ts|, maxRetries)
    ensures var r := Round(ts, interval, maxRetries, threshold, env, render);
            forall i :: 0 <= i < |ts| ==>
              r.targets[i].url == ts[i].url
              && (r.targets[i].status <==> exists j :: 0 <= j < maxRetries && Succeeds(env.network[i][j]))
  {
    ProbeAllTargets(ts, maxRetries, threshold, env, render);
    forall i | 0 <= i < |ts|
      ensures var o := Probe(ts[i], maxRetries, threshold, env.network[i], env.slowMailOk[i], render);
              o.site.url == ts[i].url
              && (o.site.status <==> exists j :: 0 <= j < maxRetries && Succeeds(env.network[i][j]))
    {
      ProbeFields(ts[i], maxRetries, threshold, env.network[i], env.slowMailOk[i], render);
    }
  }

  /** The slow alert a probe left behind: its target is up with a recorded latency strictly above the threshold. */
  function SlowAlert(t: Target, threshold: Duration, render: Duration -> string): seq<Event> {
    if t.status && t.responseTime > threshold then [SendMail(Admin, SlowSubject, SlowBody(t.url, render(t.responseTime)))]
    else []
  }

  /** Reference definition: the slow alerts of the probed targets, one per target up and above the threshold, in list order. */
  function SlowAlerts(ts: seq<Target>, threshold: Duration, render: Duration -> string): (r: seq<Event>)
    ensures |r| <= |ts|
  {
    if ts == [] then []
    else
      var n := |ts| - 1;
      SlowAlerts(ts[..n], threshold, render) + SlowAlert(ts[n], threshold, render)
  }

  /** The mails of probing the first k targets are the slow alerts of the targets those probes leave, in list order. */
  lemma {:induction false} ProbesUpToMails(ts: seq<Target>, k: nat, maxRetries: int, threshold: Duration,
                                           env: Environment, render: Duration -> string)
    requires k <= |ts| && Fits(env, |ts|, maxRetries)
    ensures var p := ProbesUpTo(ts, k, maxRetries, threshold, env, render);
            Filter(p.events, IsMail) == SlowAlerts(p.targets, threshold, render)
  {
    if k > 0 {
      ProbesUpToMails(ts, k - 1, maxRetries, threshold, env, render);
      var p := ProbesUpTo(ts, k - 1, maxRetries, threshold, env, render);
      var o := Probe(ts[k - 1], maxRetries, threshold, env.network[k - 1], env.slowMailOk[k - 1], render);
      var q := ProbesUpTo(ts, k, maxRetries, threshold, env, render);
      ProbeSlowAlert(ts[k - 1], maxRetries, threshold, env.network[k - 1], env.slowMailOk[k - 1], render);
      assert Filter(o.events, IsMail) == SlowAlert(o.site, threshold, render);
      FilterConcat(p.events, o.events, IsMail);
      assert q.targets[..k - 1] == p.targets && q.targets[k - 1] == o.site;
    }
  }

  lemma FixedEventsHaveNoMail(interval: int64)
    ensures Filter([LogRoundStart], IsMail) == [] && Filter([Sleep(CollectionWindow)], IsMail) == []
    ensures Filter([LogWaiting(interval), Sleep(FromSeconds(interval))], IsMail) == []
  {
    FilterNone([LogWaiting(interval), Sleep(FromSeconds(interval))], IsMail);
  }

  /**
   * The mails of a round, in order: the slow alerts raised during probing,
   * one per target left up above the threshold, then one down alert per
   * target the probes left down, each in list order.
   */
  lemma RoundMails(ts: seq<Target>, interval: int64, maxRetries: int, threshold: Duration, env: Environment,
                   render: Duration -> string)
    requires Fits(env, |ts|, maxRetries)
    ensures var p := ProbeAll(ts, maxRetries, threshold, env, render);
            var r := Round(ts, interval, maxRetries, threshold, env, render);
            Filter(r.events, IsMail) == Filter(p.events, IsMail) + DueAlerts(r.targets)
            && Filter(r.events, IsMail) == SlowAlerts(r.targets, threshold, render) + DueAlerts(r.targets)
  {
    var p := ProbeAll(ts, maxRetries, threshold, env, render);
    var scan := ScanTrace(p.targets, env.downMailOk);
    var tail := [LogWaiting(interval), Sleep(FromSeconds(interval))];
    FixedEventsHaveNoMail(interval);
    ScanMails(p.targets, env.downMailOk);
    FilterBetween([LogRoundStart], p.events, [Sleep(CollectionWindow)], scan, tail, IsMail);
    ProbesUpToMails(ts, |ts|, maxRetries, threshold, env, render);
  }

  /** A target whose probe succeeds within the attempts allowed and within the threshold. */
  predicate Healthy(attempts: seq<Attempt>, maxRetries: int, threshold: Duration) {
    maxRetries <= |attempts|
    && var first := FirstSuccess(attempts, Bound(maxRetries));
       first.Some? && attempts[first.value].latency <= threshold
  }

  /** Every target of the round is healthy. */
  predicate AllHealthy(env: Environment, n: nat, maxRetries: int, threshold: Duration) {
    Fits(env, n, maxRetries) && forall i :: 0 <= i < n ==> Healthy(env.network[i], maxRetries, threshold)
  }

  /** The healthy line of every target, in list order. */
  function HealthyLines(ts: seq<Target>): seq<Event> {
    seq(|ts|, i requires 0 <= i < |ts| => LogHealthy(ts[i].url))
  }

  lemma SameUrlsSameHealthyLines(a: seq<Target>, b: seq<Target>)
    requires |a| == |b| && forall i :: 0 <= i < |a| ==> a[i].url == b[i].url
    ensures HealthyLines(a) == HealthyLines(b)
  {
  }

  function Repeat(s: seq<Event>, n: nat): seq<Event> {
    if n == 0 then [] else s + Repeat(s, n - 1)
  }

  /** A probe logs no scan verdict. */
  lemma ProbeHasNoVerdict(t: Target, maxRetries: int, threshold: Duration, attempts: seq<Attempt>,
                          mailOk: bool, render: Duration -> string)
    requires maxRetries <= |attempts|
    ensures Filter(Probe(t, maxRetries, threshold, attempts, mailOk, render).events, IsVerdict) == []
  {
    ProbeMatchesFirstSuccess(t, maxRetries, threshold, attempts, mailOk, render);
    var o := Probe(t, maxRetries, threshold, attempts, mailOk, render);
    match FirstSuccess(attempts, Bound(maxRetries))
    case Some(k) =>
      FailuresShape(t.url, k);
      var latency := attempts[k].latency;
      assert forall e :: e in SuccessEvents(t.url, latency, threshold, mailOk, render) ==> !IsVerdict(e);
      FilterNone(o.events, IsVerdict);
    case None =>
      FailuresShape(t.url, Bound(maxRetries));
      FilterNone(o.events, IsVerdict);
  }

  /** A healthy target's probe finds it up, keeps its URL, and neither mails nor logs a verdict. */
  lemma HealthyProbe(t: Target, maxRetries: int, threshold: Duration, attempts: seq<Attempt>,
                     mailOk: bool, render: Duration -> string)
    requires Healthy(attempts, maxRetries, threshold)
    ensures var o := Probe(t, maxRetries, threshold, attempts, mailOk, render);
            o.site.status && o.site.url == t.url
            && Filter(o.events, IsMail) == [] && Filter(o.events, IsVerdict) == []
  {
    ProbeMatchesFirstSuccess(t, maxRetries, threshold, attempts, mailOk, render);
    ProbeSlowAlert(t, maxRetries, threshold, attempts, mailOk, render);
    ProbeHasNoVerdict(t, maxRetries, threshold, attempts, mailOk, render);
  }

  /** Healthy targets: probing the first k neither mails nor logs a verdict. */
  lemma {:induction false} ProbesUpToQuiet(ts: seq<Target>, k: nat, maxRetries: int, threshold: Duration,
                                           env: Environment, render: Duration -> string)
    requires k <= |ts| && Fits(env, |ts|, maxRetries)
    requires forall i :: 0 <= i < |ts| ==> Healthy(env.network[i], maxRetries, threshold)
    ensures var p := ProbesUpTo(ts, k, maxRetries, threshold, env, render);
            Filter(p.events, IsMail) == [] && Filter(p.events, IsVerdict) == []
  {
    if k > 0 {
      ProbesUpToQuiet(ts, k - 1, maxRetries, threshold, env, render);
      var p := ProbesUpTo(ts, k - 1, maxRetries, threshold, env, render);
      var o := Probe(ts[k - 1], maxRetries, threshold, env.network[k - 1], env.slowMailOk[k - 1], render);
      HealthyProbe(ts[k - 1], maxRetries, threshold, env.network[k - 1], env.slowMailOk[k - 1], render);
      FilterConcat(p.events, o.events, IsMail);
      FilterConcat(p.events, o.events, IsVerdict);
    }
  }

  /** Healthy targets: the probing phase neither mails nor logs a verdict. */
  lemma ProbeAllHealthyQuiet(ts: seq<Target>, maxRetries: int, threshold: Duration, env: Environment,
                             render: Duration -> string)
    requires Fits(env, |ts|, maxRetries)
    requires forall i :: 0 <= i < |ts| ==> Healthy(env.network[i], maxRetries, threshold)
    ensures var p := ProbeAll(ts, maxRetries, threshold, env, render);
            Filter(p.events, IsMail) == [] && Filter(p.events, IsVerdict) == []
  {
    ProbesUpToQuiet(ts, |ts|, maxRetries, threshold, env, render);
  }

  /** Healthy targets: the probing phase finds them all up and keeps their URLs. */
  lemma ProbeAllHealthyUp(ts: seq<Target>, maxRetries: int, threshold: Duration, env: Environment,
                          render: Duration -> string)
    requires Fits(env, |ts|, maxRetries)
    requires forall i :: 0 <= i < |ts| ==> Healthy(env.network[i], maxRetries, threshold)
    ensures var p := ProbeAll(ts, maxRetries, threshold, env, render);
            forall i :: 0 <= i < |ts| ==> p.targets[i].status && p.targets[i].url == ts[i].url
  {
    ProbeAllTargets(ts, maxRetries, threshold, env, render);
    forall i | 0 <= i < |ts|
      ensures var o := Probe(ts[i], maxRetries, threshold, env.network[i], env.slowMailOk[i], render);
              o.site.status && o.site.url == ts[i].url
    {
      HealthyProbe(ts[i], maxRetries, threshold, env.network[i], env.slowMailOk[i], render);
    }
  }

  lemma FixedEventsHaveNoVerdict(interval: int64)
    ensures Filter([LogRoundStart], IsVerdict) == [] && Filter([Sleep(CollectionWindow)], IsVerdict) == []
    ensures Filter([LogWaiting(interval), Sleep(FromSeconds(interval))], IsVerdict) == []
  {
    FilterNone([LogWaiting(interval), Sleep(FromSeconds(interval))], IsVerdict);
  }

  /** The verdicts of a round are those of the scan: one per target, in list order. */
  lemma RoundVerdicts(ts: seq<Target>, interval: int64, maxRetries: int, threshold: Duration, env: Environment,
                      render: Duration -> string)
    requires Fits(env, |ts|, maxRetries)
    ensures var r := Round(ts, interval, maxRetries, threshold, env, render);
            Filter(r.events, IsVerdict) == Verdicts(r.targets)
  {
    var p := ProbeAll(ts, maxRetries, threshold, env, render);
    var scan := ScanTrace(p.targets, env.downMailOk);
    var tail := [LogWaiting(interval), Sleep(FromSeconds(interval))];
    FixedEventsHaveNoVerdict(interval);
    ScanVerdicts(p.targets, env.downMailOk);
    ProbesUpToNoVerdict(ts, |ts|, maxRetries, threshold, env, render);
    FilterBetween([LogRoundStart], p.events, [Sleep(CollectionWindow)], scan, tail, IsVerdict);
    assert [] + Verdicts(p.targets) == Verdicts(p.targets);
  }

  /** Probing the first k targets logs no scan verdict, whatever the network answers. */
  lemma {:induction false} ProbesUpToNoVerdict(ts: seq<Target>, k: nat, maxRetries: int, threshold: Duration,
                                               env: Environment, render: Duration -> string)
    requires k <= |ts| && Fits(env, |ts|, maxRetries)
    ensures Filter(ProbesUpTo(ts, k, maxRetries, threshold, env, render).events, IsVerdict) == []
  {
    if k > 0 {
      ProbesUpToNoVerdict(ts, k - 1, maxRetries, threshold, env, render);
      var p := ProbesUpTo(ts, k - 1, maxRetries, threshold, env, render);
      var o := Probe(ts[k - 1], maxRetries, threshold, env.network[k - 1], env.slowMailOk[k - 1], render);
      ProbeHasNoVerdict(ts[k - 1], maxRetries, threshold, env.network[k - 1], env.slowMailOk[k - 1], render);
      FilterConcat(p.events, o.events, IsVerdict);
    }
  }

  /** A round over healthy targets sends no mail and logs one healthy line per target, in order. */
  lemma HealthyRound(ts: seq<Target>, interval: int64, maxRetries: int, threshold: Duration, env: Environment,
                     render: Duration -> string)
    requires Fits(env, |ts|, maxRetries)
    requires forall i :: 0 <= i < |ts| ==> Healthy(env.network[i], maxRetries, threshold)
    ensures var r := Round(ts, interval, maxRetries, threshold, env, render);
            Filter(r.events, IsMail) == [] && Filter(r.events, IsVerdict) == HealthyLines(ts)
            && forall i :: 0 <= i < |ts| ==> r.targets[i].status && r.targets[i].url == ts[i].url
  {
    var p := ProbeAll(ts, maxRetries, threshold, env, render);
    var r := Round(ts, interval, maxRetries, threshold, env, render);
    assert r.targets == p.targets;
    assert forall i :: 0 <= i < |ts| ==> p.targets[i].status && p.targets[i].url == ts[i].url by {
      ProbeAllHealthyUp(ts, maxRetries, threshold, env, render);
    }
    assert Filter(r.events, IsMail) == [] by {
      ProbeAllHealthyQuiet(ts, maxRetries, threshold, env, render);
      RoundMails(ts, interval, maxRetries, threshold, env, render);
      NoDueAlertsWhenAllUp(p.targets);
    }
    assert Filter(r.events, IsVerdict) == HealthyLines(ts) by {
      RoundVerdicts(ts, interval, maxRetries, threshold, env, render);
      assert Verdicts(p.targets) == HealthyLines(ts);
    }
  }

  /** N rounds over targets that stay healthy: N sets of healthy lines and no mail at all. */
  lemma {:induction false} HealthyRun(ts: seq<Target>, interval: int64, maxRetries: int, threshold: Duration,
                                      envs: seq<Environment>, render: Duration -> string)
    requires forall k :: 0 <= k < |envs| ==> Fits(envs[k], |ts|, maxRetries)
    requires forall k :: 0 <= k < |envs| ==> AllHealthy(envs[k], |ts|, maxRetries, threshold)
    ensures var r := Run(ts, interval, maxRetries, threshold, envs, render);
            Filter(r.events, IsMail) == [] && Filter(r.events, IsVerdict) == Repeat(HealthyLines(ts), |envs|)
    decreases |envs|
  {
    if envs != [] {
      var first := Round(ts, interval, maxRetries, threshold, envs[0], render);
      var rest := Run(first.targets, interval, maxRetries, threshold, envs[1..], render);
      var lines := HealthyLines(ts);
      assert |first.targets| == |ts| && HealthyLines(first.targets) == lines
             && Filter(first.events, IsMail) == [] && Filter(first.events, IsVerdict) == lines by {
        assert AllHealthy(envs[0], |ts|, maxRetries, threshold);
        HealthyRound(ts, interval, maxRetries, threshold, envs[0], render);
        SameUrlsSameHealthyLines(first.targets, ts);
      }
      assert Filter(rest.events, IsMail) == [] && Filter(rest.events, IsVerdict) == Repeat(lines, |envs| - 1) by {
        LaterRoundsHealthy(envs, |ts|, maxRetries, threshold);
        HealthyRun(first.targets, interval, maxRetries, threshold, envs[1..], render);
      }
      assert Run(ts, interval, maxRetries, threshold, envs, render).events == first.events + rest.events;
      QuietRounds(first.events, rest.events, lines, |envs| - 1);
    }
  }

  /** A quiet round followed by m quiet rounds is m + 1 quiet rounds. */
  lemma QuietRounds(first: seq<Event>, rest: seq<Event>, lines: seq<Event>, m: nat)
    requires Filter(first, IsMail) == [] && Filter(rest, IsMail) == []
    requires Filter(first, IsVerdict) == lines && Filter(rest, IsVerdict) == Repeat(lines, m)
    ensures Filter(first + rest, IsMail) == [] && Filter(first + rest, IsVerdict) == Repeat(lines, m + 1)
  {
    FilterConcat(first, rest, IsMail);
    FilterConcat(first, rest, IsVerdict);
  }

  lemma LaterRoundsHealthy(envs: seq<Environment>, n: nat, maxRetries: int, threshold: Duration)
    requires envs != []
    requires forall k :: 0 <= k < |envs| ==> AllHealthy(envs[k], n, maxRetries, threshold)
    ensures forall k :: 0 <= k < |envs| - 1 ==> Fits(envs[1..][k], n, maxRetries)
    ensures forall k :: 0 <= k < |envs| - 1 ==> AllHealthy(envs[1..][k], n, maxRetries, threshold)
  {
    forall k | 0 <= k < |envs| - 1
      ensures AllHealthy(envs[1..][k], n, maxRetries, threshold)
    {
      assert envs[1..][k] == envs[k + 1];
    }
  }
}
