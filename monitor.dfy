/**
 * The imperative part of the monitor: Website objects whose status and
 * response time checkWebsite overwrites in place, the retry loop, the
 * round-end scan loop, the construction of the target list in main, and one
 * round of monitorWebsites, each proved against the value-level
 * specifications in Probe and Scan.
 */
module Monitor {
  import opened Durations
  import opened Mail
  import opened Trace
  import opened Sequences
  import opened Probes
  import opened Scan
  import opened Rounds

  /** The configuration record: target URLs, round interval in seconds, attempts per probe, latency threshold in milliseconds. */
  datatype Config = Config(websites: seq<string>, interval: int64, maxRetries: int, responseTimeMax: int64)

  /** One monitored endpoint. */
  class Website {
    var url: string
    var status: bool
    var responseTime: Duration

    /** `Website{URL: url}`: status and response time start at Go's zero values. */
    constructor (url: string)
      ensures View() == Target(url, false, 0)
    {
      this.url := url;
      status := false;
      responseTime := 0;
    }

    function View(): Target
      reads this
    {
      Target(url, status, responseTime)
    }
  }

  function Views(websites: seq<Website>): (ts: seq<Target>)
    reads websites
    ensures |ts| == |websites| && forall i :: 0 <= i < |websites| ==> ts[i] == websites[i].View()
  {
    seq(|websites|, i reads websites requires 0 <= i < |websites| => websites[i].View())
  }

  /**
   * Go's slice holds distinct Website values, so a probe of one entry never
   * touches another: no two positions hold the same website.
   */
  predicate Distinct(websites: seq<Website>) {
    forall i, j :: 0 <= i < |websites| && 0 <= j < |websites| && i != j ==> Apart(websites, i, j)
  }

  /** Positions i and j of the list hold different websites. */
  predicate Apart(websites: seq<Website>, i: nat, j: nat)
    requires i < |websites| && j < |websites|
  {
    websites[i] != websites[j]
  }

  /**
   * checkWebsite: up to maxRetries attempts, stopping at the first one without
   * error and with status 200. `attempts[i]` is what the i-th request returns,
   * `mailOk` whether the relay accepts the slow alert.
   */
  method CheckWebsite(website: Website, maxRetries: int, threshold: Duration, attempts: seq<Attempt>,
                      mailOk: bool, render: Duration -> string) returns (events: seq<Event>)
    requires maxRetries <= |attempts|
    modifies website
    ensures var o := Probe(old(website.View()), maxRetries, threshold, attempts, mailOk, render);
            website.View() == o.site && events == o.events
  {
    ghost var t := website.View();
    ghost var whole := Probe(t, maxRetries, threshold, attempts, mailOk, render);
    var url := website.url;
    events := [];
    var i: nat := 0;
    while i < maxRetries
      invariant i <= Bound(maxRetries)
      invariant website.View() == t
      invariant var rest := ProbeFrom(t, i, maxRetries, threshold, attempts, mailOk, render);
                whole == Outcome(rest.site, events + rest.events)
      decreases maxRetries - i
    {
      ghost var done := events;
      ghost var rest := ProbeFrom(t, i + 1, maxRetries, threshold, attempts, mailOk, render);
      events := events + [Get(url)];
      var attempt := attempts[i];
      if Succeeds(attempt) {
        var latency := attempt.latency;
        website.status := true;
        website.responseTime := latency;
        if latency > threshold {
          events := events + [LogSlow(url, latency)];
          events := events + [SendMail(Admin, SlowSubject, SlowBody(url, render(latency)))];
          if !mailOk {
            events := events + [LogMailError];
          }
        } else {
          events := events + [LogLatency(url, latency)];
        }
        assert events == done + [Get(url)] + SuccessEvents(url, latency, threshold, mailOk, render);
        AppendAssoc(done, [Get(url)], SuccessEvents(url, latency, threshold, mailOk, render));
        return;
      }
      events := events + [Backoff];
      ProbeFromRetries(t, i, maxRetries, threshold, attempts, mailOk, render);
      assert events == done + [Get(url), Backoff];
      AppendAssoc(done, [Get(url), Backoff], rest.events);
      i := i + 1;
    }
    website.status := false;
    assert events + [] == events;
  }

  /**
   * The result scan of monitorWebsites, read after every probe of the round
   * has finished. `mailOk[i]` is the relay's answer for the i-th website.
   */
  method ScanResults(websites: seq<Website>, mailOk: seq<bool>) returns (events: seq<Event>)
    requires |mailOk| == |websites|
    ensures events == ScanTrace(Views(websites), mailOk)
  {
    ghost var ts := Views(websites);
    events := [];
    for i := 0 to |websites|
      invariant events == ScanTrace(ts[..i], mailOk[..i])
    {
      var site := websites[i];
      if !site.status {
        events := events + [LogDown(site.url)];
        events := events + [SendMail(Admin, DownSubject, DownBody(site.url))];
        if !mailOk[i] {
          events := events + [LogMailError];
        }
      } else {
        events := events + [LogHealthy(site.url)];
      }
      assert ts[..i + 1][..i] == ts[..i] && mailOk[..i + 1][..i] == mailOk[..i];
    }
    assert ts[..|websites|] == ts && mailOk[..|websites|] == mailOk;
  }

  /** The target list of main: one new Website per configured URL, in order, with only its URL set. */
  method NewWebsites(urls: seq<string>) returns (websites: seq<Website>)
    ensures |websites| == |urls| && Distinct(websites)
    ensures forall i :: 0 <= i < |urls| ==> fresh(websites[i]) && websites[i].View() == Target(urls[i], false, 0)
    ensures Views(websites) == InitialTargets(urls)
  {
    websites := [];
    for i := 0 to |urls|
      invariant |websites| == i && Distinct(websites)
      invariant forall j :: 0 <= j < i ==> fresh(websites[j]) && websites[j].View() == Target(urls[j], false, 0)
    {
      var w := new Website(urls[i]);
      forall a, b | 0 <= a < i + 1 && 0 <= b < i + 1 && a != b
        ensures Apart(websites + [w], a, b)
      {
        if a < i && b < i {
          assert Apart(websites, a, b);
        }
      }
      websites := websites + [w];
    }
  }

  /** The targets main starts from: one per configured URL, down and with response time zero. */
  function InitialTargets(urls: seq<string>): (ts: seq<Target>)
    ensures |ts| == |urls|
  {
    seq(|urls|, i requires 0 <= i < |urls| => Target(urls[i], false, 0))
  }

  /** One checkWebsite inside the list: target i takes its probed state and no other website changes. */
  method CheckNth(websites: seq<Website>, i: nat, maxRetries: int, threshold: Duration, attempts: seq<Attempt>,
                  mailOk: bool, render: Duration -> string) returns (events: seq<Event>)
    requires Distinct(websites) && i < |websites| && maxRetries <= |attempts|
    modifies websites[i]
    ensures var o := Probe(old(Views(websites))[i], maxRetries, threshold, attempts, mailOk, render);
            Views(websites) == old(Views(websites))[i := o.site] && events == o.events
  {
    ghost var before := Views(websites);
    events := CheckWebsite(websites[i], maxRetries, threshold, attempts, mailOk, render);
    ghost var o := Probe(before[i], maxRetries, threshold, attempts, mailOk, render);
    forall j | 0 <= j < |websites|
      ensures Views(websites)[j] == before[i := o.site][j]
    {
      if j != i {
        assert Apart(websites, i, j);
      }
    }
  }

  /**
   * The fan-out of monitorWebsites: one checkWebsite per website. The source
   * starts them as goroutines; here they run one after the other, in list
   * order, each to completion.
   */
  method ProbeWebsites(websites: seq<Website>, maxRetries: int, threshold: Duration, env: Environment,
                       render: Duration -> string) returns (events: seq<Event>)
    requires Distinct(websites) && Fits(env, |websites|, maxRetries)
    modifies websites
    ensures var p := ProbeAll(old(Views(websites)), maxRetries, threshold, env, render);
            Views(websites) == p.targets && events == p.events
  {
    ghost var ts := Views(websites);
    events := [];
    assert Views(websites) == ProbesUpTo(ts, 0, maxRetries, threshold, env, render).targets + ts[0..]
           && events == ProbesUpTo(ts, 0, maxRetries, threshold, env, render).events by {
      assert [] + ts[0..] == ts;
    }
    for i := 0 to |websites|
      invariant Views(websites) == ProbesUpTo(ts, i, maxRetries, threshold, env, render).targets + ts[i..]
      invariant events == ProbesUpTo(ts, i, maxRetries, threshold, env, render).events
    {
      events := ProbeNext(websites, ts, i, events, maxRetries, threshold, env, render);
    }
    assert Views(websites) == ProbeAll(ts, maxRetries, threshold, env, render).targets
           && events == ProbeAll(ts, maxRetries, threshold, env, render).events by {
      ProbesUpToAll(ts, maxRetries, threshold, env, render);
    }
  }

  /**
   * One step of the fan-out: the first unprobed website takes its probed
   * state, and its probe's events follow those of the earlier probes.
   */
  method ProbeNext(websites: seq<Website>, ghost ts: seq<Target>, i: nat, done: seq<Event>, maxRetries: int,
                   threshold: Duration, env: Environment, render: Duration -> string) returns (events: seq<Event>)
    requires Distinct(websites) && |websites| == |ts| && i < |ts| && Fits(env, |ts|, maxRetries)
    requires Views(websites) == ProbesUpTo(ts, i, maxRetries, threshold, env, render).targets + ts[i..]
    requires done == ProbesUpTo(ts, i, maxRetries, threshold, env, render).events
    modifies websites[i]
    ensures Views(websites) == ProbesUpTo(ts, i + 1, maxRetries, threshold, env, render).targets + ts[i + 1..]
    ensures events == ProbesUpTo(ts, i + 1, maxRetries, threshold, env, render).events
  {
    ghost var p := ProbesUpTo(ts, i, maxRetries, threshold, env, render);
    ghost var o := Probe(ts[i], maxRetries, threshold, env.network[i], env.slowMailOk[i], render);
    assert Views(websites)[i] == ts[i] && Views(websites)[i := o.site] == (p.targets + [o.site]) + ts[i + 1..] by {
      ReplaceNext(p.targets, ts, i, o.site);
    }
    var probeEvents := CheckNth(websites, i, maxRetries, threshold, env.network[i], env.slowMailOk[i], render);
    events := done + probeEvents;
  }

  lemma ProbesUpToAll(ts: seq<Target>, maxRetries: int, threshold: Duration, env: Environment,
                      render: Duration -> string)
    requires Fits(env, |ts|, maxRetries)
    ensures var p := ProbesUpTo(ts, |ts|, maxRetries, threshold, env, render);
            p == ProbeAll(ts, maxRetries, threshold, env, render) && p.targets + ts[|ts|..] == p.targets
  {
    assert ts[|ts|..] == [];
  }

  /** Replacing the first unprobed target by its probed state extends the probed prefix by one. */
  lemma ReplaceNext(done: seq<Target>, ts: seq<Target>, i: nat, t: Target)
    requires |done| == i < |ts|
    ensures (done + ts[i..])[i := t] == (done + [t]) + ts[i + 1..]
  {
  }

  /**
   * One round of monitorWebsites: a start line, the probes, the collection
   * window, the result scan, the waiting line and the interval pause.
   */
  method MonitorRound(websites: seq<Website>, interval: int64, maxRetries: int, threshold: Duration,
                      env: Environment, render: Duration -> string) returns (events: seq<Event>)
    requires Distinct(websites) && Fits(env, |websites|, maxRetries)
    modifies websites
    ensures var r := Round(old(Views(websites)), interval, maxRetries, threshold, env, render);
            Views(websites) == r.targets && events == r.events
  {
    events := [LogRoundStart];
    var probeEvents := ProbeWebsites(websites, maxRetries, threshold, env, render);
    events := events + probeEvents + [Sleep(CollectionWindow)];
    var scan := ScanResults(websites, env.downMailOk);
    events := events + scan + [LogWaiting(interval), Sleep(FromSeconds(interval))];
  }

  /** The endless `for` of monitorWebsites, cut off after one round per given environment. */
  method MonitorRounds(websites: seq<Website>, interval: int64, maxRetries: int, threshold: Duration,
                       envs: seq<Environment>, render: Duration -> string) returns (events: seq<Event>)
    requires Distinct(websites)
    requires forall k :: 0 <= k < |envs| ==> Fits(envs[k], |websites|, maxRetries)
    modifies websites
    ensures var r := Run(old(Views(websites)), interval, maxRetries, threshold, envs, render);
            Views(websites) == r.targets && events == r.events
  {
    ghost var whole := Run(Views(websites), interval, maxRetries, threshold, envs, render);
    events := [];
    RunEnds(Views(websites), interval, maxRetries, threshold, envs, render);
    for k := 0 to |envs|
      invariant var rest := Run(Views(websites), interval, maxRetries, threshold, envs[k..], render);
                whole == RoundOutcome(rest.targets, events + rest.events)
    {
      ghost var before := Views(websites);
      var roundEvents := MonitorRound(websites, interval, maxRetries, threshold, envs[k], render);
      RunNext(whole, before, Views(websites), events, roundEvents, interval, maxRetries, threshold, envs, k, render);
      events := events + roundEvents;
    }
    RunEnds(Views(websites), interval, maxRetries, threshold, envs, render);
    assert events + [] == events;
  }

  /** The rounds from 0 on are all rounds; the rounds from |envs| on are none. */
  lemma RunEnds(ts: seq<Target>, interval: int64, maxRetries: int, threshold: Duration, envs: seq<Environment>,
                render: Duration -> string)
    requires forall j :: 0 <= j < |envs| ==> Fits(envs[j], |ts|, maxRetries)
    ensures Run(ts, interval, maxRetries, threshold, envs[0..], render) == Run(ts, interval, maxRetries, threshold, envs, render)
    ensures Run(ts, interval, maxRetries, threshold, envs[|envs|..], render) == RoundOutcome(ts, [])
  {
    assert envs[0..] == envs;
    assert envs[|envs|..] == [];
  }

  /** The loop invariant of MonitorRounds is kept by one more round. */
  lemma RunNext(whole: RoundOutcome, before: seq<Target>, after: seq<Target>, done: seq<Event>, roundEvents: seq<Event>,
                interval: int64, maxRetries: int, threshold: Duration, envs: seq<Environment>, k: nat,
                render: Duration -> string)
    requires k < |envs| && forall j :: 0 <= j < |envs| ==> Fits(envs[j], |before|, maxRetries)
    requires var rest := Run(before, interval, maxRetries, threshold, envs[k..], render);
             whole == RoundOutcome(rest.targets, done + rest.events)
    requires var r := Round(before, interval, maxRetries, threshold, envs[k], render);
             after == r.targets && roundEvents == r.events
    ensures |after| == |before|
    ensures var rest := Run(after, interval, maxRetries, threshold, envs[k + 1..], render);
            whole == RoundOutcome(rest.targets, (done + roundEvents) + rest.events)
  {
    RunStep(before, interval, maxRetries, threshold, envs, k, render);
    var rest := Run(after, interval, maxRetries, threshold, envs[k + 1..], render);
    AppendAssoc(done, roundEvents, rest.events);
  }

  /** The rounds from k on are round k followed by the rounds from k + 1 on. */
  lemma RunStep(ts: seq<Target>, interval: int64, maxRetries: int, threshold: Duration, envs: seq<Environment>,
                k: nat, render: Duration -> string)
    requires k < |envs| && forall j :: 0 <= j < |envs| ==> Fits(envs[j], |ts|, maxRetries)
    ensures var r := Round(ts, interval, maxRetries, threshold, envs[k], render);
            var rest := Run(r.targets, interval, maxRetries, threshold, envs[k + 1..], render);
            Run(ts, interval, maxRetries, threshold, envs[k..], render) == RoundOutcome(rest.targets, r.events + rest.events)
  {
    assert envs[k..][0] == envs[k] && envs[k..][1..] == envs[k + 1..];
  }

  /**
   * main without its I/O: build the target list from the configuration,
   * convert the threshold from milliseconds, and run the rounds.
   */
  method StartMonitor(config: Config, envs: seq<Environment>, render: Duration -> string)
    returns (websites: seq<Website>, events: seq<Event>)
    requires forall k :: 0 <= k < |envs| ==> Fits(envs[k], |config.websites|, config.maxRetries)
    ensures var r := Run(InitialTargets(config.websites), config.interval, config.maxRetries,
                         FromMillis(config.responseTimeMax), envs, render);
            Views(websites) == r.targets && events == r.events
  {
    websites := NewWebsites(config.websites);
    events := MonitorRounds(websites, config.interval, config.maxRetries, FromMillis(config.responseTimeMax),
                            envs, render);
  }
}
