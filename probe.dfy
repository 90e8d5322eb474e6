/**
 * What checkWebsite does to one target, as a state machine over the attempt
 * outcomes the network gives: Attempting(i) moves to Success on the first
 * attempt without error and with status 200, to Attempting(i + 1) after a
 * failed attempt and its one-second backoff, and to Exhausted (down) once
 * maxRetries attempts have failed.
 */
module Probes {
  import opened Optional
  import opened Durations
  import opened Mail
  import opened Trace
  import opened Sequences

  const StatusOK := 200

  /** An attempt succeeds when there is no transport error and the status code is exactly 200. */
  predicate Succeeds(a: Attempt) {
    a.Response? && a.statusCode == StatusOK
  }

  /** The number of attempts the loop `for i := 0; i < maxRetries; i++` allows. */
  function Bound(maxRetries: int): nat {
    if maxRetries < 0 then 0 else maxRetries
  }

  /** Reference definition: the first successful attempt among the first `n`, if there is one. */
  function FirstSuccess(attempts: seq<Attempt>, n: nat): (r: Option<nat>)
    requires n <= |attempts|
    ensures r.Some? ==> r.value < n && Succeeds(attempts[r.value])
    ensures r.Some? ==> forall j :: 0 <= j < r.value ==> !Succeeds(attempts[j])
    ensures r.None? <==> forall j :: 0 <= j < n ==> !Succeeds(attempts[j])
  {
    if n == 0 then None
    else
      match FirstSuccess(attempts, n - 1)
      case Some(k) => Some(k)
      case None => if Succeeds(attempts[n - 1]) then Some(n - 1) else None
  }

  /** The target's fields after the probe, and the events it produced. */
  datatype Outcome = Outcome(site: Target, events: seq<Event>)

  /** What a successful attempt with this latency logs and sends. */
  function SuccessEvents(url: string, latency: Duration, threshold: Duration, mailOk: bool,
                         render: Duration -> string): (r: seq<Event>)
    ensures LogMailError in r <==> latency > threshold && !mailOk
  {
    if latency > threshold then
      [LogSlow(url, latency), SendMail(Admin, SlowSubject, SlowBody(url, render(latency)))]
      + (if mailOk then [] else [LogMailError])
    else
      [LogLatency(url, latency)]
  }

  /**
   * The probe from state Attempting(i) on. `attempts[i]` is what the i-th
   * request returns; `mailOk` says whether the relay accepts the slow alert;
   * `render` is Go's text form of a Duration.
   */
  function ProbeFrom(t: Target, i: nat, maxRetries: int, threshold: Duration, attempts: seq<Attempt>,
                     mailOk: bool, render: Duration -> string): (o: Outcome)
    requires maxRetries <= |attempts|
    ensures o.site.url == t.url && (!o.site.status ==> o.site.responseTime == t.responseTime)
    decreases maxRetries - i
  {
    if i >= maxRetries then
      Outcome(t.(status := false), [])
    else if Succeeds(attempts[i]) then
      var latency := attempts[i].latency;
      Outcome(t.(status := true, responseTime := latency),
              [Get(t.url)] + SuccessEvents(t.url, latency, threshold, mailOk, render))
    else
      var rest := ProbeFrom(t, i + 1, maxRetries, threshold, attempts, mailOk, render);
      Outcome(rest.site, [Get(t.url), Backoff] + rest.events)
  }

  /** A failed attempt i is one request and one backoff, followed by the probe from attempt i + 1. */
  lemma ProbeFromRetries(t: Target, i: nat, maxRetries: int, threshold: Duration, attempts: seq<Attempt>,
                         mailOk: bool, render: Duration -> string)
    requires maxRetries <= |attempts| && i < maxRetries && !Succeeds(attempts[i])
    ensures var rest := ProbeFrom(t, i + 1, maxRetries, threshold, attempts, mailOk, render);
            ProbeFrom(t, i, maxRetries, threshold, attempts, mailOk, render)
            == Outcome(rest.site, [Get(t.url), Backoff] + rest.events)
  {
  }

  /** checkWebsite(website, maxRetries, responseTimeMax), started in Attempting(0). */
  function Probe(t: Target, maxRetries: int, threshold: Duration, attempts: seq<Attempt>,
                 mailOk: bool, render: Duration -> string): (o: Outcome)
    requires maxRetries <= |attempts|
    ensures o.site.url == t.url && (!o.site.status ==> o.site.responseTime == t.responseTime)
    ensures o.events == [] <==> maxRetries <= 0
  {
    ProbeFrom(t, 0, maxRetries, threshold, attempts, mailOk, render)
  }

  /** `m` failed attempts: each one request followed by one backoff. */
  function Failures(url: string, m: nat): seq<Event> {
    if m == 0 then [] else [Get(url), Backoff] + Failures(url, m - 1)
  }

  /**
   * The state machine agrees with the reference definition: from Attempting(i),
   * with attempts 0 .. i-1 failed, the probe fails the attempts up to the first
   * success and records it, or fails them all and marks the target down.
   */
  lemma {:induction false} ProbeFromMatchesFirstSuccess(t: Target, i: nat, maxRetries: int, threshold: Duration,
                                                       attempts: seq<Attempt>, mailOk: bool,
                                                       render: Duration -> string)
    requires maxRetries <= |attempts| && i <= Bound(maxRetries)
    requires forall j :: 0 <= j < i ==> !Succeeds(attempts[j])
    ensures var o := ProbeFrom(t, i, maxRetries, threshold, attempts, mailOk, render);
            match FirstSuccess(attempts, Bound(maxRetries))
            case Some(k) =>
              i <= k &&
              o == Outcome(t.(status := true, responseTime := attempts[k].latency),
                           Failures(t.url, k - i) + [Get(t.url)]
                           + SuccessEvents(t.url, attempts[k].latency, threshold, mailOk, render))
            case None =>
              o == Outcome(t.(status := false), Failures(t.url, Bound(maxRetries) - i))
    decreases Bound(maxRetries) - i
  {
    var n := Bound(maxRetries);
    var o := ProbeFrom(t, i, maxRetries, threshold, attempts, mailOk, render);
    if i == n {
      assert FirstSuccess(attempts, n).None?;
      assert o == Outcome(t.(status := false), []);
    } else if Succeeds(attempts[i]) {
      var latency := attempts[i].latency;
      assert FirstSuccess(attempts, n) == Some(i);
      assert o == Outcome(t.(status := true, responseTime := latency),
                          [Get(t.url)] + SuccessEvents(t.url, latency, threshold, mailOk, render));
      assert Failures(t.url, 0) == [];
    } else {
      ProbeFromMatchesFirstSuccess(t, i + 1, maxRetries, threshold, attempts, mailOk, render);
      var rest := ProbeFrom(t, i + 1, maxRetries, threshold, attempts, mailOk, render);
      assert o == Outcome(rest.site, [Get(t.url), Backoff] + rest.events);
      match FirstSuccess(attempts, n)
      case Some(k) =>
        assert Failures(t.url, k - i) == [Get(t.url), Backoff] + Failures(t.url, k - (i + 1));
        var success := SuccessEvents(t.url, attempts[k].latency, threshold, mailOk, render);
        AppendAssoc([Get(t.url), Backoff], Failures(t.url, k - (i + 1)) + [Get(t.url)], success);
        AppendAssoc([Get(t.url), Backoff], Failures(t.url, k - (i + 1)), [Get(t.url)]);
      case None =>
        assert Failures(t.url, n - i) == [Get(t.url), Backoff] + Failures(t.url, n - (i + 1));
    }
  }

  /** The whole probe, stated against the reference definition. */
  lemma ProbeMatchesFirstSuccess(t: Target, maxRetries: int, threshold: Duration, attempts: seq<Attempt>,
                                 mailOk: bool, render: Duration -> string)
    requires maxRetries <= |attempts|
    ensures var o := Probe(t, maxRetries, threshold, attempts, mailOk, render);
            match FirstSuccess(attempts, Bound(maxRetries))
            case Some(k) =>
              o == Outcome(t.(status := true, responseTime := attempts[k].latency),
                           Failures(t.url, k) + [Get(t.url)]
                           + SuccessEvents(t.url, attempts[k].latency, threshold, mailOk, render))
            case None =>
              o == Outcome(t.(status := false), Failures(t.url, Bound(maxRetries)))
  {
    ProbeFromMatchesFirstSuccess(t, 0, maxRetries, threshold, attempts, mailOk, render);
  }

  /** Failed attempts produce only requests and backoffs. */
  lemma {:induction false} FailuresShape(url: string, m: nat)
    ensures forall e :: e in Failures(url, m) ==> e == Get(url) || e == Backoff
  {
    if m > 0 {
      FailuresShape(url, m - 1);
    }
  }

  lemma {:induction false} FailuresCounts(url: string, m: nat)
    ensures Count(Failures(url, m), IsRequest) == m
    ensures Count(Failures(url, m), IsBackoff) == m
    ensures Count(Failures(url, m), IsMail) == 0
  {
    if m > 0 {
      FailuresCounts(url, m - 1);
      var step := [Get(url), Backoff];
      assert Filter(step, IsRequest) == [Get(url)];
      assert Filter(step, IsBackoff) == [Backoff];
      assert Filter(step, IsMail) == [];
      CountConcat(step, Failures(url, m - 1), IsRequest);
      CountConcat(step, Failures(url, m - 1), IsBackoff);
      CountConcat(step, Failures(url, m - 1), IsMail);
    }
  }

  lemma SuccessEventsFilters(url: string, latency: Duration, threshold: Duration, mailOk: bool,
                             render: Duration -> string)
    ensures var ev := SuccessEvents(url, latency, threshold, mailOk, render);
            Count(ev, IsRequest) == 0 && Count(ev, IsBackoff) == 0
            && Filter(ev, IsMail) == if latency > threshold then [SendMail(Admin, SlowSubject, SlowBody(url, render(latency)))] else []
  {
    var ev := SuccessEvents(url, latency, threshold, mailOk, render);
    var alert := SendMail(Admin, SlowSubject, SlowBody(url, render(latency)));
    FilterNone(ev, IsRequest);
    FilterNone(ev, IsBackoff);
    if latency > threshold {
      var tail := if mailOk then [] else [LogMailError];
      assert ev == [LogSlow(url, latency)] + ([alert] + tail);
      FilterNone(tail, IsMail);
      FilterConcat([alert], tail, IsMail);
      FilterConcat([LogSlow(url, latency)], [alert] + tail, IsMail);
      assert Filter([alert], IsMail) == [alert];
      assert Filter([LogSlow(url, latency)], IsMail) == [];
    } else {
      FilterNone(ev, IsMail);
    }
  }

  /**
   * What a successful attempt reports: the slow alert is its only mail and is
   * sent exactly when the latency is strictly above the threshold; a mail
   * error line follows exactly when that alert was refused; otherwise it logs
   * the latency line alone. It never logs a scan verdict.
   */
  lemma SuccessEventsSpec(url: string, latency: Duration, threshold: Duration, mailOk: bool,
                          render: Duration -> string)
    ensures var ev := SuccessEvents(url, latency, threshold, mailOk, render);
            Filter(ev, IsMail) == (if latency > threshold then [SendMail(Admin, SlowSubject, SlowBody(url, render(latency)))] else [])
            && (LogMailError in ev <==> latency > threshold && !mailOk)
            && (latency > threshold ==> ev[0] == LogSlow(url, latency))
            && (latency <= threshold ==> ev == [LogLatency(url, latency)])
            && Filter(ev, IsVerdict) == []
  {
    SuccessEventsFilters(url, latency, threshold, mailOk, render);
    var ev := SuccessEvents(url, latency, threshold, mailOk, render);
    FilterNone(ev, IsVerdict);
  }

  /** The successful attempt itself: one request, no backoff. */
  lemma SuccessTailCounts(url: string, latency: Duration, threshold: Duration, mailOk: bool,
                          render: Duration -> string)
    ensures var tail := [Get(url)] + SuccessEvents(url, latency, threshold, mailOk, render);
            Count(tail, IsRequest) == 1 && Count(tail, IsBackoff) == 0
  {
    var ev := SuccessEvents(url, latency, threshold, mailOk, render);
    SuccessEventsFilters(url, latency, threshold, mailOk, render);
    assert Filter([Get(url)], IsRequest) == [Get(url)];
    assert Filter([Get(url)], IsBackoff) == [];
    CountConcat([Get(url)], ev, IsRequest);
    CountConcat([Get(url)], ev, IsBackoff);
  }

  /**
   * The target's fields after a probe: it is up exactly when one of the first
   * maxRetries attempts succeeds, its response time is then the latency of the
   * first successful one, and otherwise the old response time stays; the URL
   * never changes.
   */
  lemma ProbeFields(t: Target, maxRetries: int, threshold: Duration, attempts: seq<Attempt>,
                    mailOk: bool, render: Duration -> string)
    requires maxRetries <= |attempts|
    ensures var o := Probe(t, maxRetries, threshold, attempts, mailOk, render);
            o.site.url == t.url
            && (o.site.status <==> exists j :: 0 <= j < maxRetries && Succeeds(attempts[j]))
            && (o.site.status ==>
                  exists k :: 0 <= k < maxRetries && Succeeds(attempts[k])
                              && (forall j :: 0 <= j < k ==> !Succeeds(attempts[j]))
                              && o.site.responseTime == attempts[k].latency)
            && (!o.site.status ==> o.site.responseTime == t.responseTime)
  {
    ProbeMatchesFirstSuccess(t, maxRetries, threshold, attempts, mailOk, render);
    var r := FirstSuccess(attempts, Bound(maxRetries));
    if r.Some? {
      assert Succeeds(attempts[r.value]);
    }
  }

  /**
   * The probe makes at most maxRetries requests and stops at the first
   * successful one; every failed attempt is followed by exactly one backoff.
   */
  lemma ProbeAttempts(t: Target, maxRetries: int, threshold: Duration, attempts: seq<Attempt>,
                      mailOk: bool, render: Duration -> string)
    requires maxRetries <= |attempts|
    ensures var o := Probe(t, maxRetries, threshold, attempts, mailOk, render);
            Count(o.events, IsRequest) <= Bound(maxRetries)
            && match FirstSuccess(attempts, Bound(maxRetries))
               case Some(k) => Count(o.events, IsRequest) == k + 1 && Count(o.events, IsBackoff) == k
               case None => Count(o.events, IsRequest) == Bound(maxRetries)
                            && Count(o.events, IsBackoff) == Bound(maxRetries)
  {
    ProbeMatchesFirstSuccess(t, maxRetries, threshold, attempts, mailOk, render);
    var o := Probe(t, maxRetries, threshold, attempts, mailOk, render);
    match FirstSuccess(attempts, Bound(maxRetries))
    case Some(k) =>
      var latency := attempts[k].latency;
      var tail := [Get(t.url)] + SuccessEvents(t.url, latency, threshold, mailOk, render);
      assert o.events == Failures(t.url, k) + tail;
      FailuresCounts(t.url, k);
      SuccessTailCounts(t.url, latency, threshold, mailOk, render);
      CountConcat(Failures(t.url, k), tail, IsRequest);
      CountConcat(Failures(t.url, k), tail, IsBackoff);
    case None =>
      FailuresCounts(t.url, Bound(maxRetries));
  }

  /**
   * The probe's only mail is one slow alert, sent exactly when the recorded
   * latency is strictly above the threshold (so none when every attempt
   * fails, and never a down alert); it goes to the administrator and names
   * the URL and the latency.
   */
  lemma ProbeSlowAlert(t: Target, maxRetries: int, threshold: Duration, attempts: seq<Attempt>,
                       mailOk: bool, render: Duration -> string)
    requires maxRetries <= |attempts|
    ensures var o := Probe(t, maxRetries, threshold, attempts, mailOk, render);
            Filter(o.events, IsMail)
            == if o.site.status && o.site.responseTime > threshold
               then [SendMail(Admin, SlowSubject, SlowBody(t.url, render(o.site.responseTime)))]
               else []
  {
    ProbeMatchesFirstSuccess(t, maxRetries, threshold, attempts, mailOk, render);
    var o := Probe(t, maxRetries, threshold, attempts, mailOk, render);
    match FirstSuccess(attempts, Bound(maxRetries))
    case Some(k) =>
      var latency := attempts[k].latency;
      var ev := SuccessEvents(t.url, latency, threshold, mailOk, render);
      FailuresShape(t.url, k);
      SuccessEventsFilters(t.url, latency, threshold, mailOk, render);
      FilterNone(Failures(t.url, k) + [Get(t.url)], IsMail);
      assert o.events == (Failures(t.url, k) + [Get(t.url)]) + ev;
      FilterConcat(Failures(t.url, k) + [Get(t.url)], ev, IsMail);
    case None =>
      FailuresShape(t.url, Bound(maxRetries));
      FilterNone(o.events, IsMail);
  }

  /** Counted: exactly one slow alert iff the latency is above the threshold, and no down alert. */
  lemma ProbeSlowAlertCount(t: Target, maxRetries: int, threshold: Duration, attempts: seq<Attempt>,
                            mailOk: bool, render: Duration -> string)
    requires maxRetries <= |attempts|
    ensures var o := Probe(t, maxRetries, threshold, attempts, mailOk, render);
            Count(o.events, IsSlowAlert) == (if o.site.status && o.site.responseTime > threshold then 1 else 0)
            && Count(o.events, IsDownAlert) == 0
  {
    var o := Probe(t, maxRetries, threshold, attempts, mailOk, render);
    ProbeSlowAlert(t, maxRetries, threshold, attempts, mailOk, render);
    FilterMailsOnly(o.events, IsSlowAlert);
    FilterMailsOnly(o.events, IsDownAlert);
  }

  /** With maxRetries zero or negative the loop body never runs: no request, and the target is down. */
  lemma ProbeNoRetries(t: Target, maxRetries: int, threshold: Duration, attempts: seq<Attempt>,
                       mailOk: bool, render: Duration -> string)
    requires maxRetries <= 0
    ensures var o := Probe(t, maxRetries, threshold, attempts, mailOk, render);
            o.events == [] && o.site == t.(status := false)
  {
  }
}
