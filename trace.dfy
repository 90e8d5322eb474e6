/**
 * The values the monitor works on: what one HTTP attempt gives back, the
 * observed state of a target, and the observable events (requests, sleeps,
 * log lines, mails) that a probe or a round produces, in order.
 */
module Trace {
  import opened Durations
  import opened Mail
  import opened Sequences

  /** One `http.Get` as the probe sees it: a transport error, or a response with its status code and the latency `time.Since` measured. */
  datatype Attempt = TransportError | Response(statusCode: int, latency: Duration)

  /** The fields of a Website: URL, up/down status and last measured response time. */
  datatype Target = Target(url: string, status: bool, responseTime: Duration)

  /** Observable effects. Log lines are kept structured; their exact wording is not modelled. */
  datatype Event =
    | Get(url: string)                                    // one HTTP request to the target
    | Sleep(duration: Duration)                           // time.Sleep of the collection window or of the interval
    | Backoff                                             // time.Sleep(time.Second) between failed attempts
    | SendMail(to: string, subject: string, body: string) // one call of sendEmailAlert
    | LogRoundStart                                       // "Starting website verification..."
    | LogSlow(url: string, latency: Duration)             // "ALERT: ... is slow ..."
    | LogLatency(url: string, latency: Duration)          // "Response time for ..."
    | LogDown(url: string)                                // "ALERT: ... is not responding"
    | LogHealthy(url: string)                             // "... is functioning correctly"
    | LogMailError                                        // "Error sending email alert: ..."
    | LogWaiting(interval: int64)                         // "Waiting ... seconds ..."

  /** The events of `events` that satisfy `p`, in order. */
  function Filter(events: seq<Event>, p: Event -> bool): (r: seq<Event>)
    ensures |r| <= |events|
  {
    if events == [] then []
    else (if p(events[0]) then [events[0]] else []) + Filter(events[1..], p)
  }

  lemma {:induction false} FilterConcat(a: seq<Event>, b: seq<Event>, p: Event -> bool)
    ensures Filter(a + b, p) == Filter(a, p) + Filter(b, p)
  {
    if a == [] {
      assert a + b == b;
    } else {
      var h := if p(a[0]) then [a[0]] else [];
      assert (a + b)[0] == a[0] && (a + b)[1..] == a[1..] + b;
      FilterConcat(a[1..], b, p);
      calc {
        Filter(a + b, p);
        h + Filter(a[1..] + b, p);
        h + (Filter(a[1..], p) + Filter(b, p));
        (h + Filter(a[1..], p)) + Filter(b, p);
        Filter(a, p) + Filter(b, p);
      }
    }
  }

  /** Filtering a trace made of five parts filters each part. */
  lemma FilterFive(a: seq<Event>, b: seq<Event>, c: seq<Event>, d: seq<Event>, e: seq<Event>, p: Event -> bool)
    ensures Filter(a + b + c + d + e, p) == Filter(a, p) + Filter(b, p) + Filter(c, p) + Filter(d, p) + Filter(e, p)
  {
    FilterConcat(a, b, p);
    FilterConcat(a + b, c, p);
    FilterConcat(a + b + c, d, p);
    FilterConcat(a + b + c + d, e, p);
  }

  /** Filtering a trace of five parts of which the first, third and fifth keep nothing. */
  lemma FilterBetween(a: seq<Event>, b: seq<Event>, c: seq<Event>, d: seq<Event>, e: seq<Event>, p: Event -> bool)
    requires Filter(a, p) == [] && Filter(c, p) == [] && Filter(e, p) == []
    ensures Filter(a + b + c + d + e, p) == Filter(b, p) + Filter(d, p)
  {
    FilterFive(a, b, c, d, e, p);
    DropEmpties(Filter(b, p), Filter(d, p));
  }

  /** When no event satisfies `p`, filtering keeps none. */
  lemma {:induction false} FilterNone(events: seq<Event>, p: Event -> bool)
    requires forall e :: e in events ==> !p(e)
    ensures Filter(events, p) == []
  {
    if events != [] {
      FilterNone(events[1..], p);
    }
  }

  /** Filtering keeps only events of the input that satisfy `p`. */
  lemma {:induction false} FilterMembers(events: seq<Event>, p: Event -> bool)
    ensures forall e :: e in Filter(events, p) ==> p(e) && e in events
  {
    if events != [] {
      FilterMembers(events[1..], p);
    }
  }

  /** Filtering loses no event that satisfies `p`. */
  lemma {:induction false} FilterKeeps(events: seq<Event>, p: Event -> bool, e: Event)
    requires e in events && p(e)
    ensures e in Filter(events, p)
  {
    if events[0] != e {
      FilterKeeps(events[1..], p, e);
    }
  }

  /** A predicate that holds only of mails sees the same events in the mails alone. */
  lemma {:induction false} FilterMailsOnly(events: seq<Event>, p: Event -> bool)
    requires forall e :: p(e) ==> IsMail(e)
    ensures Filter(events, p) == Filter(Filter(events, IsMail), p)
  {
    if events != [] {
      var head, rest := [events[0]], events[1..];
      assert events == head + rest;
      FilterMailsOnly(rest, p);
      FilterConcat(head, rest, p);
      FilterConcat(head, rest, IsMail);
      FilterConcat(Filter(head, IsMail), Filter(rest, IsMail), p);
      assert Filter(Filter(head, IsMail), p) == Filter(head, p);
    }
  }

  function Count(events: seq<Event>, p: Event -> bool): nat {
    |Filter(events, p)|
  }

  lemma CountConcat(a: seq<Event>, b: seq<Event>, p: Event -> bool)
    ensures Count(a + b, p) == Count(a, p) + Count(b, p)
  {
    FilterConcat(a, b, p);
  }

  predicate IsRequest(e: Event) { e.Get? }
  /** The one-second pause between failed attempts. */
  predicate IsBackoff(e: Event) { e.Backoff? }
  predicate IsMail(e: Event) { e.SendMail? }
  predicate IsSlowAlert(e: Event) { e.SendMail? && e.subject == SlowSubject }
  predicate IsDownAlert(e: Event) { e.SendMail? && e.subject == DownSubject }
  /** The per-target verdict logged by the round-end scan. */
  predicate IsVerdict(e: Event) { e.LogDown? || e.LogHealthy? }
}
