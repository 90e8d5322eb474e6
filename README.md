# Web-Service-Monitor in Dafny

A model of the decision logic of a small website monitor. The monitor keeps
a list of websites. Each round it probes every website with a bounded number
of HTTP attempts, records whether the site is up and how long it took to
answer, and mails a slow alert when a successful answer took longer than the
configured threshold. After a fixed collection window it scans the list,
mails a down alert for every site marked down, logs a healthy line for every
other site, and sleeps for the configured interval.

The model is split by what it describes:

- `durations.dfy` (module `Durations`): Go's `time.Duration` as a signed
  64-bit count of nanoseconds. Multiplication wraps in two's complement. It
  also holds the two conversions the monitor performs: milliseconds to
  nanoseconds for the threshold, and seconds to nanoseconds for the pause.
- `sequences.dfy` (module `Sequences`): small facts about concatenation and
  slicing of sequences that the other modules share.
- `mail.dfy` (module `Mail`): the alert mail. It defines the recipient, the
  two subjects and the two bodies, and the message text handed to the mail
  relay. It adds a parser of that text, whose round trip with the builder is
  proved.
- `trace.dfy` (module `Trace`): the values everything else works on. These
  are an HTTP attempt's outcome, a target's fields, and the observable events
  in order: requests, sleeps, structured log lines and mails. It also defines
  `Filter` and `Count` over event traces.
- `probe.dfy` (module `Probes`): `checkWebsite` as a state machine over
  attempt outcomes (`ProbeFrom`, which is Attempting(i) → Success |
  Attempting(i + 1) | Exhausted). It is proved equal to a reference
  definition based on the first successful attempt (`FirstSuccess`). The
  lemmas state what a probe does to the target and which events it emits.
- `scan.dfy` (module `Scan`): the round-end scan as a function on values. It
  is proved against two reference definitions: one due alert per down
  target, and one verdict per target.
- `rounds.dfy` (module `Rounds`): one round and a run of several rounds, as
  functions on values, with the properties of a round's mails and verdicts.
- `monitor.dfy` (module `Monitor`): the imperative program. `Website` is a
  class whose `status` and `responseTime` are overwritten in place.
  `CheckWebsite` is the retry loop with its early return. `ScanResults` is
  the scan loop, `NewWebsites` the list construction in `main`, and
  `MonitorRound`, `MonitorRounds` and `StartMonitor` are the round loop and
  `main`. Each method is proved against the value-level function that
  specifies it.

The outside world is a parameter. Each target's HTTP outcomes in a round are
a sequence of `Attempt`s. Every mail send is a boolean saying whether the
relay accepted it. Go's text form of a `Duration` (`%v`) is the function
`render`. One round's answers form an `Environment`, and a run of N rounds
takes N environments.

## Model

| member | source | states |
|---|---|---|
| Durations.FromMillis | main.go:123 | the threshold `ResponseTimeMax * time.Millisecond` is the configured count times 1,000,000 ns whenever that fits in an int64, and is congruent to it modulo 2^64 otherwise |
| Durations.FromMillisMonotone | main.go:123 | inside the range that does not wrap, a larger configured threshold gives a larger (or equal) duration |
| Durations.FromMillisWraps | main.go:123 | one millisecond past that range the product wraps to a negative threshold |
| Durations.FromSeconds | main.go:69 | the pause `time.Duration(interval) * time.Second` is interval times 10^9 ns when that fits in an int64, and is congruent to it modulo 2^64 otherwise |
| Mail.SlowBody | main.go:35 | the slow alert's text: the URL, " is slow (Response time: ", the rendered latency and ")"; `ProbeSlowAlert` states that the slow alert carries it |
| Mail.DownBody | main.go:60 | the down alert's text: the URL followed by " is not responding"; `ScanMails` and `DueAlertsIndexed` state that every down alert carries it |
| Mail.Message | main.go:92-94 | the message is 15 characters longer than subject and body together, opens with the subject field and closes with CRLF; its partner is the parser `ParseMessage`, and `ParseMessageInverse` proves the two inverse for subjects without CRLF |
| Mail.MessageParses | main.go:92-94 | a message built from a subject without CRLF reads back as that subject and body |
| Mail.ParsedMessageIsBuilt | main.go:92-94 | whatever reads back as (subject, body) is exactly "Subject: " + subject + CRLF + CRLF + body + CRLF, and the subject has no CRLF |
| Mail.ParseMessageInverse | main.go:92-94 | building and reading back are inverse: a text reads back as (subject, body) if and only if it is the message built from them and the subject has no CRLF |
| Mail.AlertSubjectsAreHeaderSafe | main.go:35-60 | both alert subjects ("Website Slow Alert", "Website Down Alert") fit on the header line |
| Probes.FirstSuccess | main.go:27-30 | reference definition: the index of the first attempt among the first n with no error and status 200, or none exactly when all n fail |
| Probes.SuccessEvents | main.go:33-41 | what a successful attempt logs and mails: the slow line, the slow alert and, when the relay refuses it, the mail error line above the threshold; the latency line otherwise. Its own contract: a mail error line appears if and only if the latency is above the threshold and the relay refuses the alert; its full contract is `SuccessEventsSpec` |
| Probes.ProbeFrom | main.go:26-47 | the retry loop as a state machine: Attempting(i) goes to Success (one request, then the success events), to Attempting(i + 1) (one request and one backoff) or, when i reaches maxRetries, to Exhausted (status false). Its own contract: the URL is kept, and a target left down keeps its old response time; its full contract is `ProbeFromMatchesFirstSuccess` |
| Probes.Probe | main.go:26-47 | `checkWebsite`: the state machine started in Attempting(0). Its own contract: the URL is kept, a target left down keeps its old response time, and there are no events exactly when maxRetries is zero or less; its full contract is `ProbeMatchesFirstSuccess`, with `ProbeFields` and `ProbeAttempts` |
| Probes.ProbeFromRetries | main.go:29-44 | an unfolding of the state machine's definition, stated for readers: a failed attempt i is one request, then one one-second backoff, then the probe from attempt i + 1 |
| Probes.ProbeFromMatchesFirstSuccess | main.go:26-47 | from attempt i, with the earlier attempts failed, the state machine fails every attempt up to the first success and records it, or fails all of them and marks the target down |
| Probes.ProbeMatchesFirstSuccess | main.go:26-47 | the whole probe: k failures, one request and the success events when attempt k is the first success; maxRetries failures and status false when none succeeds |
| Probes.ProbeFields | main.go:30-46 | the URL never changes; the target is up if and only if one of the first maxRetries attempts succeeds; its response time is then the latency of the first success; otherwise the old response time stays |
| Probes.ProbeAttempts | main.go:27-44 | at most maxRetries requests; k + 1 requests and k backoffs when attempt k is the first success; maxRetries of each when none succeeds |
| Probes.SuccessEventsSpec | main.go:33-41 | after a successful attempt the only mail is the slow alert, sent exactly when the latency is strictly above the threshold, and preceded by the slow line; a mail error line appears exactly when that alert is refused; at or below the threshold the latency line is the only event; no scan verdict is logged |
| Probes.ProbeSlowAlert | main.go:33-41 | the probe's only mail is one slow alert to the administrator naming the URL and the latency, sent exactly when the target ends up with a latency strictly above the threshold |
| Probes.ProbeSlowAlertCount | main.go:33-46 | exactly one slow alert if and only if the recorded latency is strictly above the threshold, none when every attempt fails, and never a down alert |
| Probes.ProbeNoRetries | main.go:26-47 | an unfolding of the state machine's definition, stated for readers: with maxRetries of zero or less there is no request and the target is marked down with nothing else changed |
| Scan.SiteScan | main.go:58-66 | what the scan does for one target: the down line, the down alert and, when the relay refuses it, the mail error line for a target not up; the healthy line otherwise; its contract is `SiteScanFilters` (exactly one down alert for a target not up, and its verdict) |
| Scan.ScanTrace | main.go:57-67 | the scan over the list, target by target in list order. Its own contract: the scan emits nothing exactly when the list is empty; its full contract is `ScanMails` and `ScanVerdicts` |
| Scan.DueAlertsSpec | main.go:57-63 | membership: an alert for URL u is due if and only if some target with URL u has status false |
| Scan.DownIndicesSpec | main.go:57-58 | the down positions are exactly the targets with status false, each once, in increasing order |
| Scan.DueAlertsIndexed | main.go:57-63 | multiplicity and order: there are as many due alerts as down positions, and the j-th due alert is the down alert of the j-th down target, so two down targets with one URL give two alerts |
| Scan.NoDueAlertsWhenAllUp | main.go:57-66 | no alert is due when every target is up |
| Scan.ScanMails | main.go:57-64 | the scan's mails are exactly the due down alerts, in list order, whatever the relay answers |
| Scan.ScanVerdicts | main.go:57-67 | the scan logs one verdict per target, in list order: a refused mail does not stop the scan of later targets |
| Scan.ScanAlertsDownTargets | main.go:57-67 | every down target gets its alert; every mail of the scan belongs to a down target; the relay's answers change neither the alerts nor the verdicts |
| Rounds.ProbeAll | main.go:52-54 | the probing phase: every target probed in list order, each with its own attempts and relay answer, the events concatenated. Its own contract: the list keeps its length; its full contract is `ProbeAllTargets` and `ProbesUpToMails` |
| Rounds.Round | main.go:50-69 | one round: the start line, the probing phase, the five-second window, the scan of the probed targets, the waiting line and the pause. Its own contract: the list keeps its length; its full contract is `RoundStatuses`, `RoundMails` and `RoundVerdicts` |
| Rounds.Run | main.go:50-70 | a run of rounds, each starting from the targets the previous one left. Its own contract: the list keeps its length; its full contract is `HealthyRun` |
| Rounds.ProbeAllTargets | main.go:52-54 | after the probing phase each target is as its own probe leaves it |
| Rounds.RoundStatuses | main.go:52-58 | after a round each target keeps its URL and is up if and only if one of its first maxRetries attempts succeeded |
| Rounds.SlowAlerts | main.go:33-35 | reference definition: one slow alert per target that is up with a response time strictly above the threshold, in list order; it never has more alerts than targets |
| Rounds.ProbesUpToMails | main.go:33-54 | the mails of probing the first k targets are exactly the slow alerts of the targets those probes leave, in list order |
| Rounds.RoundMails | main.go:50-69 | the mails of a round are one slow alert per target left up with a response time strictly above the threshold, then one down alert per target left down, each group in list order |
| Rounds.ProbesUpToNoVerdict | main.go:26-47 | probing any prefix of the list logs no scan verdict, whatever the network and the relay answer |
| Rounds.RoundVerdicts | main.go:50-69 | the verdicts logged in a round are exactly one per target of the round's result, in list order: the healthy line for a target that is up, the down line otherwise |
| Rounds.HealthyRound | main.go:50-69 | a round over healthy targets sends no mail, leaves every target up with its URL, and logs one healthy line per target |
| Rounds.HealthyRun | main.go:50-70 | N rounds over targets that stay healthy send no mail and log N copies of the healthy lines |
| Monitor.Website.constructor | main.go:120 | a new website has its URL, status false and response time zero |
| Monitor.CheckWebsite | main.go:26-47 | the retry loop leaves the website in the state the probe specification gives and emits exactly its events |
| Monitor.ScanResults | main.go:57-67 | the scan loop emits exactly the scan trace of the websites' current fields |
| Monitor.NewWebsites | main.go:118-121 | one fresh, distinct website per configured URL, in order, each with only its URL set |
| Monitor.CheckNth | main.go:53 | probing website i gives it its probed state and changes no other website |
| Monitor.ProbeWebsites | main.go:52-54 | after the fan-out the websites hold the probing phase's targets, and the events are its events |
| Monitor.MonitorRound | main.go:50-69 | one round of the monitor loop gives the targets and events of the round specification |
| Monitor.MonitorRounds | main.go:50-70 | N rounds of the monitor loop give the targets and events of the run specification |
| Monitor.InitialTargets | main.go:118-121 | the starting list of `main`: one target per configured URL, in order, with status false and response time zero; it has as many targets as URLs, and `NewWebsites` builds websites whose fields are these targets |
| Monitor.StartMonitor | main.go:118-123 | main starts from the configured URLs, all down, and the threshold converted from milliseconds, then runs the rounds |

## Left out

- The goroutine fan-out and the five-second collection window (main.go:53-55). The probes run one after the other, in list order, and each one finishes before the scan reads its target. In the source a probe still running after five seconds races with the scan, which then sees the status written earlier (in an earlier round, or the initial false). The model does not capture that race or the order in which concurrent probes' events interleave. The five-second sleep is still recorded as an event.
- The endless `for {}` of `monitorWebsites` (main.go:50): the model runs one round per given environment, for any finite number of rounds.
- `http.Get`, `time.Now`, `time.Since` and `time.Sleep`: network and clock I/O. The outcomes of the attempts are inputs, and sleeps are recorded as events.
- The SMTP transport and the environment lookups of `sendEmailAlert` (main.go:87-90, main.go:96-102). Each send is an input saying whether it succeeds. The message text is modelled, as is the error log line written when a send fails.
- `loadConfig`'s JSON decoding, opening and redirecting the log file, and `log.Fatal` (main.go:73-84, main.go:106-116): file I/O and process exit. `StartMonitor` takes the decoded configuration.
- The exact wording of the log lines and Go's `%v` rendering of a Duration. Log lines are structured events, and the rendering is the parameter `render`.
- The response body that is never closed (main.go:29-30): a resource leak with no effect on the logic.
- The message bytes. Go builds the message as a `[]byte` (main.go:92), while the model keeps strings as sequences of characters. UTF-8 encodes a concatenation as the concatenation of the encodings, and the bytes of CR and LF never occur inside a multi-byte sequence. The fixed parts of the message are ASCII, so its length in bytes is that of subject and body plus 15, as `Message` states for characters, and `NoCrlf` on the subject carries over to its bytes.
- Go's `int` for `maxRetries` is unbounded in the model, because the loop counter never exceeds it. `interval` and `ResponseTimeMax` are int64, because wrap-around matters when they are multiplied.
