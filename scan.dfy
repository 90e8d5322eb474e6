/**
 * The round-end scan of monitorWebsites: one pass over the targets in list
 * order, a down alert for every target whose status is false and a healthy
 * log line for every other one. A mail the relay refuses is logged and the
 * scan goes on.
 */
module Scan {
  import opened Mail
  import opened Trace

  function DownAlert(url: string): Event {
    SendMail(Admin, DownSubject, DownBody(url))
  }

  /** What the scan does for one target; `mailOk` says whether the relay accepts its alert. */
  function SiteScan(t: Target, mailOk: bool): seq<Event> {
    if !t.status then
      [LogDown(t.url), DownAlert(t.url)] + (if mailOk then [] else [LogMailError])
    else
      [LogHealthy(t.url)]
  }

  /** The scan over `ts`, where `mailOk[i]` is the relay's answer for target i. */
  function ScanTrace(ts: seq<Target>, mailOk: seq<bool>): (r: seq<Event>)
    requires |mailOk| == |ts|
    ensures r == [] <==> ts == []
  {
    if ts == [] then []
    else
      var n := |ts| - 1;
      ScanTrace(ts[..n], mailOk[..n]) + SiteScan(ts[n], mailOk[n])
  }

  /** Reference definition: the down alerts that are due, one per target not marked up, in list order. */
  function DueAlerts(ts: seq<Target>): seq<Event> {
    if ts == [] then []
    else
      var n := |ts| - 1;
      DueAlerts(ts[..n]) + (if ts[n].status then [] else [DownAlert(ts[n].url)])
  }

  /** The positions of the targets not marked up, in increasing order. */
  function DownIndices(ts: seq<Target>): (r: seq<nat>)
    ensures forall j :: 0 <= j < |r| ==> r[j] < |ts|
  {
    if ts == [] then []
    else
      var n := |ts| - 1;
      DownIndices(ts[..n]) + (if ts[n].status then [] else [n])
  }

  /** The verdict the scan logs for a target. */
  function Verdict(t: Target): Event {
    if t.status then LogHealthy(t.url) else LogDown(t.url)
  }

  /** Reference definition: one verdict per target, in list order. */
  function Verdicts(ts: seq<Target>): (r: seq<Event>)
    ensures |r| == |ts| && forall i :: 0 <= i < |ts| ==> r[i] == Verdict(ts[i])
  {
    seq(|ts|, i requires 0 <= i < |ts| => Verdict(ts[i]))
  }

  /** Every alert due belongs to a target that is down. */
  lemma {:induction false} DueAlertOwner(ts: seq<Target>, e: Event)
    requires e in DueAlerts(ts)
    ensures exists i :: 0 <= i < |ts| && !ts[i].status && e == DownAlert(ts[i].url)
  {
    var n := |ts| - 1;
    if e in DueAlerts(ts[..n]) {
      DueAlertOwner(ts[..n], e);
      var i :| 0 <= i < n && !ts[..n][i].status && e == DownAlert(ts[..n][i].url);
      assert ts[i] == ts[..n][i];
    } else {
      assert !ts[n].status && e == DownAlert(ts[n].url);
    }
  }

  /** Every target that is down has its alert due. */
  lemma {:induction false} DueAlertFor(ts: seq<Target>, i: nat)
    requires i < |ts| && !ts[i].status
    ensures DownAlert(ts[i].url) in DueAlerts(ts)
  {
    var n := |ts| - 1;
    if i < n {
      DueAlertFor(ts[..n], i);
      assert ts[..n][i] == ts[i];
    }
  }

  /** The alerts due are exactly one per down target: each down target has one, and each alert belongs to a down target. */
  lemma DueAlertsSpec(ts: seq<Target>)
    ensures forall e :: e in DueAlerts(ts) <==> exists i :: 0 <= i < |ts| && !ts[i].status && e == DownAlert(ts[i].url)
  {
    forall e | e in DueAlerts(ts)
      ensures exists i :: 0 <= i < |ts| && !ts[i].status && e == DownAlert(ts[i].url)
    {
      DueAlertOwner(ts, e);
    }
    forall e | exists i :: 0 <= i < |ts| && !ts[i].status && e == DownAlert(ts[i].url)
      ensures e in DueAlerts(ts)
    {
      var i :| 0 <= i < |ts| && !ts[i].status && e == DownAlert(ts[i].url);
      DueAlertFor(ts, i);
    }
  }

  /**
   * The down positions are exactly the targets not marked up, each once and
   * in list order.
   */
  lemma {:induction false} DownIndicesSpec(ts: seq<Target>)
    ensures var d := DownIndices(ts);
            (forall j :: 0 <= j < |d| ==> !ts[d[j]].status)
            && (forall j, k :: 0 <= j < k < |d| ==> d[j] < d[k])
            && (forall i :: 0 <= i < |ts| && !ts[i].status ==> i in d)
  {
    if ts != [] {
      var n := |ts| - 1;
      DownIndicesSpec(ts[..n]);
      var d0 := DownIndices(ts[..n]);
      forall j | 0 <= j < |d0|
        ensures ts[d0[j]] == ts[..n][d0[j]]
      {
      }
    }
  }

  /**
   * The alerts due, position by position: the j-th is the down alert of the
   * j-th target not marked up. Two down targets with the same URL give two
   * alerts.
   */
  lemma {:induction false} DueAlertsIndexed(ts: seq<Target>)
    ensures |DueAlerts(ts)| == |DownIndices(ts)|
    ensures forall j :: 0 <= j < |DueAlerts(ts)| ==> DueAlerts(ts)[j] == DownAlert(ts[DownIndices(ts)[j]].url)
  {
    if ts != [] {
      var n := |ts| - 1;
      DueAlertsIndexed(ts[..n]);
      var a0, d0 := DueAlerts(ts[..n]), DownIndices(ts[..n]);
      forall j | 0 <= j < |a0|
        ensures a0[j] == DownAlert(ts[d0[j]].url)
      {
        assert ts[..n][d0[j]] == ts[d0[j]];
      }
    }
  }

  /** No alert is due when every target is up. */
  lemma {:induction false} NoDueAlertsWhenAllUp(ts: seq<Target>)
    requires forall i :: 0 <= i < |ts| ==> ts[i].status
    ensures DueAlerts(ts) == []
  {
    if ts != [] {
      var n := |ts| - 1;
      assert forall i :: 0 <= i < n ==> ts[..n][i] == ts[i];
      NoDueAlertsWhenAllUp(ts[..n]);
    }
  }

  lemma SiteScanFilters(t: Target, mailOk: bool)
    ensures Filter(SiteScan(t, mailOk), IsMail) == if t.status then [] else [DownAlert(t.url)]
    ensures Filter(SiteScan(t, mailOk), IsVerdict) == [Verdict(t)]
  {
    var ev := SiteScan(t, mailOk);
    if !t.status {
      var tail := if mailOk then [] else [LogMailError];
      assert ev == [LogDown(t.url)] + ([DownAlert(t.url)] + tail);
      FilterNone(tail, IsMail);
      FilterNone(tail, IsVerdict);
      FilterConcat([DownAlert(t.url)], tail, IsMail);
      FilterConcat([DownAlert(t.url)], tail, IsVerdict);
      FilterConcat([LogDown(t.url)], [DownAlert(t.url)] + tail, IsMail);
      FilterConcat([LogDown(t.url)], [DownAlert(t.url)] + tail, IsVerdict);
      assert Filter([DownAlert(t.url)], IsMail) == [DownAlert(t.url)];
      assert Filter([DownAlert(t.url)], IsVerdict) == [];
      assert Filter([LogDown(t.url)], IsMail) == [];
      assert Filter([LogDown(t.url)], IsVerdict) == [LogDown(t.url)];
    } else {
      assert Filter(ev, IsMail) == [];
    }
  }

  /** The mails of the scan are exactly the due down alerts, in list order, whatever the relay answers. */
  lemma {:induction false} ScanMails(ts: seq<Target>, mailOk: seq<bool>)
    requires |mailOk| == |ts|
    ensures Filter(ScanTrace(ts, mailOk), IsMail) == DueAlerts(ts)
  {
    if ts != [] {
      var n := |ts| - 1;
      ScanMails(ts[..n], mailOk[..n]);
      SiteScanFilters(ts[n], mailOk[n]);
      FilterConcat(ScanTrace(ts[..n], mailOk[..n]), SiteScan(ts[n], mailOk[n]), IsMail);
    }
  }

  /** Every target gets its verdict, in list order: a refused mail does not stop the scan of later targets. */
  lemma {:induction false} ScanVerdicts(ts: seq<Target>, mailOk: seq<bool>)
    requires |mailOk| == |ts|
    ensures Filter(ScanTrace(ts, mailOk), IsVerdict) == Verdicts(ts)
  {
    if ts != [] {
      var n := |ts| - 1;
      ScanVerdicts(ts[..n], mailOk[..n]);
      SiteScanFilters(ts[n], mailOk[n]);
      FilterConcat(ScanTrace(ts[..n], mailOk[..n]), SiteScan(ts[n], mailOk[n]), IsVerdict);
      VerdictsSnoc(ts);
    }
  }

  lemma VerdictsSnoc(ts: seq<Target>)
    requires ts != []
    ensures Verdicts(ts) == Verdicts(ts[..|ts| - 1]) + [Verdict(ts[|ts| - 1])]
  {
    var n := |ts| - 1;
    var v := Verdicts(ts[..n]) + [Verdict(ts[n])];
    forall i | 0 <= i < |ts|
      ensures v[i] == Verdicts(ts)[i]
    {
      if i < n {
        assert v[i] == Verdicts(ts[..n])[i] == Verdict(ts[..n][i]);
      }
    }
  }

  /**
   * A down alert is mailed for every target whose status is false and for no
   * target whose status is true, and the relay's answers change neither the
   * alerts nor the verdicts.
   */
  lemma ScanAlertsDownTargets(ts: seq<Target>, mailOk: seq<bool>, otherMailOk: seq<bool>)
    requires |mailOk| == |ts| && |otherMailOk| == |ts|
    ensures forall i :: 0 <= i < |ts| && !ts[i].status ==> DownAlert(ts[i].url) in ScanTrace(ts, mailOk)
    ensures forall e :: e in ScanTrace(ts, mailOk) && IsMail(e) ==>
              exists i :: 0 <= i < |ts| && !ts[i].status && e == DownAlert(ts[i].url)
    ensures Filter(ScanTrace(ts, mailOk), IsMail) == Filter(ScanTrace(ts, otherMailOk), IsMail)
    ensures Filter(ScanTrace(ts, mailOk), IsVerdict) == Filter(ScanTrace(ts, otherMailOk), IsVerdict)
  {
    ScanMails(ts, mailOk);
    ScanMails(ts, otherMailOk);
    ScanVerdicts(ts, mailOk);
    ScanVerdicts(ts, otherMailOk);
    var events := ScanTrace(ts, mailOk);
    forall i | 0 <= i < |ts| && !ts[i].status
      ensures DownAlert(ts[i].url) in events
    {
      DueAlertFor(ts, i);
      FilterMembers(events, IsMail);
    }
    forall e | e in events && IsMail(e)
      ensures exists i :: 0 <= i < |ts| && !ts[i].status && e == DownAlert(ts[i].url)
    {
      FilterKeeps(events, IsMail, e);
      DueAlertOwner(ts, e);
    }
  }
}
