/**
 * The alert mail of sendEmailAlert: who receives it, its two subjects, its
 * bodies and the message text handed to the mail relay.
 */
module Mail {
  import opened Optional
  import opened Sequences

  const Admin := "admin@example.com"
  const SlowSubject := "Website Slow Alert"
  const DownSubject := "Website Down Alert"

  /** Body of the slow alert; `latencyText` is the latency as Go's `%v` renders a Duration. */
  function SlowBody(url: string, latencyText: string): string {
    url + " is slow (Response time: " + latencyText + ")"
  }

  /** Body of the down alert. */
  function DownBody(url: string): string {
    url + " is not responding"
  }

  const SubjectField := "Subject: "
  const Crlf := "\r\n"

  /** The message bytes: one Subject header line, an empty line, the body and a final CRLF. */
  function Message(subject: string, body: string): (m: string)
    ensures |m| == |subject| + |body| + 15
    ensures m[..|SubjectField|] == SubjectField && m[|m| - |Crlf|..] == Crlf
  {
    SubjectField + subject + Crlf + Crlf + body + Crlf
  }

  predicate IsCrlfAt(s: string, k: int) {
    0 <= k && k + 1 < |s| && s[k] == '\r' && s[k + 1] == '\n'
  }

  /** A header value must not contain a line break, or it would end the header early. */
  predicate NoCrlf(s: string) {
    forall k :: 0 <= k < |s| ==> !IsCrlfAt(s, k)
  }

  /** The position of the first CRLF in `s`, if any. */
  function FindCrlf(s: string): (r: Option<nat>)
    ensures r.Some? ==> IsCrlfAt(s, r.value) && forall j :: 0 <= j < r.value ==> !IsCrlfAt(s, j)
    ensures r.None? ==> NoCrlf(s)
  {
    if |s| < 2 then None
    else if s[0] == '\r' && s[1] == '\n' then Some(0)
    else
      assert forall j :: 1 <= j < |s| ==> IsCrlfAt(s, j) == IsCrlfAt(s[1..], j - 1);
      match FindCrlf(s[1..])
      case None => None
      case Some(k) => Some(k + 1)
  }

  /** How a receiver reads the message back: the subject header, then the body. */
  function ParseMessage(m: string): Option<(string, string)> {
    if |m| < |SubjectField| || m[..|SubjectField|] != SubjectField then None
    else
      var rest := m[|SubjectField|..];
      match FindCrlf(rest)
      case None => None
      case Some(k) =>
        var tail := rest[k + 2..];
        if |tail| >= 4 && tail[..2] == Crlf && tail[|tail| - 2..] == Crlf
        then Some((rest[..k], tail[2..|tail| - 2]))
        else None
  }

  /** In a line break-free subject followed by a CRLF, the first CRLF is the one right after the subject. */
  lemma FirstCrlfEndsSubject(subject: string, suffix: string)
    requires NoCrlf(subject) && |suffix| >= 2 && suffix[..2] == Crlf
    ensures FindCrlf(subject + suffix) == Some(|subject|)
  {
    var s := subject + suffix;
    assert s[|subject|] == '\r' && s[|subject| + 1] == '\n';
    forall j | 0 <= j < |subject|
      ensures !IsCrlfAt(s, j)
    {
      if j + 1 < |subject| {
        assert !IsCrlfAt(subject, j);
      } else {
        assert s[j + 1] == '\r';
      }
    }
    assert IsCrlfAt(s, |subject|);
    match FindCrlf(s)
    case None =>
      assert false;
    case Some(k) =>
      if k < |subject| {
        assert false;
      } else if k > |subject| {
        assert false;
      }
  }

  /** A message whose subject has no line break is read back as the subject and body it was built from. */
  lemma MessageParses(subject: string, body: string)
    requires NoCrlf(subject)
    ensures ParseMessage(Message(subject, body)) == Some((subject, body))
  {
    var m := Message(subject, body);
    var tail := Crlf + body + Crlf;
    var rest := subject + (Crlf + tail);
    assert m == SubjectField + rest by {
      Regroup(SubjectField, subject, Crlf, Crlf, body, Crlf);
    }
    Split(SubjectField, rest);
    FirstCrlfEndsSubject(subject, Crlf + tail);
    assert FindCrlf(rest) == Some(|subject|);
    Split(subject, Crlf + tail);
    Split(Crlf, tail);
    assert rest[|subject| + 2..] == tail by {
      assert rest[|subject| + 2..] == rest[|subject|..][2..];
    }
    Outer(Crlf, body, Crlf);
  }

  /** Whatever parses was built by Message from the parsed subject and body. */
  lemma ParsedMessageIsBuilt(m: string, subject: string, body: string)
    requires ParseMessage(m) == Some((subject, body))
    ensures NoCrlf(subject) && m == Message(subject, body)
  {
    var h := |SubjectField|;
    assert |m| >= h && m[..h] == SubjectField;
    var rest := m[h..];
    var k := FindCrlf(rest).value;
    assert IsCrlfAt(rest, k);
    var tail := rest[k + 2..];
    assert |tail| >= 4 && tail[..2] == Crlf && tail[|tail| - 2..] == Crlf;
    assert subject == rest[..k] && body == tail[2..|tail| - 2];
    forall j | 0 <= j < |subject|
      ensures !IsCrlfAt(subject, j)
    {
      assert !IsCrlfAt(rest, j);
    }
    CrlfSlice(rest, k);
    calc {
      m;
      { Cut(m, h, h); }
      SubjectField + rest;
      { Cut(rest, k, k + 2); }
      SubjectField + ((subject + Crlf) + tail);
      { Cut(tail, 2, |tail| - 2); }
      SubjectField + ((subject + Crlf) + ((Crlf + body) + Crlf));
      { Regroup(SubjectField, subject, Crlf, Crlf, body, Crlf); }
      Message(subject, body);
    }
  }

  lemma CrlfSlice(s: string, k: int)
    requires IsCrlfAt(s, k)
    ensures s[k..k + 2] == Crlf
  {
    assert s[k..k + 2] == [s[k], s[k + 1]];
  }

  /** Message and ParseMessage are inverse: a message parses into (subject, body) exactly when it was built from them. */
  lemma ParseMessageInverse(m: string, subject: string, body: string)
    ensures ParseMessage(m) == Some((subject, body)) <==> NoCrlf(subject) && m == Message(subject, body)
  {
    if NoCrlf(subject) && m == Message(subject, body) {
      MessageParses(subject, body);
    }
    if ParseMessage(m) == Some((subject, body)) {
      ParsedMessageIsBuilt(m, subject, body);
    }
  }

  /** Both alert subjects fit on the header line. */
  lemma AlertSubjectsAreHeaderSafe()
    ensures NoCrlf(SlowSubject) && NoCrlf(DownSubject)
  {
  }
}
