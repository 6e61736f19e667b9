/**
 * The two payment-email flows (submitted and approved). The text the language
 * model generates and the result the mail transport reports are inputs; the
 * model states what request the flow hands to the transport, if any, and
 * what it reports back.
 */
module PaymentEmails {
  import opened FundTypes

  datatype EmailKind = Submitted | Approved

  /** The flow input: who receives the mail and for which event. */
  datatype EmailInput = EmailInput(studentName: string, studentEmail: string, eventName: string, amount: int)

  /** What sendEmail is given: `{to, subject, html}`. */
  datatype MailRequest = MailRequest(to: string, subject: string, html: string)

  /** What sendEmail returns: success, and a message that may be absent. */
  datatype TransportResult = TransportResult(success: bool, message: Option<string>)

  /** The flow's output, `{success, message}`. */
  datatype FlowOutput = FlowOutput(success: bool, message: string)

  /** One run of a flow: the mail requests it made and what it returned. */
  datatype FlowRun = FlowRun(sent: seq<MailRequest>, output: FlowOutput)

  const GenerationFailedMessage: string := "Failed to generate email content."
  const SendFailedMessage: string := "Failed to send email."

  const SubjectHead: string := "Your payment for \""
  const SubmittedTail: string := "\" has been submitted"
  const ApprovedTail: string := "\" has been approved!"

  function SubjectTail(kind: EmailKind): string
  {
    match kind
    case Submitted => SubmittedTail
    case Approved => ApprovedTail
  }

  /** The subject line: the event name in double quotes, then what happened. */
  function Subject(kind: EmailKind, eventName: string): (s: string)
    ensures SubjectHead <= s
    ensures |s| == |SubjectHead| + |eventName| + |SubjectTail(kind)|
  {
    SubjectHead + eventName + SubjectTail(kind)
  }

  /** Reads the event name back out of a subject of the given kind. */
  function EventNameOfSubject(kind: EmailKind, s: string): Option<string>
  {
    var tail := SubjectTail(kind);
    if |s| < |SubjectHead| + |tail| then None
    else if s[..|SubjectHead|] != SubjectHead || s[|s| - |tail|..] != tail then None
    else Some(s[|SubjectHead|..|s| - |tail|])
  }

  /** The subject determines the event name. */
  lemma SubjectRoundTrip(kind: EmailKind, eventName: string)
    ensures EventNameOfSubject(kind, Subject(kind, eventName)) == Some(eventName)
  {
    var s := Subject(kind, eventName);
    var tail := SubjectTail(kind);
    assert s == SubjectHead + eventName + tail;
    assert s[..|SubjectHead|] == SubjectHead;
    assert s[|s| - |tail|..] == tail;
    assert s[|SubjectHead|..|s| - |tail|] == eventName;
  }

  /** A submitted subject and an approved subject are never equal. */
  lemma SubjectsDiffer(name1: string, name2: string)
    ensures Subject(Submitted, name1) != Subject(Approved, name2)
  {
    var s1, s2 := Subject(Submitted, name1), Subject(Approved, name2);
    assert s1[|s1| - 1] == 'd';
    assert s2[|s2| - 1] == '!';
  }

  /** `body.replace(/\n/g, '<br>')`. */
  function NewlinesToBreaks(body: string): (html: string)
    ensures '\n' !in html
    ensures '\n' !in body ==> html == body
    ensures |html| >= |body|
  {
    if body == [] then []
    else if body[0] == '\n' then "<br>" + NewlinesToBreaks(body[1..])
    else [body[0]] + NewlinesToBreaks(body[1..])
  }

  /** The replacement works piece by piece, so it pins the html for any body, '<' included. */
  lemma {:induction false} NewlinesToBreaksAppend(a: string, b: string)
    ensures NewlinesToBreaks(a + b) == NewlinesToBreaks(a) + NewlinesToBreaks(b)
  {
    if a == [] {
      assert a + b == b;
    } else {
      assert (a + b)[0] == a[0];
      assert (a + b)[1..] == a[1..] + b;
      NewlinesToBreaksAppend(a[1..], b);
    }
  }

  /** A newline becomes exactly "<br>"; any other character is kept. */
  lemma NewlinesToBreaksChar(c: char)
    ensures NewlinesToBreaks([c]) == if c == '\n' then "<br>" else [c]
  {
    assert [c][1..] == [];
  }

  /** Turns each "<br>" back into a newline. */
  function BreaksToNewlines(html: string): string
  {
    if html == [] then []
    else if "<br>" <= html then "\n" + BreaksToNewlines(html[4..])
    else [html[0]] + BreaksToNewlines(html[1..])
  }

  /** For a body without '<', no information is lost by the replacement. */
  lemma {:induction false} BreaksRoundTrip(body: string)
    requires '<' !in body
    ensures BreaksToNewlines(NewlinesToBreaks(body)) == body
  {
    if body != [] {
      assert '<' !in body[1..];
      BreaksRoundTrip(body[1..]);
      var rest := NewlinesToBreaks(body[1..]);
      if body[0] == '\n' {
        var html := "<br>" + rest;
        assert "<br>" <= html;
        assert html[4..] == rest;
      } else {
        var html := [body[0]] + rest;
        assert html[0] == body[0] && html[0] != '<';
        assert html[1..] == rest;
      }
    }
  }

  /** The message reported after the transport accepted the mail. */
  function SentMessage(studentEmail: string): string
  {
    "Email successfully sent to " + studentEmail + "."
  }

  /** The request a flow sends once it has a body. */
  function MailFor(kind: EmailKind, input: EmailInput, body: string): (m: MailRequest)
    ensures m.to == input.studentEmail
    ensures m.subject == Subject(kind, input.eventName)
    ensures m.html == NewlinesToBreaks(body)
    ensures '\n' !in m.html
  {
    MailRequest(input.studentEmail, Subject(kind, input.eventName), NewlinesToBreaks(body))
  }

  /** Maps the transport's result to the flow's output. */
  function Outcome(input: EmailInput, t: TransportResult): (out: FlowOutput)
    ensures out.success == t.success
    ensures out.success ==> out.message == SentMessage(input.studentEmail)
    ensures !out.success && t.message.Some? && t.message.value != "" ==> out.message == t.message.value
    ensures !out.success && (t.message.None? || t.message.value == "") ==> out.message == SendFailedMessage
    ensures out.message != ""
  {
    if t.success then FlowOutput(true, SentMessage(input.studentEmail))
    else if t.message.Some? && t.message.value != "" then FlowOutput(false, t.message.value)
    else FlowOutput(false, SendFailedMessage)
  }

  /**
   * A flow: an empty generated body fails with no mail sent; otherwise
   * exactly one mail goes out and the transport's result decides the output.
   */
  function RunFlow(kind: EmailKind, input: EmailInput, body: string, transport: TransportResult): (run: FlowRun)
    ensures |run.sent| <= 1
    ensures body == "" ==> run.sent == [] && run.output == FlowOutput(false, GenerationFailedMessage)
    ensures body != "" ==> run.sent == [MailFor(kind, input, body)] && run.output == Outcome(input, transport)
    ensures run.output.success <==> body != "" && transport.success
    ensures run.output.success ==> |run.sent| == 1 && run.sent[0].to == input.studentEmail &&
                                   run.output.message == SentMessage(input.studentEmail)
    ensures run.output.message != ""
  {
    if body == "" then FlowRun([], FlowOutput(false, GenerationFailedMessage))
    else FlowRun([MailFor(kind, input, body)], Outcome(input, transport))
  }

  /** sendPaymentConfirmationEmailFlow. */
  function SendPaymentConfirmationEmail(input: EmailInput, body: string, transport: TransportResult): (run: FlowRun)
    ensures body != "" ==>
      (|run.sent| == 1 && run.sent[0].subject == "Your payment for \"" + input.eventName + "\" has been submitted")
    ensures run.output.success <==> body != "" && transport.success
  {
    RunFlow(Submitted, input, body, transport)
  }

  /** sendPaymentApprovedEmailFlow. */
  function SendPaymentApprovedEmail(input: EmailInput, body: string, transport: TransportResult): (run: FlowRun)
    ensures body != "" ==>
      (|run.sent| == 1 && run.sent[0].subject == "Your payment for \"" + input.eventName + "\" has been approved!")
    ensures run.output.success <==> body != "" && transport.success
  {
    RunFlow(Approved, input, body, transport)
  }
}
