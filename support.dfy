/** The POST handler of src/pages/api/support.ts: validate the form, check the mail
    provider's credentials, compose the message, and report the provider's answer. */
module Support {
  import opened Wrappers
  import opened Http
  import opened Text
  import opened Validation
  import opened HtmlEscape

  /** The JSON body of the request; an absent field reads as "" (both are falsy). */
  datatype SupportRequest = SupportRequest(name: string, email: string, subject: string, message: string)

  /** The mail provider's settings from the environment; an unset variable reads as "". */
  datatype MailEnv = MailEnv(apiKey: string, domain: string, supportEmail: string)

  /** What the provider's messages endpoint did with the request. */
  datatype SendOutcome = Accepted | NotAccepted | Threw

  /** The form fields handed to the provider. */
  datatype Mail = Mail(from: string, to: string, replyTo: string, subject: string, text: string, html: string)

  /** The reply, and the mail handed to the provider if the handler got that far. */
  datatype SupportResult = SupportResult(reply: Reply, mail: Option<Mail>)

  const DefaultSupportEmail := "support@buoy.design"

  /** The subject-code table. */
  const SubjectLabels: map<string, string> := map[
    "general" := "General Question",
    "bug" := "Bug Report",
    "feature" := "Feature Request",
    "enterprise" := "Enterprise Inquiry",
    "billing" := "Billing Question",
    "other" := "Other"
  ]

  /** `subjectLabels[code] || code`: the label of a known code, else the code itself. */
  function SubjectLabel(code: string): (r: string)
    ensures code in SubjectLabels ==> r == SubjectLabels[code]
    ensures code !in SubjectLabels ==> r == code
  {
    var found := if code in SubjectLabels then SubjectLabels[code] else "";
    if found != "" then found else code
  }

  predicate AllFieldsPresent(d: SupportRequest) {
    d.name != "" && d.email != "" && d.subject != "" && d.message != ""
  }

  predicate MailConfigured(env: MailEnv) {
    env.apiKey != "" && env.domain != ""
  }

  /** The mail's subject: the support tag, the subject label, and the sender's name last. */
  function SubjectLine(d: SupportRequest): (r: string)
    ensures |r| >= 15 + |d.name| && r[..15] == "[Buoy Support] " && r[|r| - |d.name|..] == d.name
  {
    "[Buoy Support] " + SubjectLabel(d.subject) + ": from " + d.name
  }

  /** The plain-text body: the template literal with the raw field values, trimmed. */
  function TextBody(d: SupportRequest): string {
    Trim("\n" + TextCore(d) + "\n    ")
  }

  /** The plain-text template between its leading newline and trailing indentation: it opens
      with the name line and closes with the raw message. */
  function TextCore(d: SupportRequest): (r: string)
    ensures |r| >= 6 + |d.message| && r[..6] == "Name: " && r[|r| - |d.message|..] == d.message
  {
    "Name: " + d.name + "\nEmail: " + d.email + "\nSubject: " + SubjectLabel(d.subject)
    + "\n\nMessage:\n" + d.message
  }

  /** `.replace(/\n/g, '<br>')`. */
  function BreakLines(s: string): (r: string)
    ensures forall i :: 0 <= i < |r| ==> r[i] != '\n'
    decreases |s|
  {
    if s == [] then []
    else (if s[0] == '\n' then "<br>" else [s[0]]) + BreakLines(s[1..])
  }

  /** The fixed text of the HTML template around its five interpolations. */
  const HtmlOpen := "<h2>New Support Request</h2>\n" + "<p><strong>Name:</strong> "
  const HtmlAfterName := "</p>\n" + "<p><strong>Email:</strong> <a href=\"mailto:"
  const HtmlAfterHref := "\">"
  const HtmlAfterEmail := "</a></p>\n" + "<p><strong>Subject:</strong> "
  const HtmlAfterSubject := "</p>\n<hr>\n<h3>Message:</h3>\n<p>"
  const HtmlClose := "</p>"

  /** The HTML body as it stands between the template's leading newline and trailing
      indentation; every field is escaped. It opens and closes with the fixed template. */
  function HtmlCore(d: SupportRequest): (r: string)
    ensures |r| >= |HtmlOpen| + |HtmlClose|
    ensures r[..|HtmlOpen|] == HtmlOpen && r[|r| - |HtmlClose|..] == HtmlClose
  {
    var fields := EscapeHtml(d.name)
      + HtmlAfterName + EscapeHtml(d.email) + HtmlAfterHref + EscapeHtml(d.email)
      + HtmlAfterEmail + EscapeHtml(SubjectLabel(d.subject))
      + HtmlAfterSubject + BreakLines(EscapeHtml(d.message));
    Framed(HtmlOpen, fields, HtmlClose);
    HtmlOpen + fields + HtmlClose
  }

  /** Text framed by `a` and `b` starts with `a` and ends with `b`. */
  lemma Framed(a: string, m: string, b: string)
    ensures (a + m + b)[..|a|] == a && (a + m + b)[|a + m + b| - |b|..] == b
  {
  }

  /** The HTML body: the template literal, trimmed. */
  function HtmlBody(d: SupportRequest): string {
    Trim("\n" + HtmlCore(d) + "\n    ")
  }

  /** The mail handed to the provider: replies go to the sender, and it always has a
      recipient, the configured support address or the default one. */
  function ComposeMail(d: SupportRequest, env: MailEnv): (m: Mail)
    ensures m.replyTo == d.email
    ensures m.to != [] && (env.supportEmail != [] ==> m.to == env.supportEmail)
    ensures m.subject == SubjectLine(d) && m.text == TextBody(d) && m.html == HtmlBody(d)
  {
    Mail(
      "Buoy Support <noreply@" + env.domain + ">",
      if env.supportEmail != "" then env.supportEmail else DefaultSupportEmail,
      d.email,
      SubjectLine(d),
      TextBody(d),
      HtmlBody(d))
  }

  /** The handler. `body` is None when the request body cannot be read as a JSON object;
      `send` is what the provider answers if the mail is handed to it. */
  function HandleSupport(body: Option<SupportRequest>, env: MailEnv, send: SendOutcome): (r: SupportResult)
    ensures r.reply.status in {200, 400, 500}
    ensures r.mail.Some? <==>
      body.Some? && AllFieldsPresent(body.value) && IsValidEmail(body.value.email) && MailConfigured(env)
    ensures r.mail.Some? ==> r.mail.value == ComposeMail(body.value, env)
    ensures r.reply.status == 200 <==> r.mail.Some? && send == Accepted
    ensures r.reply.status == 400 <==>
      body.Some? && (!AllFieldsPresent(body.value) || !IsValidEmail(body.value.email))
    ensures r.reply.downloadUrl == None
  {
    if body.None? then SupportResult(UnexpectedError, None)
    else
      var d := body.value;
      if !AllFieldsPresent(d) then SupportResult(Reply(400, "All fields are required", None), None)
      else if !IsValidEmail(d.email) then SupportResult(Reply(400, "Invalid email address", None), None)
      else if !MailConfigured(env) then SupportResult(Reply(500, "Email service not configured", None), None)
      else
        var mail := ComposeMail(d, env);
        match send
        case Accepted => SupportResult(Reply(200, "Message sent successfully", None), Some(mail))
        case NotAccepted => SupportResult(Reply(500, "Failed to send email", None), Some(mail))
        case Threw => SupportResult(UnexpectedError, Some(mail))
  }

  /** A missing field is reported before the address, the credentials or the provider are
      looked at. */
  lemma MissingFieldFirst(d: SupportRequest, env: MailEnv, send: SendOutcome)
    requires !AllFieldsPresent(d)
    ensures HandleSupport(Some(d), env, send) == SupportResult(Reply(400, "All fields are required", None), None)
  {
  }

  /** A malformed address is reported before the credentials or the provider are looked at. */
  lemma InvalidEmailSecond(d: SupportRequest, env: MailEnv, send: SendOutcome)
    requires AllFieldsPresent(d) && !IsValidEmail(d.email)
    ensures HandleSupport(Some(d), env, send) == SupportResult(Reply(400, "Invalid email address", None), None)
  {
  }

  /** Missing credentials give a server error and nothing is sent. */
  lemma UnconfiguredThird(d: SupportRequest, env: MailEnv, send: SendOutcome)
    requires AllFieldsPresent(d) && IsValidEmail(d.email) && !MailConfigured(env)
    ensures HandleSupport(Some(d), env, send) == SupportResult(Reply(500, "Email service not configured", None), None)
  {
  }

  /** Once sent, the reply follows the provider's answer alone. */
  lemma SendOutcomeDecides(d: SupportRequest, env: MailEnv, send: SendOutcome)
    requires AllFieldsPresent(d) && IsValidEmail(d.email) && MailConfigured(env)
    ensures HandleSupport(Some(d), env, send).reply ==
      match send
      case Accepted => Reply(200, "Message sent successfully", None)
      case NotAccepted => Reply(500, "Failed to send email", None)
      case Threw => UnexpectedError
  {
  }

  /** Newlines become `<br>`: each one adds exactly one tag opening. */
  lemma {:induction false} BreakLinesTags(s: string)
    ensures Count(BreakLines(s), '<') == Count(s, '<') + Count(s, '\n')
    decreases |s|
  {
    if s != [] {
      var head := if s[0] == '\n' then "<br>" else [s[0]];
      assert BreakLines(s) == head + BreakLines(s[1..]);
      CountConcat(head, BreakLines(s[1..]), '<');
      if s[0] != '\n' {
        CountSingle(s[0], '<');
      } else {
        assert head == "<br>" && Count("<br>", '<') == 1;
      }
      BreakLinesTags(s[1..]);
      assert Count(s, '<') == (if s[0] == '<' then 1 else 0) + Count(s[1..], '<');
      assert Count(s, '\n') == (if s[0] == '\n' then 1 else 0) + Count(s[1..], '\n');
    }
  }

  /** The escaped text has no tag openings. */
  lemma EscapedHasNoTags(s: string)
    ensures Count(EscapeHtml(s), '<') == 0
  {
    CountAbsent(EscapeHtml(s), '<');
  }

  lemma EntityHasNoNewline(c: char)
    requires IsSpecial(c)
    ensures Count(Entity(c), '\n') == 0
  {
    CountAbsent(Entity(c), '\n');
  }

  /** Escaping leaves newlines in place: no entity contains one. */
  lemma {:induction false} EscapeNewlines(s: string)
    ensures Count(EscapeHtml(s), '\n') == Count(s, '\n')
    decreases |s|
  {
    if s != [] {
      CountConcat(EscapeChar(s[0]), EscapeHtml(s[1..]), '\n');
      if !IsSpecial(s[0]) {
        CountSingle(s[0], '\n');
      } else {
        EntityHasNoNewline(s[0]);
      }
      EscapeNewlines(s[1..]);
      assert EscapeHtml(s) == EscapeChar(s[0]) + EscapeHtml(s[1..]);
    }
  }

  /** The HTML body is the template with the escaped fields, without the leading newline
      and trailing indentation. */
  lemma HtmlBodyIsCore(d: SupportRequest)
    ensures HtmlBody(d) == HtmlCore(d)
  {
    var core := HtmlCore(d);
    assert core[0] == core[..|HtmlOpen|][0] == HtmlOpen[0] == '<';
    assert core[|core| - 1] == core[|core| - |HtmlClose|..][|HtmlClose| - 1] == '>';
    TrimFramed("\n", core, "\n    ");
  }

  /** The tag openings of the HTML body: those of the template, plus one per newline of the
      message; the fields themselves contribute none. */
  lemma HtmlCoreTags(d: SupportRequest)
    ensures Count(HtmlCore(d), '<') ==
      Count(HtmlOpen, '<') + Count(HtmlAfterName, '<') + Count(HtmlAfterHref, '<')
      + Count(HtmlAfterEmail, '<') + Count(HtmlAfterSubject, '<') + Count(HtmlClose, '<')
      + Count(d.message, '\n')
  {
    var name, email, subj := EscapeHtml(d.name), EscapeHtml(d.email), EscapeHtml(SubjectLabel(d.subject));
    var msg := BreakLines(EscapeHtml(d.message));
    EscapedHasNoTags(d.name);
    EscapedHasNoTags(d.email);
    EscapedHasNoTags(SubjectLabel(d.subject));
    EscapedHasNoTags(d.message);
    BreakLinesTags(EscapeHtml(d.message));
    EscapeNewlines(d.message);
    var b1 := name + HtmlAfterName;
    var b2 := b1 + email;
    var b3 := b2 + HtmlAfterHref;
    var b4 := b3 + email;
    var b5 := b4 + HtmlAfterEmail;
    var b6 := b5 + subj;
    var b7 := b6 + HtmlAfterSubject;
    var fields := b7 + msg;
    assert HtmlCore(d) == HtmlOpen + fields + HtmlClose;
    CountConcat(name, HtmlAfterName, '<');
    CountConcat(b1, email, '<');
    CountConcat(b2, HtmlAfterHref, '<');
    CountConcat(b3, email, '<');
    CountConcat(b4, HtmlAfterEmail, '<');
    CountConcat(b5, subj, '<');
    CountConcat(b6, HtmlAfterSubject, '<');
    CountConcat(b7, msg, '<');
    CountConcat(HtmlOpen, fields, '<');
    CountConcat(HtmlOpen + fields, HtmlClose, '<');
  }

  /** No markup can be injected through the form: the HTML body of any request opens as many
      tags as that of an empty form, plus one `<br>` per newline of the message. */
  lemma HtmlBodyTags(d: SupportRequest)
    ensures Count(HtmlBody(d), '<') ==
      Count(HtmlBody(SupportRequest("", "", "", "")), '<') + Count(d.message, '\n')
  {
    var blank := SupportRequest("", "", "", "");
    HtmlBodyIsCore(d);
    HtmlBodyIsCore(blank);
    HtmlCoreTags(d);
    HtmlCoreTags(blank);
  }

  /** The plain-text body is the template with its leading newline and trailing indentation
      gone, and with any trailing whitespace of the message trimmed as well. */
  lemma TextBodyTrimsEnd(d: SupportRequest)
    ensures TextBody(d) == TrimEnd(TextCore(d))
  {
    var core := TextCore(d);
    var pad := "\n    ";
    assert core[0] == core[..6][0] == 'N';
    assert "\n" + core + pad == "\n" + (core + pad);
    TrimStartDropsPadding("\n", core + pad);
    TrimEndAppendWs(core, pad);
  }

  /** The plain-text body carries the raw, unescaped values (when the message does not end in
      whitespace, which the trim would remove). */
  lemma TextBodyIsRaw(d: SupportRequest)
    requires d.message != [] && !IsWhitespace(d.message[|d.message| - 1])
    ensures TextBody(d) ==
      "Name: " + d.name + "\nEmail: " + d.email + "\nSubject: " + SubjectLabel(d.subject)
      + "\n\nMessage:\n" + d.message
  {
    var core := TextCore(d);
    TextBodyTrimsEnd(d);
    assert core[|core| - 1] == d.message[|d.message| - 1];
  }

  /** A body that cannot be read goes to the catch-all and nothing is sent. */
  lemma UnreadableBodySupport(env: MailEnv, send: SendOutcome)
    ensures HandleSupport(None, env, send) == SupportResult(UnexpectedError, None)
  {
  }
}
