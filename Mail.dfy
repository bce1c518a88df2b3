/** mail/mail.go: the mails the server sends. Only the building of the
    message is modelled; the SMTP dialogue (dial, TLS, authentication,
    addresses, data) is foreign. The header fields follow section 3.6 of
    RFC 5322, except that recipients are separated by ";" rather than the
    "," of its section 3.4. */
module Mail {
  import opened Strings

  /** The SMTP settings read from the configuration. */
  datatype SmtpConfig = SmtpConfig(address: string, port: string, user: string, password: string, sender: string)

  datatype Mail = Mail(
    smtpAddress: string,
    smtpPort: string,
    smtpUser: string,
    smtpPassword: string,
    sender: string,
    recipient: seq<string>,
    subject: string,
    body: string,
    mime: string)

  const Crlf: string := "\r\n"

  /** The header that makes a client render the body as HTML. */
  const HtmlMime: string := "MIME-version: 1.0;\nContent-Type: text/html; charset=\"UTF-8\";\n\n"

  function FromLine(m: Mail): string { "From: " + m.sender + Crlf }

  /** The "To" line, present only when there are recipients. */
  function ToLine(m: Mail): string
  {
    if |m.recipient| > 0 then "To: " + Join(m.recipient, ";") + Crlf else ""
  }

  function SubjectLine(m: Mail): string { "Subject: " + m.subject + Crlf }

  /** `buildMessage`: the originator line, the recipients line when there are
      recipients, the subject line, the MIME header verbatim, an empty line,
      then the body. */
  function BuildMessage(m: Mail): string
  {
    FromLine(m) + (ToLine(m) + (SubjectLine(m) + m.mime + (Crlf + m.body)))
  }

  /** Where each part of the message lies: it opens with the originator; the
      text after that starts with "To: " exactly when there are recipients,
      and is then their list; the subject line and the MIME header follow;
      it closes with an empty line and the body. */
  lemma MessageLayout(m: Mail)
    ensures var message := BuildMessage(m);
            && message[..|FromLine(m)|] == "From: " + m.sender + Crlf
            && (var rest := message[|FromLine(m)|..];
                |rest| >= 4 && (rest[..4] == "To: " <==> |m.recipient| > 0))
            && (|m.recipient| > 0 ==>
                  message[|FromLine(m)|..][..|ToLine(m)|] == "To: " + Join(m.recipient, ";") + Crlf)
            && message[|FromLine(m)| + |ToLine(m)|..][..|SubjectLine(m)| + |m.mime|]
               == "Subject: " + m.subject + Crlf + m.mime
            && |message| >= |m.body| + 2
            && message[|message| - |m.body| - 2..] == Crlf + m.body
  {
    MessageHead(m);
    MessageMiddle(m);
    MessageEnd(m);
  }

  lemma MessageHead(m: Mail)
    ensures var message := BuildMessage(m);
            && message[..|FromLine(m)|] == FromLine(m)
            && (var rest := message[|FromLine(m)|..];
                |rest| >= 4 && (rest[..4] == "To: " <==> |m.recipient| > 0)
                && (|m.recipient| > 0 ==> rest[..|ToLine(m)|] == ToLine(m)))
  {
    var from, to, afterTo := FromLine(m), ToLine(m), SubjectLine(m) + m.mime + (Crlf + m.body);
    var rest := to + afterTo;
    assert BuildMessage(m) == from + rest;
    assert (from + rest)[|from|..] == rest;
    assert afterTo[0] == 'S';
    if |m.recipient| > 0 {
      assert rest[..|to|] == to;
      assert rest[..4] == to[..4];
    } else {
      assert rest == afterTo;
    }
  }

  lemma MessageMiddle(m: Mail)
    ensures var message := BuildMessage(m);
            message[|FromLine(m)| + |ToLine(m)|..][..|SubjectLine(m)| + |m.mime|] == SubjectLine(m) + m.mime
  {
    var head, subject, tail := FromLine(m) + ToLine(m), SubjectLine(m) + m.mime, Crlf + m.body;
    assert BuildMessage(m) == head + (subject + tail);
    assert (head + (subject + tail))[|head|..] == subject + tail;
  }

  lemma MessageEnd(m: Mail)
    ensures var message := BuildMessage(m);
            |message| >= |m.body| + 2 && message[|message| - |m.body| - 2..] == Crlf + m.body
  {
    var head, tail := FromLine(m) + ToLine(m) + SubjectLine(m) + m.mime, Crlf + m.body;
    assert BuildMessage(m) == head + tail;
  }

  /** The originator can be read back from the message: it is the text of the
      first line after "From: ", provided the sender holds no carriage return. */
  lemma SenderReadBack(m: Mail)
    requires '\r' !in m.sender
    ensures var message := BuildMessage(m);
            '\r' in message && message[..IndexOf(message, '\r')] == "From: " + m.sender
  {
    var message := BuildMessage(m);
    var head := "From: " + m.sender;
    assert message[..|FromLine(m)|] == head + Crlf;
    assert message[|head|] == '\r';
    assert '\r' !in head;
    var i := IndexOf(message, '\r');
    assert message[..|head|] == head;
  }

  /** A mail with one recipient and no MIME header reads, line by line:
      the originator, the recipient, the subject, an empty line, the body. */
  lemma PlainLayout(m: Mail, recipient: string)
    requires m.recipient == [recipient] && m.mime == ""
    ensures BuildMessage(m) == "From: " + m.sender + Crlf + "To: " + recipient + Crlf
                               + "Subject: " + m.subject + Crlf + Crlf + m.body
  {
    assert Join(m.recipient, ";") == recipient;
    assert SubjectLine(m) + m.mime == SubjectLine(m);
  }

  /** Every message closes with the MIME header, the empty line and the body. */
  lemma MimeTail(m: Mail)
    ensures var message := BuildMessage(m);
            var tail := m.mime + Crlf + m.body;
            |message| >= |tail| && message[|message| - |tail|..] == tail
  {
    var head := FromLine(m) + ToLine(m) + SubjectLine(m);
    assert BuildMessage(m) == head + (m.mime + Crlf + m.body);
  }

  /** `SendMail`: one recipient, the SMTP settings and sender from the
      configuration, no MIME header; the message sent is the plain
      originator, recipient and subject lines, an empty line and the body. */
  function SendMail(config: SmtpConfig, recipient: string, subject: string, body: string): (m: Mail)
    ensures m.recipient == [recipient] && m.mime == ""
    ensures m.sender == config.sender && m.subject == subject && m.body == body
    ensures m.smtpAddress == config.address && m.smtpPort == config.port
    ensures m.smtpUser == config.user && m.smtpPassword == config.password
    ensures BuildMessage(m) == "From: " + config.sender + Crlf + "To: " + recipient + Crlf
                               + "Subject: " + subject + Crlf + Crlf + body
  {
    var m := Mail(config.address, config.port, config.user, config.password, config.sender,
                  [recipient], subject, body, "");
    PlainLayout(m, recipient);
    m
  }

  /** `SendHTMLMail`: the given recipients and the HTML MIME header; the
      message sent has a "To" line exactly when there are recipients, and
      ends with the HTML header, an empty line and the body. */
  function SendHtmlMail(config: SmtpConfig, recipients: seq<string>, subject: string, body: string): (m: Mail)
    ensures m.recipient == recipients && m.mime == HtmlMime
    ensures m.sender == config.sender && m.subject == subject && m.body == body
    ensures m.smtpAddress == config.address && m.smtpPort == config.port
    ensures m.smtpUser == config.user && m.smtpPassword == config.password
    ensures var rest := BuildMessage(m)[|FromLine(m)|..];
            |rest| >= 4 && (rest[..4] == "To: " <==> recipients != [])
    ensures var message := BuildMessage(m);
            var tail := HtmlMime + Crlf + body;
            |message| >= |tail| && message[|message| - |tail|..] == tail
  {
    var m := Mail(config.address, config.port, config.user, config.password, config.sender,
                  recipients, subject, body, HtmlMime);
    MessageHead(m);
    MimeTail(m);
    m
  }

  /** A plain mail's message names its one recipient on the "To" line, and
      the subject line is followed directly by the empty line and the body. */
  lemma PlainMessage(config: SmtpConfig, recipient: string, subject: string, body: string)
    ensures var m := SendMail(config, recipient, subject, body);
            && ToLine(m) == "To: " + recipient + Crlf
            && BuildMessage(m) == FromLine(m) + ToLine(m) + SubjectLine(m) + Crlf + body
  {
    var m := SendMail(config, recipient, subject, body);
    assert Join(m.recipient, ";") == recipient;
    assert SubjectLine(m) + m.mime == SubjectLine(m);
  }

  /** An HTML mail's message carries the HTML header right before the empty
      line that precedes the body. */
  lemma HtmlMessage(config: SmtpConfig, recipients: seq<string>, subject: string, body: string)
    ensures var message := BuildMessage(SendHtmlMail(config, recipients, subject, body));
            var tail := HtmlMime + Crlf + body;
            |message| >= |tail| && message[|message| - |tail|..] == tail
  {
    MimeTail(SendHtmlMail(config, recipients, subject, body));
  }
}
